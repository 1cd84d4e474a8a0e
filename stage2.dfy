/** Stage 2: an urgent request answered by picking one of three replies. */
module Stage2 {
  import opened Wrappers
  import opened Items
  import opened GameContext
  import opened Script

  /** A reply; `keywords` is carried by the table but never consulted by the verdict. */
  datatype Choice = Choice(id: int, text: string, isCorrect: bool, keywords: seq<string>)

  const Choices: seq<Choice> := [
    Choice(1, "죄송하지만 지금 급한 일이 있어서 나중에 할게요.", false, []),
    Choice(2, "현재 리소스가 풀이라 다른 업무는 내일 시작 가능할 것 같아요. 이 아이디어를 디벨롭해서 팀에 공유드릴게요!", true, ["리소스", "풀", "디벨롭", "공유"]),
    Choice(3, "네, 바로 하겠습니다!", false, [])
  ]

  /** Exactly one reply is correct, the one with id 2; the ids are distinct. */
  lemma ChoicesTable()
    ensures forall i :: 0 <= i < |Choices| ==> (Choices[i].isCorrect <==> Choices[i].id == 2)
    ensures forall i, j :: 0 <= i < j < |Choices| ==> Choices[i].id != Choices[j].id
    ensures exists i :: 0 <= i < |Choices| && Choices[i].isCorrect
  {
    assert Choices[1].isCorrect;
  }

  // The NPC lines, in the order the stage says them.
  const IntroRequest: string := "저기요~ 갑자기 급한 업무가 생겼는데요,\n이거 좀 도와주실 수 있나요? 🙏"
  const IntroAsk: string := "지금 하던 업무도 있으실 텐데...\n어떻게 대응하시겠어요?"
  const CorrectPraise: string := "완벽해요! 👏\n리소스(Resource)와 풀(Full)을 적절히 사용하셨네요!\n업무 우선순위를 명확히 하고, 소통하는 것이 중요합니다."
  const CorrectKeywords: string := "판교어 키워드도 잘 활용하셨어요:\n- 리소스: 자원, 인력\n- 풀: 가득 찬 상태\n- 디벨롭: 발전시키다\n- 공유: 정보를 나누다"
  const CorrectReward: string := "업무 메일 작성할 때 유용한\n\"메일 작성 도우미\"를 드릴게요! 📧"
  const CorrectNext: string := "다음 단계로 이동할게요!"
  const WrongExplain: string := "음... 판교에서는 좀 더 구체적으로\n상황을 설명하는 게 좋아요! 😅"
  const WrongHint: string := "힌트: \"리소스\", \"풀\", \"디벨롭\", \"공유\" 같은\n판교어를 사용해보세요!"
  const WrongRetry: string := "다시 선택해주세요!"

  /** The callbacks armed on mount: two NPC lines, in order, and only then the choices. */
  function IntroScript(): (r: seq<Timed>)
    ensures Ordered(r) && |r| == 3
    ensures r[0].effect.Say? && r[0].effect.msg.sender == Npc
    ensures r[1].effect.Say? && r[1].effect.msg.sender == Npc
    ensures r[2].effect == ShowPrompt
  {
    [ Timed(500, Say(NpcLine(IntroRequest))),
      Timed(2500, Say(NpcLine(IntroAsk))),
      Timed(4000, ShowPrompt) ]
  }

  /** The correct branch: three NPC lines, the e-mail helper, a closing line, the advance. */
  function CorrectScript(): (r: seq<Timed>)
    ensures Ordered(r) && |r| == 6
    ensures forall i :: i in {0, 1, 2, 4} ==> r[i].effect.Say? && r[i].effect.msg.sender == Npc
    ensures r[3].effect == Grant(EMAIL_HELPER)
    ensures r[5].effect == Advance
  {
    [ Timed(1000, Say(NpcLine(CorrectPraise))),
      Timed(3000, Say(NpcLine(CorrectKeywords))),
      Timed(5500, Say(NpcLine(CorrectReward))),
      Timed(7000, Grant(EMAIL_HELPER)),
      Timed(8500, Say(NpcLine(CorrectNext))),
      Timed(10000, Advance) ]
  }

  /** The incorrect branch: three NPC lines, the third one re-enabling the choices; no item,
      no advance. */
  function WrongScript(): (r: seq<Timed>)
    ensures Ordered(r) && |r| == 3
    ensures r[0].effect.Say? && r[0].effect.msg.sender == Npc
    ensures r[1].effect.Say? && r[1].effect.msg.sender == Npc
    ensures r[2].effect.Retry? && r[2].effect.msg.sender == Npc
    ensures forall i :: 0 <= i < |r| ==> !r[i].effect.Grant? && r[i].effect != Advance
  {
    [ Timed(1000, Say(NpcLine(WrongExplain))),
      Timed(3000, Say(NpcLine(WrongHint))),
      Timed(5000, Retry(NpcLine(WrongRetry))) ]
  }

  function Verdict(choice: Choice): seq<Timed>
  {
    if choice.isCorrect then CorrectScript() else WrongScript()
  }

  /** The verdict looks at `isCorrect` only: replacing a reply's keywords changes nothing. */
  lemma KeywordsIgnored(choice: Choice, keywords: seq<string>)
    ensures Verdict(choice.(keywords := keywords)) == Verdict(choice)
  {
  }

  /** The correct branch, as store operations in firing order: three NPC lines, the e-mail
      helper, the closing line, the transition request. Afterwards the helper is owned and
      announced and the stage number is still the same. */
  lemma CorrectOutcome(s: GameState)
    ensures Play(s, Effects(CorrectScript())) ==
      TransitionStarted(WithDialogue(WithItem(WithDialogue(WithDialogue(WithDialogue(s,
        NpcLine(CorrectPraise)), NpcLine(CorrectKeywords)), NpcLine(CorrectReward)), EMAIL_HELPER), NpcLine(CorrectNext)))
    ensures var r := Play(s, Effects(CorrectScript()));
      && r.inventory == s.inventory + [EMAIL_HELPER] && r.newItem == Some(EMAIL_HELPER) && r.showItemModal
      && r.isTransitioning && r.currentStage == s.currentStage
      && r.dialogueHistory == s.dialogueHistory +
        [NpcLine(CorrectPraise), NpcLine(CorrectKeywords), NpcLine(CorrectReward), NpcLine(CorrectNext)]
  {
    var es := Effects(CorrectScript());
    assert es[0] == Say(NpcLine(CorrectPraise)) && es[1] == Say(NpcLine(CorrectKeywords));
    assert es[2] == Say(NpcLine(CorrectReward)) && es[3] == Grant(EMAIL_HELPER);
    assert es[4] == Say(NpcLine(CorrectNext)) && es[5] == Advance;
    PlaySix(s, es);
    CorrectFields(s, NpcLine(CorrectPraise), NpcLine(CorrectKeywords), NpcLine(CorrectReward), NpcLine(CorrectNext));
  }

  lemma CorrectFields(s: GameState, a: Message, b: Message, c: Message, d: Message)
    ensures var r := TransitionStarted(WithDialogue(WithItem(WithDialogue(WithDialogue(WithDialogue(s, a), b), c), EMAIL_HELPER), d));
      && r.inventory == s.inventory + [EMAIL_HELPER] && r.newItem == Some(EMAIL_HELPER) && r.showItemModal
      && r.isTransitioning && r.currentStage == s.currentStage
      && r.dialogueHistory == s.dialogueHistory + [a, b, c, d]
  {
  }

  /** The incorrect branch: three NPC lines, and nothing else in the store changes. */
  lemma WrongOutcome(s: GameState)
    ensures Play(s, Effects(WrongScript())) ==
      WithDialogue(WithDialogue(WithDialogue(s, NpcLine(WrongExplain)), NpcLine(WrongHint)), NpcLine(WrongRetry))
    ensures var r := Play(s, Effects(WrongScript()));
      && r.inventory == s.inventory && r.newItem == s.newItem && r.showItemModal == s.showItemModal
      && r.isTransitioning == s.isTransitioning && r.currentStage == s.currentStage
      && r.dialogueHistory == s.dialogueHistory + [NpcLine(WrongExplain), NpcLine(WrongHint), NpcLine(WrongRetry)]
  {
    var es := Effects(WrongScript());
    assert es[0] == Say(NpcLine(WrongExplain)) && es[1] == Say(NpcLine(WrongHint));
    assert es[2] == Retry(NpcLine(WrongRetry));
    PlayThree(s, es);
    WrongFields(s, NpcLine(WrongExplain), NpcLine(WrongHint), NpcLine(WrongRetry));
  }

  lemma WrongFields(s: GameState, a: Message, b: Message, c: Message)
    ensures var r := WithDialogue(WithDialogue(WithDialogue(s, a), b), c);
      && r.inventory == s.inventory && r.newItem == s.newItem && r.showItemModal == s.showItemModal
      && r.isTransitioning == s.isTransitioning && r.currentStage == s.currentStage
      && r.dialogueHistory == s.dialogueHistory + [a, b, c]
  {
  }

  class Controller {
    var showChoices: bool
    var answered: bool

    constructor ()
      ensures !showChoices && !answered
    {
      showChoices, answered := false, false;
    }

    /** The reply buttons are rendered iff `showChoices && !answered`. */
    function ChoicesVisible(): bool
      reads this
    {
      showChoices && !answered
    }

    /** `handleChoice(choice)`: ignored once answered; otherwise the reply is logged before
        any verdict line, the buttons are hidden and locked, and the verdict is armed. */
    method HandleChoice(choice: Choice, game: Session) returns (script: seq<Timed>)
      modifies this, game
      ensures old(answered) ==> script == [] && unchanged(this) && game.State() == old(game.State())
      ensures !old(answered) ==>
        && game.State() == WithDialogue(old(game.State()), UserLine(choice.text))
        && answered && !showChoices && !ChoicesVisible()
        && script == Verdict(choice)
    {
      if answered {
        return [];
      }
      game.AddDialogue(UserLine(choice.text));
      showChoices := false;
      answered := true;
      script := Verdict(choice);
    }

    /** One armed callback firing. */
    method Fire(e: Effect, game: Session)
      requires !e.ShowEnding?
      modifies this, game
      ensures game.State() == Step(old(game.State()), e)
      ensures e.ShowPrompt? ==> showChoices && answered == old(answered)
      ensures e.Retry? ==> showChoices && !answered && ChoicesVisible()
      ensures !e.ShowPrompt? && !e.Retry? ==> showChoices == old(showChoices) && answered == old(answered)
    {
      match e
      case Say(m) => game.AddDialogue(m);
      case Grant(item) => game.AddItemToInventory(item);
      case Advance => game.GoToNextStage();
      case ShowPrompt => showChoices := true;
      case Retry(m) =>
        game.AddDialogue(m);
        answered := false;
        showChoices := true;
    }
  }
}

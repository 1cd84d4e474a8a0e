/** Stage 1: a meeting invitation answered by picking one of three replies. */
module Stage1 {
  import opened Wrappers
  import opened Items
  import opened GameContext
  import opened Script

  datatype Choice = Choice(id: int, text: string, isCorrect: bool)

  const Choices: seq<Choice> := [
    Choice(1, "네, 참석하겠습니다!", false),
    Choice(2, "그럼 인비(Invitation) 보내주세요~", true),
    Choice(3, "2시요? 알겠습니다.", false)
  ]

  /** Exactly one reply is correct, the one with id 2; the ids are distinct. */
  lemma ChoicesTable()
    ensures forall i :: 0 <= i < |Choices| ==> (Choices[i].isCorrect <==> Choices[i].id == 2)
    ensures forall i, j :: 0 <= i < j < |Choices| ==> Choices[i].id != Choices[j].id
    ensures exists i :: 0 <= i < |Choices| && Choices[i].isCorrect
  {
    assert Choices[1].isCorrect;
  }

  // The NPC lines, in the order the stage says them.
  const IntroWelcome: string := "안녕하세요! 오늘 첫 출근이시네요. 환영합니다! 👋"
  const IntroMeeting: string := "아, 그리고 오늘 오후 2시에 팀 미팅이 있는데요,\n참석 가능하신가요?"
  const CorrectExplain: string := "오! 벌써 판교어를 알고 계시네요! 😊\n\"인비(Invitation)\"는 회의 초대를 의미합니다.\n방금 캘린더에 인비 보내드렸어요!"
  const CorrectReward: string := "첫 출근부터 훌륭하세요!\n이 판교어 기초 단어 사전을 드릴게요. 📚"
  const CorrectNext: string := "다음 단계로 넘어가볼까요?"
  const WrongExplain: string := "음... 회의에 참석하려면 캘린더 초대가 필요해요.\n판교에서는 \"인비(Invitation)\"라고 부른답니다! 😅"
  const WrongRetry: string := "다시 한번 선택해보세요!"

  /** The callbacks armed on mount: two NPC lines, in order, and only then the choices. */
  function IntroScript(): (r: seq<Timed>)
    ensures Ordered(r) && |r| == 3
    ensures r[0].effect.Say? && r[0].effect.msg.sender == Npc
    ensures r[1].effect.Say? && r[1].effect.msg.sender == Npc
    ensures r[2].effect == ShowPrompt
  {
    [ Timed(500, Say(NpcLine(IntroWelcome))),
      Timed(2000, Say(NpcLine(IntroMeeting))),
      Timed(3500, ShowPrompt) ]
  }

  /** The correct branch: two NPC lines, the dictionary, a closing line, the stage advance. */
  function CorrectScript(): (r: seq<Timed>)
    ensures Ordered(r) && |r| == 5
    ensures forall i :: i in {0, 1, 3} ==> r[i].effect.Say? && r[i].effect.msg.sender == Npc
    ensures r[2].effect == Grant(DICTIONARY)
    ensures r[4].effect == Advance
  {
    [ Timed(1000, Say(NpcLine(CorrectExplain))),
      Timed(3000, Say(NpcLine(CorrectReward))),
      Timed(4500, Grant(DICTIONARY)),
      Timed(6000, Say(NpcLine(CorrectNext))),
      Timed(7500, Advance) ]
  }

  /** The incorrect branch: two NPC lines, the second one re-enabling the choices; no item,
      no advance. */
  function WrongScript(): (r: seq<Timed>)
    ensures Ordered(r) && |r| == 2
    ensures r[0].effect.Say? && r[0].effect.msg.sender == Npc
    ensures r[1].effect.Retry? && r[1].effect.msg.sender == Npc
    ensures forall i :: 0 <= i < |r| ==> !r[i].effect.Grant? && r[i].effect != Advance
  {
    [ Timed(1000, Say(NpcLine(WrongExplain))),
      Timed(3000, Retry(NpcLine(WrongRetry))) ]
  }

  /** The callbacks a reply arms, chosen by its correctness alone. */
  function Verdict(choice: Choice): seq<Timed>
  {
    if choice.isCorrect then CorrectScript() else WrongScript()
  }

  /** The correct branch, as store operations in firing order: two NPC lines, the
      dictionary, the closing line, the transition request. Afterwards the dictionary is owned
      and announced and the stage number is still the same. */
  lemma CorrectOutcome(s: GameState)
    ensures Play(s, Effects(CorrectScript())) ==
      TransitionStarted(WithDialogue(WithItem(WithDialogue(WithDialogue(s,
        NpcLine(CorrectExplain)), NpcLine(CorrectReward)), DICTIONARY), NpcLine(CorrectNext)))
    ensures var r := Play(s, Effects(CorrectScript()));
      && r.inventory == s.inventory + [DICTIONARY] && r.newItem == Some(DICTIONARY) && r.showItemModal
      && r.isTransitioning && r.currentStage == s.currentStage
      && r.dialogueHistory == s.dialogueHistory + [NpcLine(CorrectExplain), NpcLine(CorrectReward), NpcLine(CorrectNext)]
  {
    var es := Effects(CorrectScript());
    assert es[0] == Say(NpcLine(CorrectExplain)) && es[1] == Say(NpcLine(CorrectReward));
    assert es[2] == Grant(DICTIONARY) && es[3] == Say(NpcLine(CorrectNext)) && es[4] == Advance;
    PlayFive(s, es);
    CorrectFields(s, NpcLine(CorrectExplain), NpcLine(CorrectReward), NpcLine(CorrectNext));
  }

  lemma CorrectFields(s: GameState, a: Message, b: Message, c: Message)
    ensures var r := TransitionStarted(WithDialogue(WithItem(WithDialogue(WithDialogue(s, a), b), DICTIONARY), c));
      && r.inventory == s.inventory + [DICTIONARY] && r.newItem == Some(DICTIONARY) && r.showItemModal
      && r.isTransitioning && r.currentStage == s.currentStage
      && r.dialogueHistory == s.dialogueHistory + [a, b, c]
  {
  }

  /** The incorrect branch: two NPC lines, and nothing else in the store changes. */
  lemma WrongOutcome(s: GameState)
    ensures Play(s, Effects(WrongScript())) == WithDialogue(WithDialogue(s, NpcLine(WrongExplain)), NpcLine(WrongRetry))
    ensures var r := Play(s, Effects(WrongScript()));
      && r.inventory == s.inventory && r.newItem == s.newItem && r.showItemModal == s.showItemModal
      && r.isTransitioning == s.isTransitioning && r.currentStage == s.currentStage
      && r.dialogueHistory == s.dialogueHistory + [NpcLine(WrongExplain), NpcLine(WrongRetry)]
  {
    var es := Effects(WrongScript());
    assert es[0] == Say(NpcLine(WrongExplain)) && es[1] == Retry(NpcLine(WrongRetry));
    PlayTwo(s, es);
    WrongFields(s, NpcLine(WrongExplain), NpcLine(WrongRetry));
  }

  lemma WrongFields(s: GameState, a: Message, b: Message)
    ensures var r := WithDialogue(WithDialogue(s, a), b);
      && r.inventory == s.inventory && r.newItem == s.newItem && r.showItemModal == s.showItemModal
      && r.isTransitioning == s.isTransitioning && r.currentStage == s.currentStage
      && r.dialogueHistory == s.dialogueHistory + [a, b]
  {
  }

  class Controller {
    var showChoices: bool
    var answered: bool

    constructor ()
      ensures !showChoices && !answered
    {
      showChoices, answered := false, false;
    }

    /** The reply buttons are rendered iff `showChoices && !answered`. */
    function ChoicesVisible(): bool
      reads this
    {
      showChoices && !answered
    }

    /** `handleChoice(choice)`: ignored once answered; otherwise the reply is logged first,
        the buttons are hidden and locked, and the verdict's callbacks are armed. */
    method HandleChoice(choice: Choice, game: Session) returns (script: seq<Timed>)
      modifies this, game
      ensures old(answered) ==> script == [] && unchanged(this) && game.State() == old(game.State())
      ensures !old(answered) ==>
        && game.State() == WithDialogue(old(game.State()), UserLine(choice.text))
        && answered && !showChoices && !ChoicesVisible()
        && script == Verdict(choice)
    {
      if answered {
        return [];
      }
      game.AddDialogue(UserLine(choice.text));
      showChoices := false;
      answered := true;
      script := Verdict(choice);
    }

    /** One armed callback firing. */
    method Fire(e: Effect, game: Session)
      requires !e.ShowEnding?
      modifies this, game
      ensures game.State() == Step(old(game.State()), e)
      ensures e.ShowPrompt? ==> showChoices && answered == old(answered)
      ensures e.Retry? ==> showChoices && !answered && ChoicesVisible()
      ensures !e.ShowPrompt? && !e.Retry? ==> showChoices == old(showChoices) && answered == old(answered)
    {
      match e
      case Say(m) => game.AddDialogue(m);
      case Grant(item) => game.AddItemToInventory(item);
      case Advance => game.GoToNextStage();
      case ShowPrompt => showChoices := true;
      case Retry(m) =>
        game.AddDialogue(m);
        answered := false;
        showChoices := true;
    }
  }
}

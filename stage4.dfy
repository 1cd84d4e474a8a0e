/** Stage 4: a free-form retrospective that is accepted whenever it is not blank. */
module Stage4 {
  import opened Wrappers
  import opened Text
  import opened Items
  import opened GameContext
  import opened Script

  /** The logged copy of a submitted retrospective. */
  function RetrospectiveLine(content: string): Message
  {
    UserLine("[회고 작성]\n\n" + content)
  }

  // The NPC lines, in the order the stage says them.
  const IntroBack: string := "휴가 잘 다녀오셨나요? 😊"
  const IntroRetro: string := "이제 프로젝트 회고(Retrospective) 시간입니다!\n지금까지의 경험을 돌아보는 시간이에요."
  const IntroQuestions: string := "다음 질문에 대해 간단히 작성해주세요:\n- 잘한 점 (Good)\n- 아쉬운 점 (Bad)\n- 개선할 점 (Action)"
  const SubmitPraise: string := "훌륭한 회고네요! 👏\n자신을 돌아보고 개선점을 찾는 자세가 멋져요!"
  const SubmitThanks: string := "지금까지 정말 수고 많으셨습니다!\n판교 생존의 모든 단계를 완료하셨어요! 🎉"
  const SubmitReward: string := "축하드립니다! 🎁\n\"판교 생존 웰컴 키트\"를 드릴게요!"

  /** The callbacks armed on mount: three NPC lines, in order, and only then the form. */
  function IntroScript(): (r: seq<Timed>)
    ensures Ordered(r) && |r| == 4
    ensures forall i :: 0 <= i < 3 ==> r[i].effect.Say? && r[i].effect.msg.sender == Npc
    ensures r[3].effect == ShowPrompt
  {
    [ Timed(500, Say(NpcLine(IntroBack))),
      Timed(2500, Say(NpcLine(IntroRetro))),
      Timed(4500, Say(NpcLine(IntroQuestions))),
      Timed(6000, ShowPrompt) ]
  }

  /** Every submission: three NPC lines, the welcome kit, then the ending panel; the last
      stage never asks for a further stage. */
  function SubmitScript(): (r: seq<Timed>)
    ensures Ordered(r) && |r| == 5
    ensures forall i :: 0 <= i < 3 ==> r[i].effect.Say? && r[i].effect.msg.sender == Npc
    ensures r[3].effect == Grant(WELCOME_KIT)
    ensures r[4].effect == ShowEnding
    ensures forall i :: 0 <= i < |r| ==> r[i].effect != Advance && !r[i].effect.Retry?
  {
    [ Timed(1000, Say(NpcLine(SubmitPraise))),
      Timed(3000, Say(NpcLine(SubmitThanks))),
      Timed(5500, Say(NpcLine(SubmitReward))),
      Timed(7000, Grant(WELCOME_KIT)),
      Timed(9000, ShowEnding) ]
  }

  /** A submission's callbacks, as store operations in firing order: three NPC lines, then
      the welcome kit (the ending panel is local to the stage). Afterwards the kit is owned
      and announced, and no transition has been requested. */
  lemma SubmitOutcome(s: GameState)
    ensures Play(s, Effects(SubmitScript())) ==
      WithItem(WithDialogue(WithDialogue(WithDialogue(s,
        NpcLine(SubmitPraise)), NpcLine(SubmitThanks)), NpcLine(SubmitReward)), WELCOME_KIT)
    ensures var r := Play(s, Effects(SubmitScript()));
      && r.inventory == s.inventory + [WELCOME_KIT] && r.newItem == Some(WELCOME_KIT) && r.showItemModal
      && r.isTransitioning == s.isTransitioning && r.currentStage == s.currentStage
      && r.dialogueHistory == s.dialogueHistory + [NpcLine(SubmitPraise), NpcLine(SubmitThanks), NpcLine(SubmitReward)]
  {
    var es := Effects(SubmitScript());
    assert es[0] == Say(NpcLine(SubmitPraise)) && es[1] == Say(NpcLine(SubmitThanks));
    assert es[2] == Say(NpcLine(SubmitReward)) && es[3] == Grant(WELCOME_KIT) && es[4] == ShowEnding;
    PlayFive(s, es);
    SubmitFields(s, NpcLine(SubmitPraise), NpcLine(SubmitThanks), NpcLine(SubmitReward));
  }

  lemma SubmitFields(s: GameState, a: Message, b: Message, c: Message)
    ensures var r := WithItem(WithDialogue(WithDialogue(WithDialogue(s, a), b), c), WELCOME_KIT);
      && r.inventory == s.inventory + [WELCOME_KIT] && r.newItem == Some(WELCOME_KIT) && r.showItemModal
      && r.isTransitioning == s.isTransitioning && r.currentStage == s.currentStage
      && r.dialogueHistory == s.dialogueHistory + [a, b, c]
  {
  }

  /** The ending panel announces that every item has been collected; that holds when the
      player arrives holding the three earlier rewards in stage order. */
  lemma EndingHoldsEveryItem(s: GameState)
    requires s.inventory == [DICTIONARY, EMAIL_HELPER, MAGNIFIER]
    ensures Play(s, Effects(SubmitScript())).inventory == AllItems
  {
    SubmitOutcome(s);
  }

  class Controller {
    var showRetrospectiveForm: bool
    var retrospectiveContent: string
    var submitted: bool
    var showEnding: bool

    constructor ()
      ensures !showRetrospectiveForm && retrospectiveContent == "" && !submitted && !showEnding
    {
      showRetrospectiveForm, retrospectiveContent, submitted, showEnding := false, "", false, false;
    }

    /** The form is rendered iff `showRetrospectiveForm && !submitted`. */
    function FormVisible(): bool
      reads this
    {
      showRetrospectiveForm && !submitted
    }

    /** The textarea's `onChange`. */
    method Edit(text: string)
      modifies this
      ensures retrospectiveContent == text
      ensures showRetrospectiveForm == old(showRetrospectiveForm) && submitted == old(submitted)
      ensures showEnding == old(showEnding)
    {
      retrospectiveContent := text;
    }

    /** `handleSubmit`: ignored when already submitted or when the text is blank; otherwise
        the retrospective is logged, the form is hidden and locked for good, and the closing
        callbacks are armed. */
    method HandleSubmit(game: Session) returns (script: seq<Timed>)
      modifies this, game
      ensures old(submitted) || Blank(old(retrospectiveContent)) ==>
        script == [] && unchanged(this) && game.State() == old(game.State())
      ensures !old(submitted) && !Blank(old(retrospectiveContent)) ==>
        && game.State() == WithDialogue(old(game.State()), RetrospectiveLine(old(retrospectiveContent)))
        && submitted && !showRetrospectiveForm && !FormVisible()
        && retrospectiveContent == old(retrospectiveContent) && showEnding == old(showEnding)
        && script == SubmitScript()
    {
      if submitted || TrimsToEmpty(retrospectiveContent) {
        return [];
      }
      game.AddDialogue(RetrospectiveLine(retrospectiveContent));
      showRetrospectiveForm := false;
      submitted := true;
      script := SubmitScript();
    }

    /** One armed callback firing. Nothing here ever clears `submitted`, so the form never
        comes back once a retrospective has been sent. */
    method Fire(e: Effect, game: Session)
      requires !e.Retry? && e != Advance
      modifies this, game
      ensures game.State() == Step(old(game.State()), e)
      ensures submitted == old(submitted) && retrospectiveContent == old(retrospectiveContent)
      ensures showRetrospectiveForm == (old(showRetrospectiveForm) || e.ShowPrompt?)
      ensures showEnding == (old(showEnding) || e.ShowEnding?)
      ensures old(submitted) ==> !FormVisible()
    {
      match e
      case Say(m) => game.AddDialogue(m);
      case Grant(item) => game.AddItemToInventory(item);
      case ShowPrompt => showRetrospectiveForm := true;
      case ShowEnding => showEnding := true;
    }
  }
}

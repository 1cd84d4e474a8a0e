/** Stage routing and the stage-range invariant of a whole play-through: the container mounts
    one stage controller chosen by the stage number, a stage's last callback may start the
    transition, and the transition's end moves to the following stage. */
module GameContainer {
  import opened Wrappers
  import opened Items
  import opened GameContext
  import opened Script
  import Stage1
  import Stage2
  import Stage3
  import Stage4

  datatype StageComponent = S1 | S2 | S3 | S4
  {
    function Number(): (n: int)
      ensures 1 <= n <= 4
    {
      match this
      case S1 => 1
      case S2 => 2
      case S3 => 3
      case S4 => 4
    }
  }

  /** `renderStage()`: stages 1 to 4 get their own controller; any other number shows Stage 1. */
  function RenderStage(stage: int): (c: StageComponent)
    ensures 1 <= stage <= 4 ==> c.Number() == stage
    ensures !(1 <= stage <= 4) ==> c == S1
  {
    if stage == 2 then S2
    else if stage == 3 then S3
    else if stage == 4 then S4
    else S1
  }

  /** The stage number stays in 1..4, and a transition is only ever under way towards a
      stage that exists. */
  predicate StageInvariant(s: GameState)
  {
    1 <= s.currentStage <= 4 && (s.isTransitioning ==> s.currentStage <= 3)
  }

  lemma InitialInvariant()
    ensures StageInvariant(Initial())
    ensures RenderStage(Initial().currentStage) == S1
  {
  }

  /** An advance, if a script has one, is its final callback. */
  predicate AdvanceOnlyLast(script: seq<Timed>)
  {
    forall i :: 0 <= i < |script| && script[i].effect == Advance ==> i == |script| - 1
  }

  predicate NoAdvance(script: seq<Timed>)
  {
    forall i :: 0 <= i < |script| ==> script[i].effect != Advance
  }

  /** The callback that unlocks the stage's input, if a batch has one, is its final callback. */
  predicate RetryOnlyLast(script: seq<Timed>)
  {
    forall i :: 0 <= i < |script| && script[i].effect.Retry? ==> i == |script| - 1
  }

  predicate NoRetry(script: seq<Timed>)
  {
    forall i :: 0 <= i < |script| ==> !script[i].effect.Retry?
  }

  /** Every batch a stage controller arms keeps the advance for last, and so is the unlock of a
      wrong answer; the winning batch never unlocks the input. Since the handler locks the input
      when it arms a batch, no second batch can be armed while one is pending, and the advance
      is the last callback of the only pending batch when the transition unmounts the stage. */
  lemma Stage1AdvancesLast()
    ensures NoAdvance(Stage1.IntroScript()) && NoAdvance(Stage1.WrongScript())
    ensures AdvanceOnlyLast(Stage1.CorrectScript())
    ensures NoRetry(Stage1.CorrectScript()) && RetryOnlyLast(Stage1.WrongScript())
  {
    var c := Stage1.CorrectScript();
    assert forall i :: i in {0, 1, 3} ==> c[i].effect.Say?;
    assert c[2].effect.Grant?;
  }

  lemma Stage2AdvancesLast()
    ensures NoAdvance(Stage2.IntroScript()) && NoAdvance(Stage2.WrongScript())
    ensures AdvanceOnlyLast(Stage2.CorrectScript())
    ensures NoRetry(Stage2.CorrectScript()) && RetryOnlyLast(Stage2.WrongScript())
  {
    var c := Stage2.CorrectScript();
    assert forall i :: i in {0, 1, 2, 4} ==> c[i].effect.Say?;
    assert c[3].effect.Grant?;
  }

  lemma Stage3AdvancesLast(missing: seq<string>)
    ensures NoAdvance(Stage3.IntroScript()) && NoAdvance(Stage3.FailScript(missing))
    ensures AdvanceOnlyLast(Stage3.PassScript())
    ensures NoRetry(Stage3.PassScript()) && RetryOnlyLast(Stage3.FailScript(missing))
  {
    var c := Stage3.PassScript();
    assert forall i :: i in {0, 1, 2, 4} ==> c[i].effect.Say?;
    assert c[3].effect.Grant?;
  }

  /** The last stage never advances. */
  lemma Stage4NeverAdvances()
    ensures NoAdvance(Stage4.IntroScript()) && NoAdvance(Stage4.SubmitScript())
  {
  }

  /** One callback of the mounted stage keeps the invariant, provided an advance only comes
      from a stage other than the last. */
  lemma StepKeepsInvariant(s: GameState, e: Effect)
    requires StageInvariant(s) && !s.isTransitioning
    requires e == Advance ==> RenderStage(s.currentStage) != S4
    ensures StageInvariant(Step(s, e))
    ensures Step(s, e).currentStage == s.currentStage
  {
  }

  /** A whole batch of the mounted stage keeps the invariant when its only advance is its
      last callback and the last stage has none. */
  lemma {:induction false} PlayKeepsInvariant(s: GameState, es: seq<Effect>)
    requires StageInvariant(s) && !s.isTransitioning
    requires forall i :: 0 <= i < |es| && es[i] == Advance ==> i == |es| - 1
    requires RenderStage(s.currentStage) == S4 ==> forall i :: 0 <= i < |es| ==> es[i] != Advance
    ensures StageInvariant(Play(s, es))
    ensures Play(s, es).currentStage == s.currentStage
    decreases |es|
  {
    if es != [] {
      StepKeepsInvariant(s, es[0]);
      var t := Step(s, es[0]);
      if |es| == 1 {
        assert Play(t, es[1..]) == t;
      } else {
        assert es[0] != Advance;
        assert !t.isTransitioning;
        PlayKeepsInvariant(t, es[1..]);
      }
    }
  }

  /** The transition video ending or being skipped: `completeTransition()` runs once, moving
      to the following stage, which exists and is the one the container routes to next. */
  method VideoSettled(game: Session)
    requires game.isTransitioning && StageInvariant(game.State())
    modifies game
    ensures game.State() == TransitionCompleted(old(game.State()))
    ensures StageInvariant(game.State()) && !game.isTransitioning
    ensures 2 <= game.currentStage <= 4
    ensures RenderStage(game.currentStage).Number() == old(game.currentStage) + 1
  {
    game.CompleteTransition();
  }

  /** A stage played through its winning branch: its intro batch, the player's answer logged
      by the handler, the winning batch, and then the transition video settling. */
  function Cleared(s: GameState, intro: seq<Timed>, answer: Message, win: seq<Timed>): GameState
  {
    TransitionCompleted(Play(WithDialogue(Play(s, Effects(intro)), answer), Effects(win)))
  }

  /** A play-through from a fresh store that answers every stage correctly and ends with the
      retrospective being submitted. */
  function WinningRun(c1: Stage1.Choice, c2: Stage2.Choice, mail: string, retro: string): GameState
  {
    var s1 := Cleared(Initial(), Stage1.IntroScript(), UserLine(c1.text), Stage1.Verdict(c1));
    var s2 := Cleared(s1, Stage2.IntroScript(), UserLine(c2.text), Stage2.Verdict(c2));
    var s3 := Cleared(s2, Stage3.IntroScript(), Stage3.MailLine(mail), Stage3.Verdict(mail));
    Finished(s3, retro)
  }

  /** Stage 4 played through: its intro batch, the retrospective logged, its closing batch. */
  function Finished(s: GameState, retro: string): GameState
  {
    Play(WithDialogue(Play(s, Effects(Stage4.IntroScript())), Stage4.RetrospectiveLine(retro)),
      Effects(Stage4.SubmitScript()))
  }

  /** A winning play-through ends on Stage 4, not transitioning, holding the four rewards
      exactly once each and in stage order, with the welcome kit announced: the state in
      which Stage 4 shows its ending panel. */
  lemma WinningRunCollectsEveryItem(c1: Stage1.Choice, c2: Stage2.Choice, mail: string, retro: string)
    requires c1.isCorrect && c2.isCorrect && Stage3.MissingKeywords(mail) == []
    ensures var r := WinningRun(c1, c2, mail, retro);
      && r.inventory == AllItems
      && r.currentStage == 4 && RenderStage(r.currentStage) == S4
      && StageInvariant(r) && !r.isTransitioning
      && r.showItemModal && r.newItem == Some(WELCOME_KIT)
  {
    var s0 := Initial();
    var s1 := Cleared(s0, Stage1.IntroScript(), UserLine(c1.text), Stage1.Verdict(c1));
    var s2 := Cleared(s1, Stage2.IntroScript(), UserLine(c2.text), Stage2.Verdict(c2));
    var s3 := Cleared(s2, Stage3.IntroScript(), Stage3.MailLine(mail), Stage3.Verdict(mail));
    Stage1Won(s0, c1);
    Stage2Won(s1, c2);
    Stage3Won(s2, mail);
    Stage4Won(s3, retro);
    Chain(s0, s1, s2, s3, Finished(s3, retro));
  }

  /** The four stage results chained: each stage adds its reward and moves one stage on. */
  lemma Chain(s0: GameState, s1: GameState, s2: GameState, s3: GameState, r: GameState)
    requires s0.inventory == [] && s0.currentStage == 1
    requires s1.inventory == s0.inventory + [DICTIONARY] && s1.currentStage == s0.currentStage + 1
    requires s2.inventory == s1.inventory + [EMAIL_HELPER] && s2.currentStage == s1.currentStage + 1
    requires s3.inventory == s2.inventory + [MAGNIFIER] && s3.currentStage == s2.currentStage + 1
    requires !s3.isTransitioning
    requires r.inventory == s3.inventory + [WELCOME_KIT] && r.currentStage == s3.currentStage
    requires r.isTransitioning == s3.isTransitioning && r.showItemModal && r.newItem == Some(WELCOME_KIT)
    ensures r.inventory == AllItems
    ensures r.currentStage == 4 && RenderStage(r.currentStage) == S4
    ensures StageInvariant(r) && !r.isTransitioning
  {
  }

  lemma Stage1Won(s: GameState, c: Stage1.Choice)
    requires c.isCorrect
    ensures var r := Cleared(s, Stage1.IntroScript(), UserLine(c.text), Stage1.Verdict(c));
      r.inventory == s.inventory + [DICTIONARY] && r.currentStage == s.currentStage + 1 && !r.isTransitioning
  {
    IntroQuiet(s, Stage1.IntroScript());
    Stage1.CorrectOutcome(WithDialogue(Play(s, Effects(Stage1.IntroScript())), UserLine(c.text)));
  }

  lemma Stage2Won(s: GameState, c: Stage2.Choice)
    requires c.isCorrect
    ensures var r := Cleared(s, Stage2.IntroScript(), UserLine(c.text), Stage2.Verdict(c));
      r.inventory == s.inventory + [EMAIL_HELPER] && r.currentStage == s.currentStage + 1 && !r.isTransitioning
  {
    IntroQuiet(s, Stage2.IntroScript());
    Stage2.CorrectOutcome(WithDialogue(Play(s, Effects(Stage2.IntroScript())), UserLine(c.text)));
  }

  lemma Stage3Won(s: GameState, mail: string)
    requires Stage3.MissingKeywords(mail) == []
    ensures var r := Cleared(s, Stage3.IntroScript(), Stage3.MailLine(mail), Stage3.Verdict(mail));
      r.inventory == s.inventory + [MAGNIFIER] && r.currentStage == s.currentStage + 1 && !r.isTransitioning
  {
    IntroQuiet(s, Stage3.IntroScript());
    Stage3.PassOutcome(WithDialogue(Play(s, Effects(Stage3.IntroScript())), Stage3.MailLine(mail)));
  }

  lemma Stage4Won(s: GameState, retro: string)
    ensures var r := Finished(s, retro);
      && r.inventory == s.inventory + [WELCOME_KIT] && r.currentStage == s.currentStage
      && r.isTransitioning == s.isTransitioning && r.showItemModal && r.newItem == Some(WELCOME_KIT)
  {
    IntroQuiet(s, Stage4.IntroScript());
    Stage4.SubmitOutcome(WithDialogue(Play(s, Effects(Stage4.IntroScript())), Stage4.RetrospectiveLine(retro)));
  }

  /** An intro batch only says lines and reveals the input, so it leaves every field but the
      log as it was. */
  lemma IntroQuiet(s: GameState, intro: seq<Timed>)
    requires forall i :: 0 <= i < |intro| ==> intro[i].effect.Say? || intro[i].effect.ShowPrompt?
    ensures Play(s, Effects(intro)) == s.(dialogueHistory := Play(s, Effects(intro)).dialogueHistory)
  {
    PlayQuiet(s, Effects(intro));
  }
}

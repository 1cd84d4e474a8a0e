/** What a stage controller schedules. Each handler of a stage runs a synchronous part and
    then arms a batch of `setTimeout` callbacks; a batch is modelled as the list of its
    callbacks with their delays, and `Ordered` says that list order is firing order. */
module Script {
  import opened Wrappers
  import opened Items
  import opened GameContext

  /** One timer callback, by what it does. */
  datatype Effect =
    | Say(msg: Message)     // addDialogue(msg)
    | Grant(item: Item)     // addItemToInventory(item)
    | Advance               // goToNextStage()
    | ShowPrompt            // reveal the choices or the form (intro)
    | Retry(msg: Message)   // addDialogue(msg), then re-enable the stage's input
    | ShowEnding            // Stage 4's ending panel

  /** A callback armed with `setTimeout(callback, delay)`. */
  datatype Timed = Timed(delay: nat, effect: Effect)

  /** Delays strictly increase, so callbacks armed together fire in list order, and all of
      them after the synchronous part of the handler. */
  predicate Ordered(script: seq<Timed>)
  {
    (forall i :: 0 <= i < |script| ==> script[i].delay > 0)
    && forall i, j :: 0 <= i < j < |script| ==> script[i].delay < script[j].delay
  }

  function Effects(script: seq<Timed>): (es: seq<Effect>)
    ensures |es| == |script| && forall i :: 0 <= i < |script| ==> es[i] == script[i].effect
  {
    seq(|script|, i requires 0 <= i < |script| => script[i].effect)
  }

  /** What one callback does to the session store (stage-local flags aside). */
  function Step(s: GameState, e: Effect): GameState
  {
    match e
    case Say(m) => WithDialogue(s, m)
    case Retry(m) => WithDialogue(s, m)
    case Grant(item) => WithItem(s, item)
    case Advance => TransitionStarted(s)
    case ShowPrompt => s
    case ShowEnding => s
  }

  /** Firing callbacks one after another. */
  function Play(s: GameState, es: seq<Effect>): GameState
    decreases |es|
  {
    if es == [] then s else Play(Step(s, es[0]), es[1..])
  }

  /** `Play` taken one position at a time: firing from position `k` on is firing callback
      `k`, then the rest. */
  lemma PlayAt(s: GameState, es: seq<Effect>, k: nat)
    requires k < |es|
    ensures Play(s, es[k..]) == Play(Step(s, es[k]), es[k + 1..])
  {
    assert es[k..][1..] == es[k + 1..];
  }

  /** Firing a batch of two, three, five or six callbacks, one after the other. */
  lemma PlayTwo(s: GameState, es: seq<Effect>)
    requires |es| == 2
    ensures Play(s, es) == Step(Step(s, es[0]), es[1])
  {
    assert es[0..] == es && es[2..] == [];
    PlayAt(s, es, 0); PlayAt(Step(s, es[0]), es, 1);
  }

  lemma PlayThree(s: GameState, es: seq<Effect>)
    requires |es| == 3
    ensures Play(s, es) == Step(Step(Step(s, es[0]), es[1]), es[2])
  {
    var s1 := Step(s, es[0]);
    var s2 := Step(s1, es[1]);
    assert es[0..] == es && es[3..] == [];
    PlayAt(s, es, 0); PlayAt(s1, es, 1); PlayAt(s2, es, 2);
  }

  lemma PlayFive(s: GameState, es: seq<Effect>)
    requires |es| == 5
    ensures Play(s, es) == Step(Step(Step(Step(Step(s, es[0]), es[1]), es[2]), es[3]), es[4])
  {
    var s1 := Step(s, es[0]);
    var s2 := Step(s1, es[1]);
    var s3 := Step(s2, es[2]);
    var s4 := Step(s3, es[3]);
    assert es[0..] == es && es[5..] == [];
    PlayAt(s, es, 0); PlayAt(s1, es, 1); PlayAt(s2, es, 2); PlayAt(s3, es, 3); PlayAt(s4, es, 4);
  }

  lemma PlaySix(s: GameState, es: seq<Effect>)
    requires |es| == 6
    ensures Play(s, es) == Step(Step(Step(Step(Step(Step(s, es[0]), es[1]), es[2]), es[3]), es[4]), es[5])
  {
    var s1 := Step(s, es[0]);
    var s2 := Step(s1, es[1]);
    var s3 := Step(s2, es[2]);
    var s4 := Step(s3, es[3]);
    var s5 := Step(s4, es[4]);
    assert es[0..] == es && es[6..] == [];
    PlayAt(s, es, 0); PlayAt(s1, es, 1); PlayAt(s2, es, 2); PlayAt(s3, es, 3); PlayAt(s4, es, 4); PlayAt(s5, es, 5);
  }

  /** The messages the callbacks append, in order. */
  function Said(es: seq<Effect>): seq<Message>
  {
    if es == [] then [] else Utterance(es[0]) + Said(es[1..])
  }

  function Utterance(e: Effect): seq<Message>
  {
    match e
    case Say(m) => [m]
    case Retry(m) => [m]
    case _ => []
  }

  /** The items the callbacks grant, in order. */
  function Granted(es: seq<Effect>): seq<Item>
  {
    if es == [] then [] else (if es[0].Grant? then [es[0].item] else []) + Granted(es[1..])
  }

  /** A batch that neither grants nor advances only writes to the log: inventory, modal,
      transition flag and stage are as before. */
  lemma {:induction false} PlayQuiet(s: GameState, es: seq<Effect>)
    requires forall i :: 0 <= i < |es| ==> !es[i].Grant? && es[i] != Advance
    ensures Play(s, es) == s.(dialogueHistory := Play(s, es).dialogueHistory)
    decreases |es|
  {
    if es != [] {
      PlayQuiet(Step(s, es[0]), es[1..]);
    }
  }

  predicate Advances(es: seq<Effect>)
  {
    exists i :: 0 <= i < |es| && es[i] == Advance
  }

  /** The store after a batch: the stage number never changes; the log gains exactly the said
      messages and the inventory exactly the granted items, in order; the transition flag is
      raised iff some callback advances; the modal shows the last granted item, if any. */
  lemma PlayEffect(s: GameState, es: seq<Effect>)
    ensures var r := Play(s, es);
      && r.currentStage == s.currentStage
      && r.dialogueHistory == s.dialogueHistory + Said(es)
      && r.inventory == s.inventory + Granted(es)
      && r.isTransitioning == (s.isTransitioning || Advances(es))
      && (Granted(es) == [] ==> r.showItemModal == s.showItemModal && r.newItem == s.newItem)
      && (Granted(es) != [] ==> r.showItemModal && r.newItem == Some(Granted(es)[|Granted(es)| - 1]))
  {
    PlayLog(s, es);
    PlayInventory(s, es);
    PlayFlags(s, es);
  }

  lemma {:induction false} PlayLog(s: GameState, es: seq<Effect>)
    ensures Play(s, es).currentStage == s.currentStage
    ensures Play(s, es).dialogueHistory == s.dialogueHistory + Said(es)
    decreases |es|
  {
    if es != [] {
      PlayLog(Step(s, es[0]), es[1..]);
    }
  }

  lemma {:induction false} PlayInventory(s: GameState, es: seq<Effect>)
    ensures Play(s, es).inventory == s.inventory + Granted(es)
    ensures Granted(es) == [] ==> Play(s, es).showItemModal == s.showItemModal && Play(s, es).newItem == s.newItem
    ensures Granted(es) != [] ==> Play(s, es).showItemModal && Play(s, es).newItem == Some(Granted(es)[|Granted(es)| - 1])
    decreases |es|
  {
    if es != [] {
      PlayInventory(Step(s, es[0]), es[1..]);
    }
  }

  lemma {:induction false} PlayFlags(s: GameState, es: seq<Effect>)
    ensures Play(s, es).isTransitioning == (s.isTransitioning || Advances(es))
    decreases |es|
  {
    if es != [] {
      PlayFlags(Step(s, es[0]), es[1..]);
      if Advances(es[1..]) {
        var i :| 0 <= i < |es[1..]| && es[1..][i] == Advance;
        assert es[i + 1] == Advance;
      }
      if Advances(es) && es[0] != Advance {
        var i :| 0 <= i < |es| && es[i] == Advance;
        assert es[1..][i - 1] == Advance;
      }
    }
  }
}

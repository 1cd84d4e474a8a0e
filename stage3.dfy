/** Stage 3: an out-of-office mail that must mention three required keywords. */
module Stage3 {
  import opened Wrappers
  import opened Seqs
  import opened Text
  import opened Items
  import opened GameContext
  import opened Script

  const RequiredKeywords: seq<string> := ["백업", "슬랙", "대응"]

  /** `requiredKeywords.filter(k => !content.includes(k))`: the required keywords the mail
      lacks (case-sensitive), in the order of the required list. */
  function MissingKeywords(content: string): (r: seq<string>)
    ensures IsSubsequence(r, RequiredKeywords)
    ensures forall k :: k in r <==> k in RequiredKeywords && !Contains(content, k)
  {
    var p := (k: string) => !Contains(content, k);
    FilterIsSubsequence(RequiredKeywords, p);
    forall k ensures k in Filter(RequiredKeywords, p) <==> k in RequiredKeywords && p(k) {
      FilterMembership(RequiredKeywords, p, k);
    }
    Filter(RequiredKeywords, p)
  }

  /** A mail passes exactly when it includes every required keyword. */
  lemma PassIffAllPresent(content: string)
    ensures MissingKeywords(content) == [] <==> forall k :: k in RequiredKeywords ==> Contains(content, k)
  {
    var m := MissingKeywords(content);
    if m != [] {
      assert m[0] in m;
    }
  }

  /** The logged copy of a submitted mail. */
  function MailLine(content: string): Message
  {
    UserLine("[메일 작성]\n\n" + content)
  }

  function Bullets(missing: seq<string>): (r: seq<string>)
    ensures |r| == |missing| && forall i :: 0 <= i < |missing| ==> r[i] == "- " + missing[i]
  {
    seq(|missing|, i requires 0 <= i < |missing| => "- " + missing[i])
  }

  function FailFeedback(missing: seq<string>): string
  {
    "음... 필수 요소가 빠졌네요! 😅\n다음 키워드를 포함해주세요:\n" + Join(Bullets(missing), "\n")
  }

  /** The failure feedback lists every missing keyword as a "- k" line. */
  lemma {:induction false} FeedbackListsMissing(missing: seq<string>, k: string)
    requires k in missing
    ensures Contains(FailFeedback(missing), "- " + k)
  {
    var i :| 0 <= i < |missing| && missing[i] == k;
    var joined := Join(Bullets(missing), "\n");
    JoinContainsParts(Bullets(missing), "\n", i);
    var j :| 0 <= j <= |joined| - |"- " + k| && OccursAt(joined, "- " + k, j);
    var head := "음... 필수 요소가 빠졌네요! 😅\n다음 키워드를 포함해주세요:\n";
    assert FailFeedback(missing) == head + joined;
    assert (head + joined)[|head| + j..|head| + j + |"- " + k|] == joined[j..j + |"- " + k|];
    assert OccursAt(head + joined, "- " + k, |head| + j);
  }

  // The NPC lines, in the order the stage says them.
  const IntroDone: string := "프로젝트가 드디어 끝났네요! 수고하셨습니다! 🎉"
  const IntroMail: string := "이제 휴가(오프)를 가실 수 있을 것 같은데요,\n휴가 전에 팀원들에게 부재중 메일을 보내주세요!"
  const IntroRequired: string := "필수 포함 사항:\n- 백업 담당자\n- 연락 방법 (슬랙 등)\n- 긴급 상황 대응 방법"
  const PassPraise: string := "완벽한 부재중 메일이네요! 👍\n모든 필수 요소가 포함되어 있습니다!"
  const PassChecklist: string := "- ✅ 백업 담당자 지정\n- ✅ 연락 방법 명시 (슬랙)\n- ✅ 긴급 상황 대응 방법\n\n완벽해요!"
  const PassReward: string := "이제 판교어 돋보기를 드릴게요! 🔍\n마우스를 올리면 판교어 뜻을 알려줍니다!"
  const PassNext: string := "마지막 단계로 이동합니다!"
  const FailRetry: string := "다시 작성해주세요!"

  /** The callbacks armed on mount: three NPC lines, in order, and only then the form. */
  function IntroScript(): (r: seq<Timed>)
    ensures Ordered(r) && |r| == 4
    ensures forall i :: 0 <= i < 3 ==> r[i].effect.Say? && r[i].effect.msg.sender == Npc
    ensures r[3].effect == ShowPrompt
  {
    [ Timed(500, Say(NpcLine(IntroDone))),
      Timed(2500, Say(NpcLine(IntroMail))),
      Timed(4500, Say(NpcLine(IntroRequired))),
      Timed(6000, ShowPrompt) ]
  }

  /** A passing mail: three feedback lines, the magnifier, a closing line, the advance. */
  function PassScript(): (r: seq<Timed>)
    ensures Ordered(r) && |r| == 6
    ensures forall i :: i in {0, 1, 2, 4} ==> r[i].effect.Say? && r[i].effect.msg.sender == Npc
    ensures r[3].effect == Grant(MAGNIFIER)
    ensures r[5].effect == Advance
  {
    [ Timed(1000, Say(NpcLine(PassPraise))),
      Timed(3000, Say(NpcLine(PassChecklist))),
      Timed(5500, Say(NpcLine(PassReward))),
      Timed(7000, Grant(MAGNIFIER)),
      Timed(8500, Say(NpcLine(PassNext))),
      Timed(10000, Advance) ]
  }

  /** A failing mail: the feedback naming the missing keywords, then a line that re-opens an
      empty form; no item, no advance. */
  function FailScript(missing: seq<string>): (r: seq<Timed>)
    ensures Ordered(r) && |r| == 2
    ensures r[0].effect == Say(NpcLine(FailFeedback(missing)))
    ensures r[1].effect.Retry? && r[1].effect.msg.sender == Npc
    ensures forall i :: 0 <= i < |r| ==> !r[i].effect.Grant? && r[i].effect != Advance
  {
    [ Timed(1000, Say(NpcLine(FailFeedback(missing)))),
      Timed(3000, Retry(NpcLine(FailRetry))) ]
  }

  function Verdict(content: string): seq<Timed>
  {
    var missing := MissingKeywords(content);
    if missing == [] then PassScript() else FailScript(missing)
  }

  /** A passing mail, as store operations in firing order: three NPC lines, the magnifier,
      the closing line, the transition request. Afterwards the magnifier is owned and
      announced and the stage number is still the same. */
  lemma PassOutcome(s: GameState)
    ensures Play(s, Effects(PassScript())) ==
      TransitionStarted(WithDialogue(WithItem(WithDialogue(WithDialogue(WithDialogue(s,
        NpcLine(PassPraise)), NpcLine(PassChecklist)), NpcLine(PassReward)), MAGNIFIER), NpcLine(PassNext)))
    ensures var r := Play(s, Effects(PassScript()));
      && r.inventory == s.inventory + [MAGNIFIER] && r.newItem == Some(MAGNIFIER) && r.showItemModal
      && r.isTransitioning && r.currentStage == s.currentStage
      && r.dialogueHistory == s.dialogueHistory +
        [NpcLine(PassPraise), NpcLine(PassChecklist), NpcLine(PassReward), NpcLine(PassNext)]
  {
    var es := Effects(PassScript());
    assert es[0] == Say(NpcLine(PassPraise)) && es[1] == Say(NpcLine(PassChecklist));
    assert es[2] == Say(NpcLine(PassReward)) && es[3] == Grant(MAGNIFIER);
    assert es[4] == Say(NpcLine(PassNext)) && es[5] == Advance;
    PlaySix(s, es);
    PassFields(s, NpcLine(PassPraise), NpcLine(PassChecklist), NpcLine(PassReward), NpcLine(PassNext));
  }

  lemma PassFields(s: GameState, a: Message, b: Message, c: Message, d: Message)
    ensures var r := TransitionStarted(WithDialogue(WithItem(WithDialogue(WithDialogue(WithDialogue(s, a), b), c), MAGNIFIER), d));
      && r.inventory == s.inventory + [MAGNIFIER] && r.newItem == Some(MAGNIFIER) && r.showItemModal
      && r.isTransitioning && r.currentStage == s.currentStage
      && r.dialogueHistory == s.dialogueHistory + [a, b, c, d]
  {
  }

  /** A failing mail: the feedback naming the missing keywords and the retry line are logged,
      and nothing else in the store changes. */
  lemma FailOutcome(s: GameState, missing: seq<string>)
    ensures Play(s, Effects(FailScript(missing))) ==
      WithDialogue(WithDialogue(s, NpcLine(FailFeedback(missing))), NpcLine(FailRetry))
    ensures var r := Play(s, Effects(FailScript(missing)));
      && r.inventory == s.inventory && r.newItem == s.newItem && r.showItemModal == s.showItemModal
      && r.isTransitioning == s.isTransitioning && r.currentStage == s.currentStage
      && r.dialogueHistory == s.dialogueHistory + [NpcLine(FailFeedback(missing)), NpcLine(FailRetry)]
  {
    var es := Effects(FailScript(missing));
    assert es[0] == Say(NpcLine(FailFeedback(missing))) && es[1] == Retry(NpcLine(FailRetry));
    PlayTwo(s, es);
    FailFields(s, NpcLine(FailFeedback(missing)), NpcLine(FailRetry));
  }

  lemma FailFields(s: GameState, a: Message, b: Message)
    ensures var r := WithDialogue(WithDialogue(s, a), b);
      && r.inventory == s.inventory && r.newItem == s.newItem && r.showItemModal == s.showItemModal
      && r.isTransitioning == s.isTransitioning && r.currentStage == s.currentStage
      && r.dialogueHistory == s.dialogueHistory + [a, b]
  {
  }

  class Controller {
    var showEmailForm: bool
    var emailContent: string
    var submitted: bool

    constructor ()
      ensures !showEmailForm && emailContent == "" && !submitted
    {
      showEmailForm, emailContent, submitted := false, "", false;
    }

    /** The form is rendered iff `showEmailForm && !submitted`. */
    function FormVisible(): bool
      reads this
    {
      showEmailForm && !submitted
    }

    /** The textarea's `onChange`. */
    method Edit(text: string)
      modifies this
      ensures emailContent == text && showEmailForm == old(showEmailForm) && submitted == old(submitted)
    {
      emailContent := text;
    }

    /** `handleSubmit`: ignored when already submitted or when the mail is blank; otherwise the
        mail is logged before any verdict line, the form is hidden and locked, and the verdict
        computed from the missing keywords is armed. */
    method HandleSubmit(game: Session) returns (script: seq<Timed>)
      modifies this, game
      ensures old(submitted) || Blank(old(emailContent)) ==>
        script == [] && unchanged(this) && game.State() == old(game.State())
      ensures !old(submitted) && !Blank(old(emailContent)) ==>
        && game.State() == WithDialogue(old(game.State()), MailLine(old(emailContent)))
        && submitted && !showEmailForm && !FormVisible() && emailContent == old(emailContent)
        && script == Verdict(old(emailContent))
    {
      if submitted || TrimsToEmpty(emailContent) {
        return [];
      }
      var missing := MissingKeywords(emailContent);
      game.AddDialogue(MailLine(emailContent));
      showEmailForm := false;
      submitted := true;
      script := if missing == [] then PassScript() else FailScript(missing);
    }

    /** One armed callback firing; the retry callback unlocks the form and empties it. */
    method Fire(e: Effect, game: Session)
      requires !e.ShowEnding?
      modifies this, game
      ensures game.State() == Step(old(game.State()), e)
      ensures e.ShowPrompt? ==> showEmailForm && submitted == old(submitted) && emailContent == old(emailContent)
      ensures e.Retry? ==> showEmailForm && !submitted && emailContent == "" && FormVisible()
      ensures !e.ShowPrompt? && !e.Retry? ==>
        showEmailForm == old(showEmailForm) && submitted == old(submitted) && emailContent == old(emailContent)
    {
      match e
      case Say(m) => game.AddDialogue(m);
      case Grant(item) => game.AddItemToInventory(item);
      case Advance => game.GoToNextStage();
      case ShowPrompt => showEmailForm := true;
      case Retry(m) =>
        game.AddDialogue(m);
        submitted := false;
        showEmailForm := true;
        emailContent := "";
    }
  }
}

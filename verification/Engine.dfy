/** Context compaction: the engine's in-place edits of its history, each tied to a run of
    the steps in History. */
module Engine {
  import opened Text
  import opened Messages
  import opened History
  import opened StaleResults
  import opened Pinned

  const COMPACT_RESERVE := 16000
  const DEFAULT_CONTEXT_WINDOW := 128000
  const MAX_CALIBRATION := 2.5
  const CALIBRATION_MIN_SAMPLE := 2000

  const SUMMARY_HEADING := "[Summary of earlier conversation]\n"
  const OMITTED_MORE := "\n\n[Additional earlier turns omitted \U{2014} summarization unavailable.]"
  const OMITTED := "[Earlier conversation omitted \U{2014} summarization unavailable.]"

  /** Past the last thing `enforce_budget` can do: no turn left to drop, no string over 256. */
  ghost predicate Irreducible(ms: seq<Message>) {
    && NoOldTurns(ms)
    && (forall slot | IsSlot(ms, slot) :: |SlotText(ms, slot)| <= 256)
  }

  /** What the summary request came back with: a text and the tokens it used, or an error. */
  datatype Reply = Failed | Replied(summary: string, usage: nat)

  /** Scan back over the tail, remembering the user turns passed. */
  method FindCut(ms: seq<Message>, keep: nat) returns (cut: nat)
    ensures IsCut(ms, keep, cut)
  {
    var acc := 0;
    cut := |ms|;
    var i := |ms|;
    while i > 1
      invariant 0 <= i <= |ms| && (1 <= i || ms == [])
      invariant acc == Estimate(ms[i..])
      invariant cut == |ms| || (UserAt(ms, cut) && i <= cut)
      invariant forall u: nat | UserAt(ms, u) && i <= u :: cut <= u && Estimate(ms[u..]) < keep
    {
      i := i - 1;
      EstimateStep(ms, i);
      acc := EstimateMessage(ms[i]) + acc;
      if IsUser(ms[i]) {
        cut := i;
        assert UserAt(ms, i);
        if acc >= keep { return; }
      }
    }
  }

  lemma CutOfAlike(ms: seq<Message>, after: seq<Message>, keep: nat, cut: nat)
    requires IsCut(ms, keep, cut) && |after| == |ms|
    requires forall i: nat :: UserAt(after, i) == UserAt(ms, i)
    requires forall i: nat | cut <= i <= |ms| :: Estimate(after[i..]) == Estimate(ms[i..])
    ensures IsCut(after, keep, cut)
  {
    hide UserAt, Estimate;
    CutInRange(ms, keep, cut);
    forall i: nat ensures UserAt(ms, i) ==> i < |ms| { UserInRange(ms, i); }
    forall i: nat | UserAt(ms, i) && cut < i ensures Estimate(after[i..]) < keep {
      assert Estimate(ms[i..]) < keep;
    }
  }

  lemma UserInRange(ms: seq<Message>, i: nat)
    ensures UserAt(ms, i) ==> i < |ms|
  {
  }

  lemma CutSurvivesClearing(ms: seq<Message>, keep: nat, cut: nat)
    requires IsCut(ms, keep, cut)
    ensures IsCut(ClearStale(ms, cut), keep, cut)
  {
    hide IsCut, ClearMessage, Estimate;
    var after := ClearStale(ms, cut);
    ClearingKeepsUsers(ms, cut);
    forall i: nat | cut <= i <= |ms| ensures Estimate(after[i..]) == Estimate(ms[i..]) {
      assert after[i..] == ms[i..];
    }
    CutOfAlike(ms, after, keep, cut);
  }

  class AgentEngine {
    var messages: seq<Message>
    var checkpoints: seq<Checkpoint>
    var lastSummary: Option<string>
    var contextWindow: nat
    var calibration: real
    var plan: string
    var notes: seq<Note>
    var touchedFiles: seq<string>

    constructor (messages: seq<Message>, contextWindow: nat)
      ensures Now() == Chat(messages, []) && this.contextWindow == contextWindow
      ensures lastSummary == None && ValidCalibration()
    {
      this.messages := messages;
      this.contextWindow := contextWindow;
      checkpoints, lastSummary, calibration := [], None, 1.0;
      plan, notes, touchedFiles := "", [], [];
    }

    function Now(): Chat
      reads this
    {
      Chat(messages, checkpoints)
    }

    /** What the provider and `/rewind` need of the history. */
    ghost predicate Healthy()
      reads this
    {
      Sendable(Outlines(messages)) && CheckpointsInRange(Now())
    }

    // ---- budget ----

    predicate ValidCalibration()
      reads this
    {
      1.0 <= calibration <= MAX_CALIBRATION
    }

    function CompactionWindow(): nat
      reads this
    {
      if contextWindow == 0 then DEFAULT_CONTEXT_WINDOW else contextWindow
    }

    function UsableWindow(): nat
      reads this
    {
      if CompactionWindow() >= COMPACT_RESERVE then CompactionWindow() - COMPACT_RESERVE else 0
    }

    /** An estimate within this budget, scaled by the calibration, fits the window less
        the reserve, and no larger budget would do. */
    function CompactionBudget(): (budget: nat)
      requires ValidCalibration()
      reads this
      ensures var window := if contextWindow == 0 then 128000 else contextWindow;
        var usable := if window > 16000 then window - 16000 else 0;
        forall e: nat :: FitsWindow(usable, calibration, e) <==> e <= budget
    {
      FloorOfQuotient(UsableWindow(), calibration);
      (UsableWindow() as real / calibration).Floor
    }

    method UpdateCalibration(sentEstimate: nat, measuredTotal: nat)
      requires ValidCalibration()
      modifies this`calibration
      ensures ValidCalibration()
      ensures sentEstimate < 2000 || measuredTotal == 0 ==> calibration == old(calibration)
      ensures sentEstimate >= 2000 && measuredTotal > 0 ==>
        var ratio := CalibrationRatio(measuredTotal, sentEstimate);
        if ratio > old(calibration) then calibration == ratio
        else calibration == old(calibration) - 0.2 * (old(calibration) - ratio) && ratio <= calibration <= old(calibration)
    {
      if sentEstimate < CALIBRATION_MIN_SAMPLE || measuredTotal == 0 { return; }
      var ratio := CalibrationRatio(measuredTotal, sentEstimate);
      calibration := if ratio > calibration then ratio else 0.8 * calibration + 0.2 * ratio;
    }

    method RecalibrateFromOverflow(actual: Option<nat>)
      requires ValidCalibration()
      modifies this`calibration
      ensures ValidCalibration() && calibration >= old(calibration)
      ensures actual.Some? && Estimate(messages) >= 2000 ==>
        calibration >= CalibrationRatio(actual.value, Estimate(messages))
        && (calibration == old(calibration) || calibration == CalibrationRatio(actual.value, Estimate(messages)))
      ensures actual.None? || Estimate(messages) < 2000 ==>
        calibration == if old(calibration) * 1.2 < 2.5 then old(calibration) * 1.2 else 2.5
    {
      var estimate := Estimate(messages);
      if actual.Some? && estimate >= CALIBRATION_MIN_SAMPLE {
        var ratio := CalibrationRatio(actual.value, estimate);
        calibration := if ratio > calibration then ratio else calibration;
      } else {
        calibration := if calibration * 1.2 < MAX_CALIBRATION then calibration * 1.2 else MAX_CALIBRATION;
      }
    }

    // ---- edits ----

    method ClearStaleToolResults(cut: nat) returns (ghost t: Trace)
      modifies this`messages
      ensures messages == ClearStale(old(messages), cut)
      ensures RunsTo(old(Now()), t, Now()) && t.steps == [ClearTo(cut)]
    {
      ghost var before := Now();
      if 1 <= cut <= |messages| {
        for i := 1 to cut
          invariant |messages| == |before.messages|
          invariant forall k | 0 <= k < |messages| ::
            messages[k] == if 1 <= k < i then ClearMessage(before.messages[k]) else before.messages[k]
        {
          var m := messages[i];
          if m.role == "tool" && m.content.Text? && Utf8Len(m.content.text) > CLEAR_MIN {
            messages := messages[i := m.(content := Text(ClearedText(m.content.text)))];
          }
        }
      }
      assert messages == ClearStale(before.messages, cut);
      t := Then(Idle(before), ClearTo(cut), Now());
    }

    method RebaseCheckpoints(cut: nat, removed: nat)
      requires removed <= cut
      modifies this`checkpoints
      ensures checkpoints == Rebase(old(checkpoints), cut, removed)
    {
      var all, i := checkpoints, 0;
      checkpoints := [];
      while i < |all|
        invariant i <= |all|
        invariant checkpoints + Rebase(all[i..], cut, removed) == Rebase(all, cut, removed)
      {
        var c := all[i];
        assert all[i..][1..] == all[i + 1..];
        if c.msgIndex >= cut {
          checkpoints := checkpoints + [c.(msgIndex := c.msgIndex - removed)];
        }
        i := i + 1;
      }
    }

    function MechanicalSummary(): string
      reads this
    {
      match lastSummary
      case Some(prev) => prev + OMITTED_MORE
      case None => OMITTED
    }

    /** The text folded in: the summary and, behind it, the pinned working set. */
    function FoldText(summary: string): string
      reads this
    {
      var pinned := PinnedBlock(plan, notes, touchedFiles);
      SUMMARY_HEADING + summary + (if pinned == "" then "" else "\n\n" + pinned)
    }

    /** What is folded in starts with the heading and the summary and ends with the working set;
        the marker that stands in for a summary keeps any running one. */
    lemma FoldTextHoldsAll(summary: string)
      ensures SUMMARY_HEADING + summary <= FoldText(summary)
      ensures EndsWith(FoldText(summary), PinnedBlock(plan, notes, touchedFiles))
      ensures MechanicalSummary() != "" && (lastSummary.Some? ==> lastSummary.value <= MechanicalSummary())
    {
      hide PinnedBlock;
      var pinned := PinnedBlock(plan, notes, touchedFiles);
      var text := FoldText(summary);
      assert text[|text| - |pinned|..] == pinned;
    }

    method ComposeFold(summary: string) returns (folded: string)
      ensures folded == FoldText(summary)
    {
      folded := SUMMARY_HEADING + summary;
      var pinned := RenderPinnedBlock(plan, notes, touchedFiles);
      if pinned != "" {
        folded := folded + "\n\n";
        folded := folded + pinned;
        ConcatAssoc(SUMMARY_HEADING + summary, "\n\n", pinned);
      }
    }

    method ApplyCompaction(cut: nat, summary: string)
      requires 1 <= cut <= |messages|
      modifies this`messages, this`checkpoints
      ensures Now() == FoldAt(old(Now()), cut, old(FoldText(summary)))
    {
      var folded := ComposeFold(summary);
      FoldIn(cut, folded);
    }

    method FoldIn(cut: nat, folded: string)
      requires 1 <= cut <= |messages|
      modifies this`messages, this`checkpoints
      ensures Now() == FoldAt(old(Now()), cut, folded)
    {
      if cut < |messages| && IsUser(messages[cut]) {
        var original := if messages[cut].content.Text? then messages[cut].content.text else "";
        var text := if original == "" then folded else folded + "\n\n" + original;
        messages := messages[cut := messages[cut].(content := Text(text))];
        messages := [messages[0]] + messages[cut..];
        RebaseCheckpoints(cut, cut - 1);
      } else {
        messages := messages[..1] + [SummaryTurn(folded)] + messages[cut..];
        RebaseCheckpoints(cut, if cut >= 2 then cut - 2 else 0);
      }
    }

    /** Drop whole turns at user boundaries, then halve the largest string left, until the
        estimate fits or nothing is left to cut. Each step is taken only while over budget;
        turns are dropped at most once and only first; the halving loop's guard against a
        string that does not shrink never stops it. */
    method EnforceBudget(budget: nat) returns (ghost t: Trace)
      modifies this`messages, this`checkpoints
      ensures TrimRun(old(Now()), t, Now(), budget)
      ensures Estimate(messages) <= budget || Irreducible(messages)
    {
      ghost var before := Now();
      t := DropOldTurns(budget);
      t := ShrinkStrings(budget, before, t);
    }

    method DropOldTurns(budget: nat) returns (ghost t: Trace)
      modifies this`messages, this`checkpoints
      ensures TrimRun(old(Now()), t, Now(), budget)
      ensures Estimate(messages) <= budget || NoOldTurns(messages)
    {
      ghost var before := Now();
      t := Idle(before);
      while Estimate(messages) > budget
        invariant TrimRun(before, t, Now(), budget)
        invariant t.steps == [] || OneTurnLeft(messages)
        decreases |messages|
      {
        var cut;
        cut, t := FindDrop(budget, before, t);
        if cut <= 1 { break; }
        messages := [messages[0]] + messages[cut..];
        RebaseCheckpoints(cut, cut - 1);
      }
    }

    method FindDrop(budget: nat, ghost before: Chat, ghost t: Trace) returns (cut: nat, ghost r: Trace)
      requires TrimRun(before, t, Now(), budget) && Estimate(messages) > budget
      requires t.steps == [] || OneTurnLeft(messages)
      ensures cut <= 1 ==> r == t && NoOldTurns(messages)
      ensures 1 < cut ==> cut <= |messages| && OneTurnLeft(DropTo(Now(), cut).messages)
      ensures 1 < cut ==> TrimRun(before, r, DropTo(Now(), cut), budget)
    {
      cut := FindCut(messages, 0);
      r := t;
      if cut <= 1 {
        NoCutLeft(messages, cut);
      } else {
        r := DropStep(before, t, Now(), budget, cut);
      }
    }

    method ShrinkStrings(budget: nat, ghost before: Chat, ghost t0: Trace) returns (ghost t: Trace)
      requires TrimRun(before, t0, Now(), budget)
      requires Estimate(messages) <= budget || NoOldTurns(messages)
      modifies this`messages
      ensures TrimRun(before, t, Now(), budget)
      ensures Estimate(messages) <= budget || Irreducible(messages)
    {
      t := t0;
      while Estimate(messages) > budget
        invariant TrimRun(before, t, Now(), budget)
        invariant Estimate(messages) <= budget || NoOldTurns(messages)
        decreases Volume(messages)
      {
        var pick := LargestSlot(messages);
        if pick.None? { break; }
        var slot := pick.value;
        var current := SlotText(messages, slot);
        HalvingShrinks(current);
        if Utf8Len(Truncate(current, |current| / 2)) >= Utf8Len(current) { break; }
        ShorteningShrinks(messages, slot);
        t := ShortenStep(before, t, Now(), budget, slot);
        messages := ShortenSlot(messages, slot);
      }
    }

    /** Deterministic recovery, without a model call: clear, fold a marker in, then trim. */
    method ForceFitBudget(keep: nat) returns (ghost t: Trace)
      requires ValidCalibration()
      modifies this`messages, this`checkpoints
      ensures RunsTo(old(Now()), t, Now())
      ensures Estimate(messages) <= old(CompactionBudget()) || Irreducible(messages)
      ensures forall cut: nat | IsPickedCut(old(messages), keep, cut) ::
        RecoverySteps(old(Now()), t, cut, old(CompactionBudget()), old(FoldText(MechanicalSummary())))
      ensures old(Healthy()) ==> Healthy()
    {
      hide Irreducible, Estimate, IsSomeCut, IsPickedCut, OnlyTrims, IsRun, UserAt, CompactionBudget, RecoverySteps, TrimsAfter;
      hide FoldText, MechanicalSummary;
      ghost var before, folded := Now(), FoldText(MechanicalSummary());
      var budget := CompactionBudget();
      var cut := PickCut(keep);
      ghost var first := ClearAndFold(cut);
      ghost var rest := EnforceBudget(budget);
      t := Joined(first, rest);
      JoinedTrims(first, rest, t, budget);
      RecoveryJoined(before, t, cut, budget, folded, first.steps);
      RunStaysHealthy(before, t, Now());
    }

    method ClearAndFold(cut: nat) returns (ghost t: Trace)
      requires IsSomeCut(messages, cut)
      modifies this`messages, this`checkpoints
      ensures RunsTo(old(Now()), t, Now())
      ensures t.steps == if 1 < cut && UserAt(old(messages), cut)
        then [ClearTo(cut), Fold(cut, old(FoldText(MechanicalSummary())))] else [ClearTo(cut)]
    {
      hide IsSomeCut, ClearStale;
      ghost var before := messages;
      t := ClearStaleToolResults(cut);
      CutSurvivesClearingSome(before, cut);
      ClearingKeepsUsers(before, cut);
      assert UserAt(messages, cut) <==> UserAt(before, cut);
      if cut > 1 && cut < |messages| && IsUser(messages[cut]) {
        ghost var folded := FoldMarker(cut);
        t := Joined(t, folded);
      }
    }

    method FoldMarker(cut: nat) returns (ghost t: Trace)
      requires 1 < cut < |messages| && IsSomeCut(messages, cut)
      modifies this`messages, this`checkpoints
      ensures RunsTo(old(Now()), t, Now())
      ensures t.steps == [Fold(cut, old(FoldText(MechanicalSummary())))]
    {
      t := Idle(Now());
      ghost var text := FoldText(MechanicalSummary());
      var note := MechanicalSummary();
      ApplyCompaction(cut, note);
      t := Then(t, Fold(cut, text), Now());
    }

    /** The recent window's cut, or the latest user turn when there is nothing before it. */
    method PickCut(keep: nat) returns (cut: nat)
      ensures IsPickedCut(messages, keep, cut) && IsSomeCut(messages, cut)
      ensures forall c | IsPickedCut(messages, keep, c) :: c == cut
    {
      cut := FindCut(messages, keep);
      ghost var recent := cut;
      if cut <= 1 { cut := FindCut(messages, 0); }
      PickedCutIsUnique(messages, keep, recent, cut);
    }

    /** Fold `messages[1..cut]` into a summary; a failed or blank reply folds the marker. */
    method SummarizeRange(cut: nat, reply: Reply) returns (tokens: nat, ghost t: Trace)
      requires IsSomeCut(messages, cut)
      modifies this`messages, this`checkpoints, this`lastSummary
      ensures RunsTo(old(Now()), t, Now())
      ensures cut <= 1 ==> t.steps == [] && Now() == old(Now())
      ensures 1 < cut ==> t.steps == [Fold(cut, old(FoldText(SummaryFor(reply))))]
      ensures lastSummary == if 1 < cut && UsableReply(reply) then Some(reply.summary) else old(lastSummary)
      ensures tokens == if 1 < cut && reply.Replied? then reply.usage else 0
    {
      t := Idle(Now());
      tokens := 0;
      if cut <= 1 { return; }
      ghost var text := FoldText(SummaryFor(reply));
      CutInRangeSome(messages, cut);
      if reply.Replied? && Trim(reply.summary) != "" {
        ApplyCompaction(cut, reply.summary);
        lastSummary := Some(reply.summary);
      } else {
        var note := MechanicalSummary();
        ApplyCompaction(cut, note);
      }
      tokens := if reply.Replied? then reply.usage else 0;
      t := Then(t, Fold(cut, text), Now());
    }

    function SummaryFor(reply: Reply): string
      reads this
    {
      if UsableReply(reply) then reply.summary else MechanicalSummary()
    }

    /** Compact when the estimate is over budget: clear old tool output if that alone is
        enough, else summarize and trim. The history then fits or cannot be cut further,
        unless a result it cleared is one that grows. */
    method MaybeCompact(keep: nat, reply: Reply) returns (tokens: nat, ghost t: Trace)
      requires ValidCalibration()
      modifies this`messages, this`checkpoints, this`lastSummary
      ensures RunsTo(old(Now()), t, Now())
      ensures old(Estimate(messages)) <= old(CompactionBudget()) ==> t.steps == []
      ensures Estimate(messages) <= old(CompactionBudget()) || Irreducible(messages)
        || (|t.steps| == 1 && t.steps[0].ClearTo? && SomeResultGrows(old(messages), t.steps[0].cut))
      ensures old(Estimate(messages)) <= old(CompactionBudget()) ==> tokens == 0 && lastSummary == old(lastSummary)
      ensures forall cut: nat | old(Estimate(messages)) > old(CompactionBudget()) && IsPickedCut(old(messages), keep, cut) ::
        var budget, asked := old(CompactionBudget()), Summarizes(old(messages), cut, old(CompactionBudget()));
        && CompactionSteps(old(Now()), t, cut, budget, old(FoldText(SummaryFor(reply))))
        && tokens == (if asked && reply.Replied? then reply.usage else 0)
        && lastSummary == if asked && UsableReply(reply) then Some(reply.summary) else old(lastSummary)
      ensures old(Healthy()) ==> Healthy()
    {
      hide SomeResultGrows, Irreducible, StaleSavings, Estimate, IsSomeCut, IsPickedCut, OnlyTrims, UsableReply;
      ghost var before := Now();
      var budget := CompactionBudget();
      var total := Estimate(messages);
      t := Idle(before);
      tokens := 0;
      if total <= budget { return; }
      var cut := PickCut(keep);
      var savings := StaleSavings(messages, cut);
      if savings > 0 && (if total >= savings then total - savings else 0) <= budget {
        t := ClearStaleToolResults(cut);
        if !SomeResultGrows(before.messages, cut) { StaleSavingsAreCovered(before.messages, cut); }
      } else {
        ghost var first;
        tokens, first := SummarizeRange(cut, reply);
        ghost var rest := EnforceBudget(budget);
        t := Joined(first, rest);
        JoinedTrims(first, rest, t, budget);
      }
      RunStaysHealthy(before, t, Now());
    }

    /** Manual compaction: summarize older turns whatever the budget, or clear old output. */
    method CompactNow(keep: nat, reply: Reply) returns (tokens: nat, ghost t: Trace)
      modifies this`messages, this`checkpoints, this`lastSummary
      ensures RunsTo(old(Now()), t, Now())
      ensures forall cut: nat | IsCut(old(messages), keep, cut) ::
        && t.steps == [if 1 < cut then Fold(cut, old(FoldText(SummaryFor(reply)))) else ClearTo(cut)]
        && tokens == (if 1 < cut && reply.Replied? then reply.usage else 0)
        && lastSummary == if 1 < cut && UsableReply(reply) then Some(reply.summary) else old(lastSummary)
      ensures old(Healthy()) ==> Healthy()
    {
      ghost var before := Now();
      var cut := FindCut(messages, keep);
      forall c | IsCut(messages, keep, c) ensures c == cut { CutIsUnique(messages, keep, c, cut); }
      tokens := 0;
      if cut > 1 {
        tokens, t := SummarizeRange(cut, reply);
      } else {
        t := ClearStaleToolResults(cut);
      }
      RunStaysHealthy(before, t, Now());
    }
  }

  predicate UsableReply(reply: Reply) {
    reply.Replied? && Trim(reply.summary) != ""
  }

  /** The cut of the recent window, unless nothing lies before it: then the latest user turn. */
  ghost predicate IsPickedCut(ms: seq<Message>, keep: nat, cut: nat) {
    exists recent: nat :: IsCut(ms, keep, recent) && if recent <= 1 then IsCut(ms, 0, cut) else cut == recent
  }

  lemma PickedCutIsUnique(ms: seq<Message>, keep: nat, recent: nat, cut: nat)
    requires IsCut(ms, keep, recent) && if recent <= 1 then IsCut(ms, 0, cut) else cut == recent
    ensures IsPickedCut(ms, keep, cut) && forall c | IsPickedCut(ms, keep, c) :: c == cut
  {
    hide IsCut;
    forall c | IsPickedCut(ms, keep, c) ensures c == cut {
      var r: nat :| IsCut(ms, keep, r) && if r <= 1 then IsCut(ms, 0, c) else c == r;
      CutIsUnique(ms, keep, r, recent);
      if recent <= 1 { CutIsUnique(ms, 0, c, cut); }
    }
  }

  /** A run that goes on as a trim run once `n` steps are made. */
  ghost predicate TrimsAfter(t: Trace, n: nat, budget: nat) {
    n <= |t.steps| && |t.states| == |t.steps| + 1 && OnlyTrims(t.states[n..], t.steps[n..], budget)
  }

  lemma JoinedTrims(a: Trace, b: Trace, t: Trace, budget: nat)
    requires IsRun(a) && IsRun(b) && a.states[|a.steps|] == b.states[0] && t == Joined(a, b)
    requires OnlyTrims(b.states, b.steps, budget)
    ensures TrimsAfter(t, |a.steps|, budget) && t.steps[..|a.steps|] == a.steps
  {
    hide OnlyTrims, Takes, Joined;
    JoinedTails(a, b, t);
  }

  lemma JoinedTails(a: Trace, b: Trace, t: Trace)
    requires |a.states| == |a.steps| + 1 && |b.states| == |b.steps| + 1 && a.states[|a.steps|] == b.states[0]
    requires t.steps == a.steps + b.steps && t.states == a.states + b.states[1..]
    ensures t.states[|a.steps|..] == b.states && t.steps[|a.steps|..] == b.steps && t.steps[..|a.steps|] == a.steps
    ensures |t.states| == |t.steps| + 1
  {
  }

  /** The steps of a compaction over budget: clear when the savings suffice, else fold when
      there is something to fold and then only trim. */
  ghost predicate CompactionSteps(before: Chat, t: Trace, cut: nat, budget: nat, folded: string) {
    var saved := StaleSavings(before.messages, cut);
    if 0 < saved && Estimate(before.messages) - saved <= budget then t.steps == [ClearTo(cut)]
    else if 1 < cut then t.steps != [] && t.steps[0] == Fold(cut, folded) && TrimsAfter(t, 1, budget)
    else TrimsAfter(t, 0, budget)
  }

  /** Whether a compaction over budget asks for a summary. */
  predicate Summarizes(ms: seq<Message>, cut: nat, budget: nat) {
    1 < cut && !(0 < StaleSavings(ms, cut) && Estimate(ms) - StaleSavings(ms, cut) <= budget)
  }

  /** The steps of the model-free recovery: clear, fold the marker onto a user turn past 1, trim. */
  ghost predicate RecoverySteps(before: Chat, t: Trace, cut: nat, budget: nat, folded: string) {
    if 1 < cut && UserAt(before.messages, cut)
    then |t.steps| >= 2 && t.steps[0] == ClearTo(cut) && t.steps[1] == Fold(cut, folded) && TrimsAfter(t, 2, budget)
    else t.steps != [] && t.steps[0] == ClearTo(cut) && TrimsAfter(t, 1, budget)
  }

  ghost predicate IsSomeCut(ms: seq<Message>, cut: nat) {
    exists keep: nat :: IsCut(ms, keep, cut)
  }

  lemma RecoveryJoined(before: Chat, t: Trace, cut: nat, budget: nat, folded: string, first: seq<Step>)
    requires first == if 1 < cut && UserAt(before.messages, cut) then [ClearTo(cut), Fold(cut, folded)] else [ClearTo(cut)]
    requires TrimsAfter(t, |first|, budget) && t.steps[..|first|] == first
    ensures RecoverySteps(before, t, cut, budget, folded)
  {
    hide OnlyTrims;
    assert t.steps[0] == first[0];
    assert |first| == 2 ==> t.steps[1] == first[1];
  }

  lemma ClearingKeepsUsers(ms: seq<Message>, cut: nat)
    ensures forall i: nat :: UserAt(ClearStale(ms, cut), i) <==> UserAt(ms, i)
  {
  }

  lemma CutInRangeSome(ms: seq<Message>, cut: nat)
    requires IsSomeCut(ms, cut)
    ensures cut <= |ms|
  {
  }

  lemma CutSurvivesClearingSome(ms: seq<Message>, cut: nat)
    requires IsSomeCut(ms, cut)
    ensures IsSomeCut(ClearStale(ms, cut), cut)
  {
    var keep: nat :| IsCut(ms, keep, cut);
    CutSurvivesClearing(ms, keep, cut);
  }

  lemma RunStaysHealthy(before: Chat, t: Trace, now: Chat)
    requires RunsTo(before, t, now)
    ensures Sendable(Outlines(before.messages)) && CheckpointsInRange(before) ==>
      Sendable(Outlines(now.messages)) && CheckpointsInRange(now)
  {
    if Sendable(Outlines(before.messages)) && CheckpointsInRange(before) {
      RunStaysSendable(t, |t.steps|);
      var cut, shift := RunMoves(t, |t.steps|, 0);
    }
  }

  ghost predicate NoOldTurns(ms: seq<Message>) {
    forall i: nat | UserAt(ms, i) :: i <= 1
  }

  ghost predicate OneTurnLeft(ms: seq<Message>) {
    |ms| <= 1 || (UserAt(ms, 1) && NoOldTurns(ms))
  }

  /** A step `enforce_budget` takes: over budget, at the latest user turn or on a largest string. */
  ghost predicate TrimsWhileOver(ms: seq<Message>, step: Step, budget: nat) {
    Estimate(ms) > budget &&
    match step
    case Drop(_) => true
    case Shorten(slot) => NoOldTurns(ms) && LargestSlot(ms) == Some(slot)
    case _ => false
  }

  /** Only such steps, with turns dropped at most once, and first. */
  ghost predicate OnlyTrims(states: seq<Chat>, steps: seq<Step>, budget: nat)
    requires |steps| <= |states|
  {
    forall k {:trigger steps[k]} | 0 <= k < |steps| ::
      TrimsWhileOver(states[k].messages, steps[k], budget) && (steps[k].Drop? ==> k == 0)
  }

  ghost predicate TrimRun(before: Chat, t: Trace, now: Chat, budget: nat) {
    RunsTo(before, t, now) && OnlyTrims(t.states, t.steps, budget)
  }

  lemma OnlyTrimsThen(states: seq<Chat>, steps: seq<Step>, budget: nat, step: Step, after: Chat)
    requires |states| == |steps| + 1 && OnlyTrims(states, steps, budget)
    requires TrimsWhileOver(states[|steps|].messages, step, budget) && (step.Drop? ==> steps == [])
    ensures OnlyTrims(states + [after], steps + [step], budget)
  {
  }

  /** With one turn left there is no further cut past it. */
  lemma OneTurnIsNotDropped(ms: seq<Message>, cut: nat)
    requires IsCut(ms, 0, cut)
    ensures OneTurnLeft(ms) ==> cut <= 1
  {
    CutInRange(ms, 0, cut);
  }

  lemma DropStep(before: Chat, t: Trace, now: Chat, budget: nat, cut: nat) returns (r: Trace)
    requires TrimRun(before, t, now, budget) && Estimate(now.messages) > budget
    requires IsCut(now.messages, 0, cut) && 1 < cut
    requires t.steps == [] || OneTurnLeft(now.messages)
    ensures cut <= |now.messages| && TrimRun(before, r, DropTo(now, cut), budget)
    ensures OneTurnLeft(DropTo(now, cut).messages)
  {
    CutInRange(now.messages, 0, cut);
    OneTurnIsNotDropped(now.messages, cut);
    DropLeavesOneTurn(now.messages, cut);
    assert Takes(now, Drop(cut), DropTo(now, cut)) && TrimsWhileOver(now.messages, Drop(cut), budget);
    hide Takes, TrimsWhileOver, OneTurnLeft, IsCut, DropTo;
    r := Then(t, Drop(cut), DropTo(now, cut));
    OnlyTrimsThen(t.states, t.steps, budget, Drop(cut), DropTo(now, cut));
  }

  lemma ShortenStep(before: Chat, t: Trace, now: Chat, budget: nat, slot: Slot) returns (r: Trace)
    requires TrimRun(before, t, now, budget) && Estimate(now.messages) > budget
    requires NoOldTurns(now.messages) && LargestSlot(now.messages) == Some(slot)
    ensures TrimRun(before, r, now.(messages := ShortenSlot(now.messages, slot)), budget)
    ensures NoOldTurns(ShortenSlot(now.messages, slot))
  {
    var after := now.(messages := ShortenSlot(now.messages, slot));
    r := Then(t, Shorten(slot), after);
    OnlyTrimsThen(t.states, t.steps, budget, Shorten(slot), after);
    ShorteningAddsNoTurns(now.messages, slot);
  }

  lemma ShorteningAddsNoTurns(ms: seq<Message>, slot: Slot)
    requires IsSlot(ms, slot) && NoOldTurns(ms)
    ensures NoOldTurns(ShortenSlot(ms, slot))
  {
    assert forall i: nat :: UserAt(ShortenSlot(ms, slot), i) == UserAt(ms, i);
  }

  /** Where the cut for a budget of nothing is not past 1, there is no old turn. */
  lemma NoCutLeft(ms: seq<Message>, cut: nat)
    requires cut <= 1 && IsCut(ms, 0, cut)
    ensures NoOldTurns(ms)
  {
  }

  lemma DropLeavesOneTurn(ms: seq<Message>, cut: nat)
    requires IsCut(ms, 0, cut) && 1 <= cut <= |ms|
    ensures OneTurnLeft([ms[0]] + ms[cut..])
  {
    var after := [ms[0]] + ms[cut..];
    forall i: nat | UserAt(after, i) ensures i <= 1 {
      assert UserAt(ms, i + cut - 1);
    }
  }

  /** The real size behind an estimate is the estimate times the calibration. */
  predicate FitsWindow(window: nat, calibration: real, e: nat) {
    e as real * calibration <= window as real
  }

  lemma FloorOfQuotient(window: nat, calibration: real)
    requires calibration >= 1.0
    ensures (window as real / calibration).Floor >= 0
    ensures forall e: nat :: FitsWindow(window, calibration, e) <==> e <= (window as real / calibration).Floor
  {
    var q := window as real / calibration;
    assert q * calibration == window as real;
    forall e: nat ensures FitsWindow(window, calibration, e) <==> e <= q.Floor {
      if e as real <= q {
        assert e as real * calibration <= q * calibration;
      } else {
        assert e as real * calibration > q * calibration;
      }
    }
  }

  /** The ratio, times the estimate, is the measured size, but for its bounds. */
  lemma CalibrationCoversMeasured(measured: nat, estimate: nat)
    requires estimate > 0
    ensures var r := CalibrationRatio(measured, estimate);
      && (r == 2.5 || r * estimate as real >= measured as real)
      && (r == 1.0 || r * estimate as real <= measured as real)
  {
    var ratio := measured as real / estimate as real;
    assert ratio * estimate as real == measured as real;
    if ratio < 1.0 { assert 1.0 * estimate as real == estimate as real; }
  }

  function CalibrationRatio(measured: nat, estimate: nat): (r: real)
    ensures 1.0 <= r <= MAX_CALIBRATION
  {
    var ratio := measured as real / (if estimate == 0 then 1 else estimate) as real;
    if ratio < 1.0 then 1.0 else if ratio > MAX_CALIBRATION then MAX_CALIBRATION else ratio
  }
}

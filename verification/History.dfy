/** A chat history with its `/rewind` checkpoints, the four edits compaction makes to
    it, and what every run of those edits keeps. */
module History {
  import opened Text
  import opened Messages

  /** `prompt` stands for the checkpoint's payload, which no edit touches. */
  datatype Checkpoint = Checkpoint(msgIndex: nat, prompt: string)

  datatype Chat = Chat(messages: seq<Message>, checkpoints: seq<Checkpoint>)

  // ---- where a history may be cut ----

  predicate UserAt(ms: seq<Message>, i: nat) {
    1 <= i < |ms| && IsUser(ms[i])
  }

  /** `cut` is the latest user turn whose tail holds `keep` tokens; failing that the
      earliest user turn; failing that the end. Message 0 is never a candidate. */
  ghost predicate IsCut(ms: seq<Message>, keep: nat, cut: nat) {
    if exists i: nat :: UserAt(ms, i) then
      UserAt(ms, cut)
      && (forall i: nat | UserAt(ms, i) && cut < i :: Estimate(ms[i..]) < keep)
      && (Estimate(ms[cut..]) >= keep || forall i: nat | UserAt(ms, i) :: cut <= i)
    else cut == |ms|
  }

  lemma CutIsUnique(ms: seq<Message>, keep: nat, a: nat, b: nat)
    requires IsCut(ms, keep, a) && IsCut(ms, keep, b)
    ensures a == b
  {
  }

  // ---- the edits ----

  const STUB_HEAD := "[earlier tool output"
  const STUB_TAIL := " cleared to save context]"

  /** The stub, built so that the verifier does not unroll it character by character. */
  function Stub(): (s: string)
    ensures |s| == |STUB_HEAD| + |STUB_TAIL|
    ensures forall k :: 0 <= k < |s| ==> s[k] == if k < |STUB_HEAD| then STUB_HEAD[k] else STUB_TAIL[k - |STUB_HEAD|]
  {
    var text := STUB_HEAD + STUB_TAIL;
    seq(|text|, i requires 0 <= i < |text| => text[i])
  }

  const CLEAR_MIN := 1000
  const POINTER_PREFIX := "[full report saved: "

  function LastStartingWith(lines: seq<string>, prefix: string): (r: Option<string>)
    ensures r.Some? ==> r.value in lines && prefix <= r.value
    ensures r.None? <==> forall l :: l in lines ==> !(prefix <= l)
  {
    if lines == [] then None
    else if prefix <= lines[|lines| - 1] then Some(lines[|lines| - 1])
    else assert lines == lines[..|lines| - 1] + [lines[|lines| - 1]]; LastStartingWith(lines[..|lines| - 1], prefix)
  }

  lemma {:induction false} NoneStartsLater(lines: seq<string>, prefix: string) returns (k: nat)
    requires LastStartingWith(lines, prefix).Some?
    ensures k < |lines| && lines[k] == LastStartingWith(lines, prefix).value
    ensures forall j | k < j < |lines| :: !(prefix <= lines[j])
  {
    var n := |lines| - 1;
    if prefix <= lines[n] { k := n; } else { k := NoneStartsLater(lines[..n], prefix); }
  }

  function PointerLine(content: string): Option<string> {
    LastStartingWith(Lines(content), POINTER_PREFIX)
  }

  function ClearedText(content: string): string {
    match PointerLine(content)
    case Some(p) => Stub() + "\n" + p
    case None => Stub()
  }

  predicate IsBulkyResult(m: Message) {
    m.role == "tool" && m.content.Text? && Utf8Len(m.content.text) > CLEAR_MIN
  }

  function ClearMessage(m: Message): Message {
    if IsBulkyResult(m) then m.(content := Text(ClearedText(m.content.text))) else m
  }

  /** `messages.get_mut(1..cut)` is nothing at all when the range is not inside the history. */
  function ClearStale(ms: seq<Message>, cut: nat): (r: seq<Message>)
    ensures |r| == |ms|
    ensures forall i :: 0 <= i < |ms| ==> r[i] == if 1 <= i < cut <= |ms| then ClearMessage(ms[i]) else ms[i]
  {
    seq(|ms|, i requires 0 <= i < |ms| => if 1 <= i < cut <= |ms| then ClearMessage(ms[i]) else ms[i])
  }

  /** Survivors of an edit that removed `removed` messages below `cut`, in order. */
  function Rebase(cps: seq<Checkpoint>, cut: nat, removed: nat): seq<Checkpoint>
    requires removed <= cut
  {
    if cps == [] then []
    else if cps[0].msgIndex >= cut
    then [cps[0].(msgIndex := cps[0].msgIndex - removed)] + Rebase(cps[1..], cut, removed)
    else Rebase(cps[1..], cut, removed)
  }

  function OriginalText(m: Message): string {
    if m.content.Text? then m.content.text else ""
  }

  function FoldInto(m: Message, summary: string): Message {
    m.(content := Text(if OriginalText(m) == "" then summary else summary + "\n\n" + OriginalText(m)))
  }

  function SummaryTurn(summary: string): Message {
    Message("user", Text(summary), [], None, [])
  }

  function DropTo(h: Chat, cut: nat): Chat
    requires 1 <= cut <= |h.messages|
  {
    Chat([h.messages[0]] + h.messages[cut..], Rebase(h.checkpoints, cut, cut - 1))
  }

  function FoldAt(h: Chat, cut: nat, summary: string): Chat
    requires 1 <= cut <= |h.messages|
  {
    var ms := h.messages;
    if UserAt(ms, cut) then DropTo(h.(messages := ms[cut := FoldInto(ms[cut], summary)]), cut)
    else Chat([ms[0], SummaryTurn(summary)] + ms[cut..], Rebase(h.checkpoints, cut, if cut >= 2 then cut - 2 else 0))
  }

  datatype Step = ClearTo(cut: nat) | Fold(cut: nat, summary: string) | Drop(cut: nat) | Shorten(slot: Slot)

  /** What the engine's entry points do: folds and drops happen only at cuts past 1. */
  ghost predicate Enabled(h: Chat, step: Step) {
    match step
    case ClearTo(_) => true
    case Fold(cut, _) => 1 < cut && exists keep: nat :: IsCut(h.messages, keep, cut)
    case Drop(cut) => 1 < cut && IsCut(h.messages, 0, cut)
    case Shorten(slot) => IsSlot(h.messages, slot) && |SlotText(h.messages, slot)| > 256
  }

  lemma CutInRange(ms: seq<Message>, keep: nat, cut: nat)
    requires IsCut(ms, keep, cut)
    ensures cut <= |ms| && (UserAt(ms, cut) || cut == |ms|)
  {
  }

  ghost function Take(h: Chat, step: Step): Chat
    requires Enabled(h, step)
  {
    match step
    case ClearTo(cut) => h.(messages := ClearStale(h.messages, cut))
    case Fold(cut, summary) => FoldAt(h, cut, summary)
    case Drop(cut) => DropTo(h, cut)
    case Shorten(slot) => h.(messages := ShortenSlot(h.messages, slot))
  }

  ghost predicate Takes(h: Chat, step: Step, after: Chat) {
    Enabled(h, step) && after == Take(h, step)
  }

  /** A run: the edits made and every history on the way. */
  datatype Trace = Trace(states: seq<Chat>, steps: seq<Step>)

  ghost predicate IsRun(t: Trace) {
    |t.states| == |t.steps| + 1
    && forall k {:trigger t.steps[k]} | 0 <= k < |t.steps| :: Takes(t.states[k], t.steps[k], t.states[k + 1])
  }

  ghost predicate RunsTo(h: Chat, t: Trace, after: Chat) {
    IsRun(t) && t.states[0] == h && t.states[|t.steps|] == after
  }

  ghost function Idle(h: Chat): (t: Trace)
    ensures RunsTo(h, t, h)
  {
    Trace([h], [])
  }

  ghost function Then(t: Trace, step: Step, after: Chat): (r: Trace)
    requires IsRun(t) && Takes(t.states[|t.steps|], step, after)
    ensures RunsTo(t.states[0], r, after)
    ensures r.states == t.states + [after] && r.steps == t.steps + [step]
  {
    Trace(t.states + [after], t.steps + [step])
  }

  lemma JoinedIsRun(a: Trace, b: Trace)
    requires IsRun(a) && IsRun(b) && a.states[|a.steps|] == b.states[0]
    ensures RunsTo(a.states[0], Trace(a.states + b.states[1..], a.steps + b.steps), b.states[|b.steps|])
  {
    hide Takes;
    var t := Trace(a.states + b.states[1..], a.steps + b.steps);
    forall k | 0 <= k < |t.steps| ensures Takes(t.states[k], t.steps[k], t.states[k + 1]) {
      if k < |a.steps| {
        assert t.steps[k] == a.steps[k];
      } else {
        assert t.steps[k] == b.steps[k - |a.steps|] && t.states[k] == b.states[k - |a.steps|];
      }
    }
  }

  ghost function Joined(a: Trace, b: Trace): (r: Trace)
    requires IsRun(a) && IsRun(b) && a.states[|a.steps|] == b.states[0]
    ensures RunsTo(a.states[0], r, b.states[|b.steps|])
    ensures r.steps == a.steps + b.steps && r.states == a.states + b.states[1..]
  {
    JoinedIsRun(a, b);
    Trace(a.states + b.states[1..], a.steps + b.steps)
  }

  // ---- tool calls stay paired with results, and roles keep alternating ----

  /** The part of a message that pairing and alternation read. */
  datatype Outline = Outline(role: string, callIds: seq<string>, callId: Option<string>)

  function CallIds(calls: seq<Call>): (ids: seq<string>)
    ensures |ids| == |calls| && forall k :: 0 <= k < |ids| ==> ids[k] == calls[k].id
  {
    seq(|calls|, k requires 0 <= k < |calls| => calls[k].id)
  }

  function OutlineOf(m: Message): Outline {
    Outline(m.role, CallIds(m.calls), m.callId)
  }

  function Outlines(ms: seq<Message>): (o: seq<Outline>)
    ensures |o| == |ms| && forall k :: 0 <= k < |o| ==> o[k] == OutlineOf(ms[k])
  {
    seq(|ms|, k requires 0 <= k < |ms| => OutlineOf(ms[k]))
  }

  /** `i` is in the turn that holds `j`: no user message opens in between. */
  predicate SameTurn(o: seq<Outline>, j: nat, i: nat)
    requires j <= i < |o|
  {
    forall k :: j < k <= i ==> o[k].role != "user"
  }

  /** The result at `i` answers a call made earlier in the same turn. */
  predicate Answers(o: seq<Outline>, j: nat, i: nat) {
    j < i < |o| && o[i].role == "tool" && o[i].callId.Some? && o[i].callId.value in o[j].callIds && SameTurn(o, j, i)
  }

  ghost predicate ResultAnswersCall(o: seq<Outline>, i: nat) {
    exists j: nat :: Answers(o, j, i)
  }

  ghost predicate CallIsAnswered(o: seq<Outline>, j: nat, id: string) {
    exists i: nat :: Answers(o, j, i) && o[i].callId == Some(id)
  }

  /** A history providers accept: a system prompt, every tool result answering an earlier
      call of its turn, every call answered in its turn, no two user messages in a row. */
  ghost predicate Sendable(o: seq<Outline>) {
    && |o| > 0 && o[0].role == "system" && o[0].callIds == []
    && (forall i | 0 <= i < |o| && o[i].role == "tool" :: ResultAnswersCall(o, i))
    && (forall j, id | 0 <= j < |o| && id in o[j].callIds :: CallIsAnswered(o, j, id))
    && (forall i | 0 <= i < |o| - 1 :: !(o[i].role == "user" && o[i + 1].role == "user"))
  }

  /** Removing everything between the system prompt and a user turn. */
  ghost function WithoutTurns(o: seq<Outline>, cut: nat): (p: seq<Outline>)
    requires 1 <= cut <= |o|
    ensures |p| == |o| - cut + 1 && p[0] == o[0]
    ensures forall k :: 1 <= k < |p| ==> p[k] == o[k + cut - 1]
  {
    [o[0]] + o[cut..]
  }

  lemma AnswersMoves(o: seq<Outline>, cut: nat, j: nat, i: nat)
    requires 1 <= cut < |o| && o[cut].role == "user" && o[0].callIds == []
    requires cut <= i && Answers(o, j, i)
    ensures cut <= j && Answers(WithoutTurns(o, cut), j - cut + 1, i - cut + 1)
  {
    assert SameTurn(o, j, i);
    var p := WithoutTurns(o, cut);
    forall k | j - cut + 1 < k <= i - cut + 1 ensures p[k].role != "user" {
      assert p[k] == o[k + cut - 1];
    }
  }

  lemma DroppingKeepsResults(o: seq<Outline>, cut: nat, i: nat)
    requires 1 <= cut < |o| && o[cut].role == "user" && o[0].callIds == []
    requires 1 <= i < |WithoutTurns(o, cut)| && ResultAnswersCall(o, i + cut - 1)
    ensures ResultAnswersCall(WithoutTurns(o, cut), i)
  {
    var j: nat :| Answers(o, j, i + cut - 1);
    AnswersMoves(o, cut, j, i + cut - 1);
  }

  lemma DroppingKeepsCalls(o: seq<Outline>, cut: nat, j: nat, id: string)
    requires 1 <= cut < |o| && o[cut].role == "user" && o[0].callIds == []
    requires 1 <= j < |WithoutTurns(o, cut)| && CallIsAnswered(o, j + cut - 1, id)
    ensures CallIsAnswered(WithoutTurns(o, cut), j, id)
  {
    var i: nat :| Answers(o, j + cut - 1, i) && o[i].callId == Some(id);
    AnswersMoves(o, cut, j + cut - 1, i);
    assert WithoutTurns(o, cut)[i - cut + 1].callId == Some(id);
  }

  lemma DroppingTurnsStaysSendable(o: seq<Outline>, cut: nat)
    requires Sendable(o) && 1 <= cut < |o| && o[cut].role == "user"
    ensures Sendable(WithoutTurns(o, cut))
  {
    var p := WithoutTurns(o, cut);
    forall i | 0 <= i < |p| && p[i].role == "tool" ensures ResultAnswersCall(p, i) {
      assert p[i] == o[i + cut - 1];
      DroppingKeepsResults(o, cut, i);
    }
    forall j, id | 0 <= j < |p| && id in p[j].callIds ensures CallIsAnswered(p, j, id) {
      assert p[j] == o[j + cut - 1];
      DroppingKeepsCalls(o, cut, j, id);
    }
    forall i | 0 <= i < |p| - 1 ensures !(p[i].role == "user" && p[i + 1].role == "user") {
      assert i > 0 ==> p[i] == o[i + cut - 1] && p[i + 1] == o[i + 1 + cut - 1];
    }
  }

  lemma OutlinesAfterDrop(h: Chat, cut: nat)
    requires 1 <= cut <= |h.messages|
    ensures Outlines(DropTo(h, cut).messages) == WithoutTurns(Outlines(h.messages), cut)
  {
  }

  lemma OutlinesAfterFold(h: Chat, cut: nat, summary: string)
    requires UserAt(h.messages, cut)
    ensures Outlines(FoldAt(h, cut, summary).messages) == WithoutTurns(Outlines(h.messages), cut)
  {
    var folded := h.(messages := h.messages[cut := FoldInto(h.messages[cut], summary)]);
    OutlinesAfterDrop(folded, cut);
    assert Outlines(folded.messages) == Outlines(h.messages);
  }

  lemma OutlinesAfterShorten(ms: seq<Message>, slot: Slot)
    requires IsSlot(ms, slot)
    ensures Outlines(ShortenSlot(ms, slot)) == Outlines(ms)
  {
    match slot
    case ContentOf(i) =>
    case ArgumentsOf(i, j) =>
      assert CallIds(ShortenArguments(ms[i], j).calls) == CallIds(ms[i].calls);
  }

  lemma OutlinesAfterClear(ms: seq<Message>, cut: nat)
    ensures Outlines(ClearStale(ms, cut)) == Outlines(ms)
  {
  }

  lemma BareHistoriesAreSendable(o: Outline)
    requires o.role == "system" && o.callIds == []
    ensures Sendable([o]) && Sendable([o, Outline("user", [], None)])
  {
  }

  lemma StepStaysSendable(h: Chat, step: Step)
    requires Enabled(h, step) && Sendable(Outlines(h.messages))
    ensures Sendable(Outlines(Take(h, step).messages))
  {
    var o := Outlines(h.messages);
    match step
    case ClearTo(cut) => OutlinesAfterClear(h.messages, cut);
    case Shorten(slot) => OutlinesAfterShorten(h.messages, slot);
    case Drop(cut) =>
      OutlinesAfterDrop(h, cut);
      if cut < |o| {
        DroppingTurnsStaysSendable(o, cut);
      } else {
        BareHistoriesAreSendable(o[0]);
        assert WithoutTurns(o, cut) == [o[0]];
      }
    case Fold(cut, summary) =>
      if cut < |o| {
        OutlinesAfterFold(h, cut, summary);
        DroppingTurnsStaysSendable(o, cut);
      } else {
        BareHistoriesAreSendable(o[0]);
        assert OutlineOf(SummaryTurn(summary)) == Outline("user", [], None);
        assert Outlines(FoldAt(h, cut, summary).messages) == [o[0], Outline("user", [], None)];
      }
  }

  /** Pairing and alternation survive every run of clears, folds, drops and shortenings. */
  lemma {:induction false} RunStaysSendable(t: Trace, k: nat)
    requires IsRun(t) && Sendable(Outlines(t.states[0].messages)) && k < |t.states|
    ensures Sendable(Outlines(t.states[k].messages))
  {
    hide Take, Enabled, Sendable;
    if k > 0 {
      RunStaysSendable(t, k - 1);
      assert Takes(t.states[k - 1], t.steps[k - 1], t.states[k - 1 + 1]);
      StepStaysSendable(t.states[k - 1], t.steps[k - 1]);
    }
  }

  // ---- checkpoints follow the messages they name ----

  /** Everything compaction may do to a message that stays. */
  datatype Edit = FoldedIn(summary: string) | ResultCleared | ContentHalved | ArgumentsHalved(j: nat)

  function Edited(m: Message, e: Edit): Message {
    match e
    case FoldedIn(summary) => FoldInto(m, summary)
    case ResultCleared => ClearMessage(m)
    case ContentHalved => if m.content.Text? then ShortenContent(m) else m
    case ArgumentsHalved(j) => if j < |m.calls| then ShortenArguments(m, j) else m
  }

  function EditedAll(m: Message, es: seq<Edit>): Message
    decreases |es|
  {
    if es == [] then m else EditedAll(Edited(m, es[0]), es[1..])
  }

  lemma {:induction false} EditedAllConcat(m: Message, a: seq<Edit>, b: seq<Edit>)
    ensures EditedAll(m, a + b) == EditedAll(EditedAll(m, a), b)
    decreases |a|
  {
    if a == [] {
      assert a + b == b;
    } else {
      var c := a + b;
      assert c[0] == a[0];
      assert c[1..] == a[1..] + b;
      EditedAllConcat(Edited(m, a[0]), a[1..], b);
    }
  }

  /** `after` is the same message as `m`, give or take folds, clears and halvings. */
  ghost predicate IsEditOf(m: Message, after: Message) {
    exists es: seq<Edit> :: EditedAll(m, es) == after
  }

  lemma EditedOnce(m: Message, e: Edit)
    ensures IsEditOf(m, Edited(m, e)) && IsEditOf(m, m)
  {
    assert EditedAll(m, []) == m;
    assert EditedAll(m, [e]) == Edited(m, e);
  }

  lemma IsEditOfTransitive(a: Message, b: Message, c: Message)
    requires IsEditOf(a, b) && IsEditOf(b, c)
    ensures IsEditOf(a, c)
  {
    var x: seq<Edit> :| EditedAll(a, x) == b;
    var y: seq<Edit> :| EditedAll(b, y) == c;
    EditedAllConcat(a, x, y);
  }

  /** Everything from `cut` on has moved down by `shift` places, edited at most; the
      messages below it are gone, and the checkpoints were rebased accordingly. */
  ghost predicate Moved(h: Chat, after: Chat, cut: nat, shift: nat) {
    && shift < cut <= |h.messages| && |after.messages| == |h.messages| - shift
    && after.messages[0] == h.messages[0]
    && (forall i | cut <= i < |h.messages| :: IsEditOf(h.messages[i], after.messages[i - shift]))
    && after.checkpoints == Rebase(h.checkpoints, cut, shift)
  }

  /** Checkpoints name messages past the system prompt. */
  predicate CheckpointsInRange(h: Chat) {
    forall c | c in h.checkpoints :: 1 <= c.msgIndex < |h.messages|
  }

  lemma {:induction false} RebaseNothing(cps: seq<Checkpoint>)
    requires forall c | c in cps :: 1 <= c.msgIndex
    ensures Rebase(cps, 1, 0) == cps
  {
    if cps != [] {
      assert cps[0] in cps;
      RebaseNothing(cps[1..]);
      assert cps == [cps[0]] + cps[1..];
    }
  }

  lemma {:induction false} RebaseTwice(cps: seq<Checkpoint>, cut: nat, shift: nat, cut2: nat, shift2: nat)
    requires shift < cut && shift2 < cut2
    ensures Rebase(Rebase(cps, cut, shift), cut2, shift2)
         == Rebase(cps, if cut >= cut2 + shift then cut else cut2 + shift, shift + shift2)
  {
    if cps != [] {
      RebaseTwice(cps[1..], cut, shift, cut2, shift2);
      if cps[0].msgIndex >= cut {
        var c := cps[0].(msgIndex := cps[0].msgIndex - shift);
        var rest := Rebase(cps[1..], cut, shift);
        assert ([c] + rest)[0] == c && ([c] + rest)[1..] == rest;
      }
    }
  }

  lemma MovedTwice(a: Chat, b: Chat, c: Chat, cut: nat, shift: nat, cut2: nat, shift2: nat)
    requires Moved(a, b, cut, shift) && Moved(b, c, cut2, shift2)
    ensures Moved(a, c, if cut >= cut2 + shift then cut else cut2 + shift, shift + shift2)
  {
    var far := if cut >= cut2 + shift then cut else cut2 + shift;
    RebaseTwice(a.checkpoints, cut, shift, cut2, shift2);
    forall i | far <= i < |a.messages|
      ensures IsEditOf(a.messages[i], c.messages[i - (shift + shift2)])
    {
      assert IsEditOf(a.messages[i], b.messages[i - shift]);
      assert IsEditOf(b.messages[i - shift], c.messages[i - shift - shift2]);
      IsEditOfTransitive(a.messages[i], b.messages[i - shift], c.messages[i - shift - shift2]);
    }
  }

  lemma EditsInPlaceMove(h: Chat, after: seq<Message>)
    requires |h.messages| > 0 && CheckpointsInRange(h)
    requires |after| == |h.messages| && after[0] == h.messages[0]
    requires forall i | 1 <= i < |after| :: IsEditOf(h.messages[i], after[i])
    ensures Moved(h, h.(messages := after), 1, 0)
  {
    RebaseNothing(h.checkpoints);
  }

  lemma ClearMoves(h: Chat, cut: nat)
    requires |h.messages| > 0 && CheckpointsInRange(h)
    ensures Moved(h, h.(messages := ClearStale(h.messages, cut)), 1, 0)
  {
    var after := ClearStale(h.messages, cut);
    forall i | 1 <= i < |after| ensures IsEditOf(h.messages[i], after[i]) {
      EditedOnce(h.messages[i], ResultCleared);
    }
    EditsInPlaceMove(h, after);
  }

  lemma ShortenMoves(h: Chat, slot: Slot)
    requires |h.messages| > 0 && CheckpointsInRange(h) && IsSlot(h.messages, slot)
    ensures Moved(h, h.(messages := ShortenSlot(h.messages, slot)), 1, 0)
  {
    var after := ShortenSlot(h.messages, slot);
    forall i | 1 <= i < |after| ensures IsEditOf(h.messages[i], after[i]) {
      EditedOnce(h.messages[i], if slot.ContentOf? then ContentHalved else ArgumentsHalved(slot.j));
    }
    EditsInPlaceMove(h, after);
  }

  lemma DropMoves(h: Chat, cut: nat)
    requires 1 <= cut <= |h.messages|
    ensures Moved(h, DropTo(h, cut), cut, cut - 1)
  {
    forall i | cut <= i < |h.messages| ensures IsEditOf(h.messages[i], DropTo(h, cut).messages[i - (cut - 1)]) {
      EditedOnce(h.messages[i], ResultCleared);
    }
  }

  lemma FoldOntoTurnMoves(h: Chat, cut: nat, summary: string)
    requires UserAt(h.messages, cut)
    ensures Moved(h, FoldAt(h, cut, summary), cut, cut - 1)
  {
    var after := FoldAt(h, cut, summary);
    forall i | cut <= i < |h.messages| ensures IsEditOf(h.messages[i], after.messages[i - (cut - 1)]) {
      EditedOnce(h.messages[i], FoldedIn(summary));
    }
  }

  lemma StandaloneFoldMoves(h: Chat, cut: nat, summary: string)
    requires 2 <= cut <= |h.messages| && !UserAt(h.messages, cut)
    ensures Moved(h, FoldAt(h, cut, summary), cut, cut - 2)
  {
    var after := FoldAt(h, cut, summary);
    forall i | cut <= i < |h.messages| ensures IsEditOf(h.messages[i], after.messages[i - (cut - 2)]) {
      EditedOnce(h.messages[i], ResultCleared);
    }
  }

  lemma {:induction false} RebaseKeepsOne(cps: seq<Checkpoint>, cut: nat, shift: nat, c: Checkpoint)
    requires shift <= cut && c in cps && c.msgIndex >= cut
    ensures c.(msgIndex := c.msgIndex - shift) in Rebase(cps, cut, shift)
  {
    if cps[0] != c { RebaseKeepsOne(cps[1..], cut, shift, c); }
  }

  /** The turn folded into starts with the summary and ends with the user's own words, when
      those are a string; any other content gives way to the summary. */
  lemma FoldKeepsUserText(h: Chat, cut: nat, summary: string)
    requires 1 <= cut && UserAt(h.messages, cut)
    ensures var was, kept := h.messages[cut], FoldAt(h, cut, summary).messages[1];
      && kept.content.Text? && summary <= kept.content.text && kept.(content := was.content) == was
      && (was.content.Text? ==> EndsWith(kept.content.text, was.content.text))
      && (was.content.Text? && was.content.text != "" ==> kept.content.text == summary + "\n\n" + was.content.text)
      && (!was.content.Text? ==> kept.content.text == summary)
  {
    if !h.messages[cut].content.Text? { return; }
    var text := h.messages[cut].content.text;
    var folded := FoldInto(h.messages[cut], summary).content.text;
    assert folded[|folded| - |text|..] == text;
  }

  /** A checkpoint that survives a fold is as far from the end of the history as before,
      so it names the same message. */
  ghost predicate KeepsDistance(h: Chat, after: Chat, cut: nat, shift: nat) {
    forall c | c in h.checkpoints && c.msgIndex >= cut ::
      |after.messages| - (c.msgIndex - shift) == |h.messages| - c.msgIndex
  }

  /** The fold's own rebasing is right except for one call nobody makes: a standalone
      summary inserted at 1 pushes every message up and leaves the checkpoints behind. */
  lemma FoldKeepsDistanceIff(h: Chat, cut: nat, summary: string, shift: nat)
    requires 1 <= cut <= |h.messages|
    requires shift == if UserAt(h.messages, cut) then cut - 1 else if cut >= 2 then cut - 2 else 0
    requires exists c :: c in h.checkpoints && c.msgIndex >= cut
    ensures FoldAt(h, cut, summary).checkpoints == Rebase(h.checkpoints, cut, shift)
    ensures KeepsDistance(h, FoldAt(h, cut, summary), cut, shift) <==> cut >= 2 || UserAt(h.messages, cut)
  {
    var after := FoldAt(h, cut, summary);
    assert |after.messages| == |h.messages| - (if UserAt(h.messages, cut) then cut - 1 else cut - 2);
  }

  // ---- whole runs ----

  ghost predicate LatestUser(ms: seq<Message>, u: nat) {
    UserAt(ms, u) && forall v: nat | UserAt(ms, v) :: v <= u
  }

  lemma {:induction false} EditedAllKeepsRole(m: Message, es: seq<Edit>)
    ensures EditedAll(m, es).role == m.role
    decreases |es|
  {
    if es != [] { EditedAllKeepsRole(Edited(m, es[0]), es[1..]); }
  }

  lemma IsEditOfKeepsRole(m: Message, after: Message)
    requires IsEditOf(m, after)
    ensures IsUser(after) == IsUser(m)
  {
    var es: seq<Edit> :| EditedAll(m, es) == after;
    EditedAllKeepsRole(m, es);
  }

  /** The latest user turn is below no cut, and stays the latest. */
  lemma LatestUserMoves(h: Chat, after: Chat, cut: nat, shift: nat, u: nat)
    requires Moved(h, after, cut, shift) && LatestUser(h.messages, u) && cut <= u
    ensures LatestUser(after.messages, u - shift)
  {
    IsEditOfKeepsRole(h.messages[u], after.messages[u - shift]);
    forall v: nat | UserAt(after.messages, v) ensures v <= u - shift {
      if v + shift >= cut {
        assert IsEditOf(h.messages[v + shift], after.messages[v + shift - shift]);
        IsEditOfKeepsRole(h.messages[v + shift], after.messages[v]);
        assert UserAt(h.messages, v + shift);
      }
    }
  }

  /** Nothing that stayed is below the cut: exactly the messages from 1 up to it are gone. The
      one exception is a history folded up whole, where the summary stands in their place. */
  predicate TightCut(h: Chat, cut: nat, shift: nat) {
    cut == shift + 1 || cut == shift + 2 == |h.messages|
  }

  lemma StepMoves(h: Chat, step: Step, after: Chat, u: int) returns (cut: nat, shift: nat)
    requires Takes(h, step, after) && |h.messages| > 0 && CheckpointsInRange(h)
    ensures Moved(h, after, cut, shift) && TightCut(h, cut, shift)
    ensures 0 <= u && LatestUser(h.messages, u) ==> cut <= u && cut == shift + 1
  {
    hide Moved, DropTo, FoldAt, ShortenSlot, CheckpointsInRange;
    match step
    case ClearTo(c) => ClearMoves(h, c); cut, shift := 1, 0;
    case Shorten(slot) => ShortenMoves(h, slot); cut, shift := 1, 0;
    case Drop(c) => DropMoves(h, c); cut, shift := c, c - 1;
    case Fold(c, summary) =>
      if UserAt(h.messages, c) {
        FoldOntoTurnMoves(h, c, summary);
        cut, shift := c, c - 1;
      } else {
        StandaloneFoldMoves(h, c, summary);
        cut, shift := c, c - 2;
      }
  }

  lemma {:induction false} RebaseInRange(cps: seq<Checkpoint>, cut: nat, shift: nat, n: nat)
    requires shift < cut && forall c | c in cps :: c.msgIndex < n
    ensures forall c | c in Rebase(cps, cut, shift) :: 1 <= c.msgIndex < n - shift
  {
    if cps != [] {
      assert cps[0] in cps;
      RebaseInRange(cps[1..], cut, shift, n);
    }
  }

  lemma IdleMoves(h: Chat)
    requires |h.messages| > 0 && CheckpointsInRange(h)
    ensures Moved(h, h, 1, 0)
  {
    forall i | 1 <= i < |h.messages| ensures IsEditOf(h.messages[i], h.messages[i]) {
      EditedOnce(h.messages[i], ResultCleared);
    }
    EditsInPlaceMove(h, h.messages);
  }

  lemma MovedTwiceInRange(h: Chat, mid: Chat, after: Chat, cut1: nat, shift1: nat, cut2: nat, shift2: nat)
    returns (cut: nat, shift: nat)
    requires Moved(h, mid, cut1, shift1) && CheckpointsInRange(h) && Moved(mid, after, cut2, shift2)
    requires TightCut(h, cut1, shift1) && TightCut(mid, cut2, shift2)
    ensures Moved(h, after, cut, shift) && CheckpointsInRange(after) && TightCut(h, cut, shift)
    ensures shift == shift1 + shift2 && (cut == cut1 || cut == cut2 + shift1)
    ensures cut1 == shift1 + 1 && cut2 == shift2 + 1 ==> cut == shift + 1
  {
    MovedTwice(h, mid, after, cut1, shift1, cut2, shift2);
    cut, shift := if cut1 >= cut2 + shift1 then cut1 else cut2 + shift1, shift1 + shift2;
    RebaseInRange(h.checkpoints, cut, shift, |h.messages|);
  }

  lemma TraceStepMoves(t: Trace, k: nat, u: int) returns (cut: nat, shift: nat)
    requires IsRun(t) && k < |t.steps| && |t.states[k].messages| > 0 && CheckpointsInRange(t.states[k])
    ensures Moved(t.states[k], t.states[k + 1], cut, shift) && TightCut(t.states[k], cut, shift)
    ensures 0 <= u && LatestUser(t.states[k].messages, u) ==> cut <= u && cut == shift + 1
  {
    cut, shift := StepMoves(t.states[k], t.steps[k], t.states[k + 1], u);
  }

  /** Over any run, what is left of the history is a tail that moved as one block: its
      messages only edited, its checkpoints rebased by the same distance and in range,
      message 0 untouched and the latest user turn (`u`) still there. Where there is one, the
      run removed exactly the `shift` messages in front of the tail. */
  lemma {:induction false} RunMoves(t: Trace, k: nat, u: nat) returns (cut: nat, shift: nat)
    requires IsRun(t) && |t.states[0].messages| > 0 && CheckpointsInRange(t.states[0]) && k < |t.states|
    ensures Moved(t.states[0], t.states[k], cut, shift) && CheckpointsInRange(t.states[k])
    ensures TightCut(t.states[0], cut, shift)
    ensures LatestUser(t.states[0].messages, u) ==>
      cut == shift + 1 <= u && LatestUser(t.states[k].messages, u - shift)
  {
    if k == 0 {
      IdleMoves(t.states[0]);
      cut, shift := 1, 0;
    } else {
      var cut1, shift1 := RunMoves(t, k - 1, u);
      var cut2, shift2 := TraceStepMoves(t, k - 1, u - shift1);
      cut, shift := MovedTwiceInRange(t.states[0], t.states[k - 1], t.states[k], cut1, shift1, cut2, shift2);
      if LatestUser(t.states[0].messages, u) {
        LatestUserMoves(t.states[k - 1], t.states[k], cut2, shift2, u - shift1);
      }
    }
  }

  predicate Ascending(cps: seq<Checkpoint>) {
    forall a, b | 0 <= a < b < |cps| :: cps[a].msgIndex < cps[b].msgIndex
  }

  lemma {:induction false} RebaseComesFrom(cps: seq<Checkpoint>, cut: nat, shift: nat)
    requires shift <= cut
    ensures forall c | c in Rebase(cps, cut, shift) ::
      c.msgIndex + shift >= cut && c.(msgIndex := c.msgIndex + shift) in cps
  {
    if cps != [] { RebaseComesFrom(cps[1..], cut, shift); }
  }

  lemma {:induction false} RebaseKeepsOrder(cps: seq<Checkpoint>, cut: nat, shift: nat)
    requires shift <= cut && Ascending(cps)
    ensures Ascending(Rebase(cps, cut, shift))
  {
    if cps != [] {
      RebaseKeepsOrder(cps[1..], cut, shift);
      RebaseComesFrom(cps[1..], cut, shift);
      var rest := Rebase(cps[1..], cut, shift);
      forall b | 0 <= b < |rest| ensures cps[0].msgIndex < rest[b].msgIndex + shift {
        assert rest[b] in rest;
      }
    }
  }

  lemma {:induction false} LatestUserExists(ms: seq<Message>, v: nat) returns (u: nat)
    requires UserAt(ms, v)
    ensures LatestUser(ms, u)
    decreases |ms| - v
  {
    u := v;
    if w: nat :| UserAt(ms, w) && w > v { u := LatestUserExists(ms, w); }
  }

  /** A run removes the messages from 1 up to some cut and no other. Exactly the checkpoints in
      that range are gone; every other one names the message it named before, `shift` places
      down; nothing else appears and the order is kept. With a user turn in the history `shift`
      is the number removed; without one all may be folded into one summary turn. */
  lemma CheckpointsFollowTheirMessages(t: Trace, k: nat) returns (cut: nat, shift: nat)
    requires IsRun(t) && |t.states[0].messages| > 0 && CheckpointsInRange(t.states[0]) && k < |t.states|
    ensures |t.states[k].messages| == |t.states[0].messages| - shift && TightCut(t.states[0], cut, shift)
    ensures (exists v: nat :: UserAt(t.states[0].messages, v)) ==> cut == shift + 1
    ensures forall i | cut <= i < |t.states[0].messages| ::
      IsEditOf(t.states[0].messages[i], t.states[k].messages[i - shift])
    ensures t.states[k].checkpoints == Rebase(t.states[0].checkpoints, cut, shift)
    ensures forall c | c in t.states[0].checkpoints && c.msgIndex >= cut ::
      c.(msgIndex := c.msgIndex - shift) in t.states[k].checkpoints
    ensures forall c | c in t.states[k].checkpoints ::
      c.msgIndex + shift >= cut && c.(msgIndex := c.msgIndex + shift) in t.states[0].checkpoints
    ensures Ascending(t.states[0].checkpoints) ==> Ascending(t.states[k].checkpoints)
    ensures CheckpointsInRange(t.states[k])
  {
    var u: nat := 0;
    if v: nat :| UserAt(t.states[0].messages, v) { u := LatestUserExists(t.states[0].messages, v); }
    cut, shift := RunMoves(t, k, u);
    var cps := t.states[0].checkpoints;
    forall c | c in cps && c.msgIndex >= cut
      ensures c.(msgIndex := c.msgIndex - shift) in t.states[k].checkpoints
    {
      RebaseKeepsOne(cps, cut, shift, c);
    }
    RebaseComesFrom(cps, cut, shift);
    if Ascending(cps) { RebaseKeepsOrder(cps, cut, shift); }
  }
}

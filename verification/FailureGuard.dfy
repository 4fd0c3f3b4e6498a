/** Counting tool failures that repeat: a hint at the second of a kind, a stop at the fourth. */
module FailureGuards {
  import opened Text

  const HINT_AT := 2
  const STOP_AT := 4
  const HEAD := 80

  datatype Failure = Failure(tool: string, error: string)

  datatype Action = Nothing | Hint(failure: Failure) | Stop

  predicate IsPolicyDenial(error: string) {
    var e := TrimStart(error);
    "denied by user" <= e || "Plan mode is read-only" <= e
  }

  /** Behind `k` blanks, one of the two phrases. */
  predicate DenialBehind(error: string, k: nat) {
    && k <= |error| && (forall i | 0 <= i < k :: IsWhitespace(error[i]))
    && ("denied by user" <= error[k..] || "Plan mode is read-only" <= error[k..])
  }

  /** Blanks aside, a denial starts with one of the two phrases, and nothing else is one. */
  lemma DenialIff(error: string)
    ensures IsPolicyDenial(error) <==> exists k: nat :: DenialBehind(error, k)
  {
    TrimStartSpec(error);
    var e := TrimStart(error);
    var blanks := |error| - |e|;
    assert e == error[blanks..];
    if k: nat :| DenialBehind(error, k) {
      assert error[k] == error[k..][0] && !IsWhitespace(error[k]);
      assert k == blanks;
    }
    if IsPolicyDenial(error) { assert DenialBehind(error, blanks); }
  }

  /** The first 80 characters of the trimmed text. */
  function Head(error: string): (head: string)
    ensures head <= Trim(error) && (|head| == 80 || head == Trim(error)) && |head| <= 80
  {
    var e := Trim(error);
    if |e| > HEAD then e[..HEAD] else e
  }

  function Signature(f: Failure): string {
    f.tool + "\0" + Head(f.error)
  }

  /** For tool names without a NUL, a signature stands for one tool and one error text. */
  lemma SignatureSeparates(f: Failure, g: Failure)
    requires '\0' !in f.tool && '\0' !in g.tool
    ensures Signature(f) == Signature(g) <==> f.tool == g.tool && Head(f.error) == Head(g.error)
  {
    hide Head;
    var a, b := Signature(f), Signature(g);
    IndexOfAt(f.tool, '\0', Head(f.error));
    IndexOfAt(g.tool, '\0', Head(g.error));
    assert a[..|f.tool|] == f.tool && b[..|g.tool|] == g.tool;
    assert a[|f.tool| + 1..] == Head(f.error) && b[|g.tool| + 1..] == Head(g.error);
  }

  datatype Tally = Tally(counts: map<string, nat>, hinted: set<string>)

  const EMPTY := Tally(map[], {})

  function CountOf(t: Tally, sig: string): nat {
    if sig in t.counts then t.counts[sig] else 0
  }

  /** The tally and the action after a batch, `action` being what was settled on before it. */
  function Observed(t: Tally, failures: seq<Failure>, action: Action): (Tally, Action)
    decreases |failures|
  {
    if failures == [] then (t, action)
    else if IsPolicyDenial(failures[0].error) then Observed(t, failures[1..], action)
    else
      var sig := Signature(failures[0]);
      var n := CountOf(t, sig) + 1;
      var counted := t.(counts := t.counts[sig := n]);
      if n >= STOP_AT then (counted, Stop)
      else if n >= HINT_AT && !action.Hint? && sig !in t.hinted then
        Observed(counted.(hinted := t.hinted + {sig}), failures[1..], Hint(failures[0]))
      else Observed(counted, failures[1..], action)
  }

  class FailureGuard {
    var counts: map<string, nat>
    var hinted: set<string>

    function Tallied(): Tally
      reads this
    {
      Tally(counts, hinted)
    }

    constructor ()
      ensures Tallied() == EMPTY
    {
      counts, hinted := map[], {};
    }

    method Observe(failures: seq<Failure>) returns (action: Action)
      modifies this
      ensures (Tallied(), action) == Observed(old(Tallied()), failures, Nothing)
    {
      hide IsPolicyDenial, Signature;
      action := Nothing;
      assert failures[0..] == failures;
      for i := 0 to |failures|
        invariant Observed(Tallied(), failures[i..], action) == Observed(old(Tallied()), failures, Nothing)
      {
        assert failures[i..][0] == failures[i] && failures[i..][1..] == failures[i + 1..];
        if IsPolicyDenial(failures[i].error) { continue; }
        var sig := Signature(failures[i]);
        var n := (if sig in counts then counts[sig] else 0) + 1;
        counts := counts[sig := n];
        if n >= STOP_AT { return Stop; }
        if n >= HINT_AT && !action.Hint? && sig !in hinted {
          hinted := hinted + {sig};
          action := Hint(failures[i]);
        }
      }
    }
  }

  // ---- what the counts mean ----

  predicate IsCounted(f: Failure, sig: string) {
    !IsPolicyDenial(f.error) && Signature(f) == sig
  }

  /** How many failures of one signature a history holds. */
  function Occurrences(seen: seq<Failure>, sig: string): nat {
    if seen == [] then 0
    else Occurrences(seen[..|seen| - 1], sig) + if IsCounted(seen[|seen| - 1], sig) then 1 else 0
  }

  /** The counts are those of a history in which nothing has failed four times. */
  ghost predicate Tracks(t: Tally, seen: seq<Failure>) {
    forall sig :: CountOf(t, sig) == Occurrences(seen, sig) < 4
  }

  ghost predicate FourAlike(seen: seq<Failure>) {
    exists sig :: Occurrences(seen, sig) >= 4
  }

  lemma OneMore(seen: seq<Failure>, f: Failure)
    ensures forall sig :: Occurrences(seen + [f], sig) == Occurrences(seen, sig) + if IsCounted(f, sig) then 1 else 0
  {
    assert (seen + [f])[..|seen|] == seen;
  }

  lemma {:induction false} OccurrencesGrow(seen: seq<Failure>, more: seq<Failure>, sig: string)
    ensures Occurrences(seen, sig) <= Occurrences(seen + more, sig)
    decreases |more|
  {
    if more == [] {
      assert seen + more == seen;
    } else {
      OneMore(seen, more[0]);
      OccurrencesGrow(seen + [more[0]], more[1..], sig);
      assert seen + [more[0]] + more[1..] == seen + more;
    }
  }

  /** A batch stops the turn exactly when some signature has then failed four times; until then
      every count is the number of failures seen. */
  lemma {:induction false} StopsAtTheFourth(t: Tally, seen: seq<Failure>, failures: seq<Failure>, action: Action)
    requires Tracks(t, seen) && !action.Stop?
    ensures Observed(t, failures, action).1.Stop? <==> FourAlike(seen + failures)
    ensures Observed(t, failures, action).1.Stop? || Tracks(Observed(t, failures, action).0, seen + failures)
    decreases |failures|
  {
    hide IsPolicyDenial, Signature;
    if failures == [] {
      assert seen + failures == seen;
    } else {
      var f, rest := failures[0], failures[1..];
      var sig := Signature(f);
      OneMore(seen, f);
      assert seen + [f] + rest == seen + failures;
      var counted := t.(counts := t.counts[sig := CountOf(t, sig) + 1]);
      if IsPolicyDenial(f.error) {
        StopsAtTheFourth(t, seen + [f], rest, action);
      } else if CountOf(t, sig) + 1 >= STOP_AT {
        OccurrencesGrow(seen + [f], rest, sig);
      } else if CountOf(t, sig) + 1 >= HINT_AT && !action.Hint? && sig !in t.hinted {
        StopsAtTheFourth(counted.(hinted := t.hinted + {sig}), seen + [f], rest, Hint(f));
      } else {
        StopsAtTheFourth(counted, seen + [f], rest, action);
      }
    }
  }

  /** A failure that calls for a hint: at least the second of its signature, never hinted. */
  predicate CallsForHint(hinted: set<string>, seen: seq<Failure>, f: Failure) {
    !IsPolicyDenial(f.error) && Signature(f) !in hinted && Occurrences(seen + [f], Signature(f)) >= 2
  }

  /** Index of the first failure of a batch that calls for a hint, or the length of the batch. */
  function FirstHint(hinted: set<string>, seen: seq<Failure>, failures: seq<Failure>): (k: nat)
    ensures k <= |failures|
    decreases |failures|
  {
    if failures == [] || CallsForHint(hinted, seen, failures[0]) then 0
    else FirstHint(hinted, seen + [failures[0]], failures[1..]) + 1
  }

  lemma {:induction false} FirstHintIsFirst(hinted: set<string>, seen: seq<Failure>, failures: seq<Failure>, j: nat)
    requires j <= FirstHint(hinted, seen, failures) && j < |failures|
    ensures CallsForHint(hinted, seen + failures[..j], failures[j]) <==> j == FirstHint(hinted, seen, failures)
    decreases |failures|
  {
    hide CallsForHint;
    if j == 0 {
      assert seen + failures[..0] == seen;
    } else {
      FirstHintIsFirst(hinted, seen + [failures[0]], failures[1..], j - 1);
      assert seen + failures[..j] == seen + [failures[0]] + failures[1..][..j - 1];
    }
  }

  lemma {:induction false} HintedBatch(t: Tally, failures: seq<Failure>, action: Action)
    requires action.Hint? && !Observed(t, failures, action).1.Stop?
    ensures Observed(t, failures, action).1 == action && Observed(t, failures, action).0.hinted == t.hinted
    decreases |failures|
  {
    hide IsPolicyDenial, Signature;
    if failures != [] {
      var sig := Signature(failures[0]);
      if IsPolicyDenial(failures[0].error) {
        HintedBatch(t, failures[1..], action);
      } else {
        HintedBatch(t.(counts := t.counts[sig := CountOf(t, sig) + 1]), failures[1..], action);
      }
    }
  }

  /** A batch that does not stop the turn hints at the first failure that calls for it, marks
      that signature alone as hinted, and otherwise does nothing. */
  lemma {:induction false} HintsAtTheFirst(t: Tally, seen: seq<Failure>, failures: seq<Failure>)
    requires Tracks(t, seen) && !Observed(t, failures, Nothing).1.Stop?
    ensures var (after, action) := Observed(t, failures, Nothing);
      var i := FirstHint(t.hinted, seen, failures);
      if i < |failures| then action == Hint(failures[i]) && after.hinted == t.hinted + {Signature(failures[i])}
      else action == Nothing && after.hinted == t.hinted
    decreases |failures|
  {
    hide IsPolicyDenial, Signature;
    if failures != [] {
      var f, rest := failures[0], failures[1..];
      var sig := Signature(f);
      OneMore(seen, f);
      var counted := t.(counts := t.counts[sig := CountOf(t, sig) + 1]);
      if IsPolicyDenial(f.error) {
        HintsAtTheFirst(t, seen + [f], rest);
      } else if CallsForHint(t.hinted, seen, f) {
        HintedBatch(counted.(hinted := t.hinted + {sig}), rest, Hint(f));
      } else {
        HintsAtTheFirst(counted, seen + [f], rest);
      }
    }
  }

  // ---- whole turns ----

  /** The tally after some batches of a turn. */
  function After(batches: seq<seq<Failure>>): Tally {
    if batches == [] then EMPTY
    else Observed(After(batches[..|batches| - 1]), batches[|batches| - 1], Nothing).0
  }

  /** What batch `i` of a turn is answered with. */
  function Answer(batches: seq<seq<Failure>>, i: nat): Action
    requires i < |batches|
  {
    Observed(After(batches[..i]), batches[i], Nothing).1
  }

  function All(batches: seq<seq<Failure>>): seq<Failure> {
    if batches == [] then [] else All(batches[..|batches| - 1]) + batches[|batches| - 1]
  }

  /** No batch so far has stopped the turn. */
  predicate Goes(batches: seq<seq<Failure>>) {
    forall i | 0 <= i < |batches| :: !Answer(batches, i).Stop?
  }

  lemma GoesEarlier(batches: seq<seq<Failure>>, k: nat)
    requires Goes(batches) && k <= |batches|
    ensures Goes(batches[..k])
  {
    forall i | 0 <= i < k ensures !Answer(batches[..k], i).Stop? {
      assert !Answer(batches, i).Stop?;
      assert batches[..k][..i] == batches[..i] && batches[..k][i] == batches[i];
    }
  }

  /** While a turn goes on, the tally is that of all its failures, none of them four times alike. */
  lemma {:induction false} TurnTracks(batches: seq<seq<Failure>>)
    requires Goes(batches)
    ensures Tracks(After(batches), All(batches))
    decreases |batches|
  {
    hide Observed;
    if batches != [] {
      var k := |batches| - 1;
      GoesEarlier(batches, k);
      TurnTracks(batches[..k]);
      assert !Answer(batches, k).Stop?;
      StopsAtTheFourth(After(batches[..k]), All(batches[..k]), batches[k], Nothing);
    }
  }

  /** A turn is stopped by the very batch that brings some signature to four. */
  lemma TurnStopsIff(batches: seq<seq<Failure>>, k: nat)
    requires k < |batches| && Goes(batches[..k])
    ensures Answer(batches, k).Stop? <==> FourAlike(All(batches[..k + 1]))
  {
    hide Observed;
    TurnTracks(batches[..k]);
    StopsAtTheFourth(After(batches[..k]), All(batches[..k]), batches[k], Nothing);
    assert batches[..k + 1][..k] == batches[..k];
  }

  lemma HintIsMarked(batches: seq<seq<Failure>>, k: nat)
    requires k < |batches| && Goes(batches)
    ensures After(batches[..k]).hinted <= After(batches[..k + 1]).hinted
    ensures Answer(batches, k).Hint? ==>
      Signature(Answer(batches, k).failure) in After(batches[..k + 1]).hinted - After(batches[..k]).hinted
  {
    hide Observed, IsPolicyDenial, Signature;
    GoesEarlier(batches, k);
    TurnTracks(batches[..k]);
    assert !Answer(batches, k).Stop?;
    var t, seen := After(batches[..k]), All(batches[..k]);
    HintsAtTheFirst(t, seen, batches[k]);
    var i := FirstHint(t.hinted, seen, batches[k]);
    if i < |batches[k]| { FirstHintIsFirst(t.hinted, seen, batches[k], i); }
    assert batches[..k + 1][..k] == batches[..k];
  }

  lemma {:induction false} HintsStayMarked(batches: seq<seq<Failure>>, i: nat, j: nat)
    requires i <= j <= |batches| && Goes(batches)
    ensures After(batches[..i]).hinted <= After(batches[..j]).hinted
    decreases j
  {
    hide Observed;
    if i < j {
      HintsStayMarked(batches, i, j - 1);
      HintIsMarked(batches, j - 1);
    }
  }

  /** No signature is hinted twice in a turn. */
  lemma HintedOnce(batches: seq<seq<Failure>>, i: nat, j: nat)
    requires Goes(batches) && i < j < |batches|
    requires Answer(batches, i).Hint? && Answer(batches, j).Hint?
    ensures Signature(Answer(batches, i).failure) != Signature(Answer(batches, j).failure)
  {
    hide Observed, Signature;
    HintIsMarked(batches, i);
    HintsStayMarked(batches, i + 1, j);
    HintIsMarked(batches, j);
  }

  // ---- how long a turn can go on ----

  /** How many failures of the given signatures a history holds. */
  function CountedIn(seen: seq<Failure>, sigs: set<string>): nat {
    if seen == [] then 0 else
      var f := seen[|seen| - 1];
      CountedIn(seen[..|seen| - 1], sigs) + if !IsPolicyDenial(f.error) && Signature(f) in sigs then 1 else 0
  }

  function Signatures(seen: seq<Failure>): set<string> {
    set f | f in seen && !IsPolicyDenial(f.error) :: Signature(f)
  }

  lemma {:induction false} CountedWithout(seen: seq<Failure>, sigs: set<string>, sig: string)
    requires sig in sigs
    ensures CountedIn(seen, sigs) == CountedIn(seen, sigs - {sig}) + Occurrences(seen, sig)
  {
    hide IsPolicyDenial, Signature;
    if seen != [] { CountedWithout(seen[..|seen| - 1], sigs, sig); }
  }

  lemma {:induction false} NoSignatures(seen: seq<Failure>)
    ensures CountedIn(seen, {}) == 0
  {
    hide IsPolicyDenial, Signature;
    if seen != [] { NoSignatures(seen[..|seen| - 1]); }
  }

  lemma {:induction false} AtMostThreeEach(seen: seq<Failure>, sigs: set<string>)
    requires !FourAlike(seen)
    ensures CountedIn(seen, sigs) <= 3 * |sigs|
    decreases |sigs|
  {
    hide CountedIn;
    if sigs == {} {
      NoSignatures(seen);
    } else {
      var sig :| sig in sigs;
      CountedWithout(seen, sigs, sig);
      assert Occurrences(seen, sig) < 4;
      AtMostThreeEach(seen, sigs - {sig});
    }
  }

  /** The failures that are not policy denials. */
  function Faults(seen: seq<Failure>): seq<Failure> {
    if seen == [] then [] else
      var f := seen[|seen| - 1];
      Faults(seen[..|seen| - 1]) + if IsPolicyDenial(f.error) then [] else [f]
  }

  lemma {:induction false} FaultsAreCounted(seen: seq<Failure>, sigs: set<string>)
    requires Signatures(seen) <= sigs
    ensures CountedIn(seen, sigs) == |Faults(seen)|
  {
    hide IsPolicyDenial, Signature;
    if seen != [] {
      var init, f := seen[..|seen| - 1], seen[|seen| - 1];
      assert f in seen && !IsPolicyDenial(f.error) ==> Signature(f) in Signatures(seen);
      assert Signatures(init) <= Signatures(seen);
      FaultsAreCounted(init, sigs);
    }
  }

  /** With `n` distinct signatures a turn survives at most `3 * n` failures: the batch that
      brings one more stops it. */
  lemma TurnIsBounded(batches: seq<seq<Failure>>, k: nat)
    requires k < |batches| && Goes(batches[..k])
    ensures var seen := All(batches[..k + 1]);
      |Faults(seen)| > 3 * |Signatures(seen)| ==> Answer(batches, k).Stop?
  {
    hide Observed, Faults, Signatures;
    var seen := All(batches[..k + 1]);
    TurnStopsIff(batches, k);
    if !FourAlike(seen) {
      AtMostThreeEach(seen, Signatures(seen));
      FaultsAreCounted(seen, Signatures(seen));
    }
  }
}

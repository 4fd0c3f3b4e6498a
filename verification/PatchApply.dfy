/** Applying an update's hunks to a file: the fuzzy context search, the walk that builds
    the new text, and what the result is whenever it succeeds. */
module PatchApply {
  import opened Text
  import opened PatchFormat

  // ---- fuzzy context search ----

  /** Exact, then ignoring trailing whitespace, then ignoring whitespace at both ends. */
  datatype Level = Exact | TrailingWs | AllWs

  const LEVELS := [Exact, TrailingWs, AllWs]

  predicate LineMatches(level: Level, a: string, b: string) {
    match level
    case Exact => a == b
    case TrailingWs => TrimEnd(a) == TrimEnd(b)
    case AllWs => Trim(a) == Trim(b)
  }

  predicate MatchAt(level: Level, lines: seq<string>, block: seq<string>, i: nat) {
    i + |block| <= |lines| && forall k | 0 <= k < |block| :: LineMatches(level, lines[i + k], block[k])
  }

  /** First match of one pass at or after `i`. */
  function FirstMatch(level: Level, lines: seq<string>, block: seq<string>, i: nat): (r: Option<nat>)
    ensures r.Some? ==> i <= r.value && MatchAt(level, lines, block, r.value)
    ensures r.Some? ==> forall k | i <= k < r.value :: !MatchAt(level, lines, block, k)
    ensures r.None? ==> forall k | i <= k :: !MatchAt(level, lines, block, k)
    decreases |lines| - i
  {
    if i + |block| > |lines| then None
    else if MatchAt(level, lines, block, i) then Some(i)
    else FirstMatch(level, lines, block, i + 1)
  }

  function FoundContext(lines: seq<string>, block: seq<string>, start: nat): (r: Option<nat>)
    ensures r.Some? && start <= |lines| ==> start <= r.value && r.value + |block| <= |lines|
  {
    if block == [] then Some(if start < |lines| then start else |lines|)
    else
      var exact := FirstMatch(Exact, lines, block, start);
      if exact.Some? then exact else
      var trailing := FirstMatch(TrailingWs, lines, block, start);
      if trailing.Some? then trailing else FirstMatch(AllWs, lines, block, start)
  }

  /** An exact match is a match at every level. */
  lemma ExactMatchesAll(level: Level, lines: seq<string>, block: seq<string>, i: nat)
    requires MatchAt(Exact, lines, block, i)
    ensures MatchAt(level, lines, block, i)
  {
  }

  lemma {:induction false} TrimEndThenTrim(s: string)
    ensures Trim(TrimEnd(s)) == Trim(s)
    decreases |s|
  {
    if s != "" && IsWhitespace(s[|s| - 1]) {
      TrimEndThenTrim(s[..|s| - 1]);
      TrimDropsLastSpace(s);
    }
  }

  lemma {:induction false} TrimDropsLastSpace(s: string)
    requires s != "" && IsWhitespace(s[|s| - 1])
    ensures Trim(s[..|s| - 1]) == Trim(s)
  {
    if |s| > 1 && IsWhitespace(s[0]) {
      TrimDropsLastSpace(s[1..]);
      assert s[1..][..|s| - 2] == s[..|s| - 1][1..];
    } else if |s| > 1 {
      assert TrimStart(s) == s && TrimStart(s[..|s| - 1]) == s[..|s| - 1];
    } else {
      assert s[1..] == "" && s[..0] == "";
    }
  }

  /** A match up to trailing whitespace is a match up to surrounding whitespace. */
  lemma TrailingMatchesAll(lines: seq<string>, block: seq<string>, i: nat)
    requires MatchAt(TrailingWs, lines, block, i)
    ensures MatchAt(AllWs, lines, block, i)
  {
    forall k | 0 <= k < |block| ensures LineMatches(AllWs, lines[i + k], block[k]) {
      assert LineMatches(TrailingWs, lines[i + k], block[k]);
      TrimEndThenTrim(lines[i + k]);
      TrimEndThenTrim(block[k]);
    }
  }

  /** `c` stands in `s` from `i` on, with whitespace around it and nothing else. */
  predicate BlankAround(s: string, i: nat, c: string) {
    OccursAt(s, c, i) && forall k | 0 <= k < |s| && !(i <= k < i + |c|) :: IsWhitespace(s[k])
  }

  lemma {:induction false} BlanksAreTrimmed(s: string, i: nat, c: string)
    requires BlankAround(s, i, c)
    ensures Trim(s) == Trim(c) && (i == 0 ==> TrimEnd(s) == TrimEnd(c))
    decreases |s|
  {
    if i + |c| < |s| {
      BlanksAreTrimmed(s[..|s| - 1], i, c);
      TrimDropsLastSpace(s);
    } else if i > 0 {
      assert s[1..][i - 1..] == s[i..] == c;
      BlanksAreTrimmed(s[1..], i - 1, c);
    } else {
      assert s == c;
    }
  }

  /** Lines match when they are the same, the same up to whitespace behind, the same up to
      whitespace around. */
  lemma LineMatchesIff(a: string, b: string)
    ensures LineMatches(Exact, a, b) <==> a == b
    ensures LineMatches(TrailingWs, a, b) <==> exists c: string :: BlankAround(a, 0, c) && BlankAround(b, 0, c)
    ensures LineMatches(AllWs, a, b) <==>
      exists i: nat, j: nat, c: string :: BlankAround(a, i, c) && BlankAround(b, j, c)
  {
    hide Trim, TrimEnd;
    forall i: nat, c: string | BlankAround(a, i, c) { BlanksAreTrimmed(a, i, c); }
    forall i: nat, c: string | BlankAround(b, i, c) { BlanksAreTrimmed(b, i, c); }
    TrimEndSpec(a);
    TrimEndSpec(b);
    assert BlankAround(a, 0, TrimEnd(a)) && BlankAround(b, 0, TrimEnd(b));
    var i, _ := TrimSpec(a);
    var j, _ := TrimSpec(b);
    assert BlankAround(a, i, Trim(a)) && BlankAround(b, j, Trim(b));
  }

  /** `at` is the first place from `start` on where the block matches at `level`, and it matches
      nowhere from there at a stricter level. */
  ghost predicate FirstAtStrictest(level: Level, lines: seq<string>, block: seq<string>, start: nat, at: nat) {
    && start <= at && MatchAt(level, lines, block, at)
    && (forall k | start <= k < at :: !MatchAt(level, lines, block, k))
    && (level != Exact ==> forall k | start <= k :: !MatchAt(Exact, lines, block, k))
    && (level == AllWs ==> forall k | start <= k :: !MatchAt(TrailingWs, lines, block, k))
  }

  /** Where a block belongs from `start` on: its first match at the strictest level that has
      one; right there if it is empty. */
  ghost predicate BestAt(lines: seq<string>, block: seq<string>, start: nat, at: nat) {
    if block == [] then at == start else exists level :: FirstAtStrictest(level, lines, block, start, at)
  }

  ghost predicate NowhereFrom(lines: seq<string>, block: seq<string>, start: nat) {
    block != [] && forall k | start <= k :: !MatchAt(AllWs, lines, block, k)
  }

  /** The search succeeds exactly when some level matches somewhere from `start` on, and it
      returns the first match of the strictest level that has one. */
  lemma FoundContextIsBest(lines: seq<string>, block: seq<string>, start: nat)
    requires start <= |lines|
    ensures FoundContext(lines, block, start).None? <==> NowhereFrom(lines, block, start)
    ensures FoundContext(lines, block, start).Some? ==> BestAt(lines, block, start, FoundContext(lines, block, start).value)
  {
    hide LineMatches, MatchAt;
    if block != [] {
      var exact, trailing := FirstMatch(Exact, lines, block, start), FirstMatch(TrailingWs, lines, block, start);
      var all := FirstMatch(AllWs, lines, block, start);
      if exact.Some? {
        ExactMatchesAll(AllWs, lines, block, exact.value);
        assert FirstAtStrictest(Exact, lines, block, start, exact.value);
      } else if trailing.Some? {
        TrailingMatchesAll(lines, block, trailing.value);
        assert FirstAtStrictest(TrailingWs, lines, block, start, trailing.value);
      } else if all.Some? {
        assert FirstAtStrictest(AllWs, lines, block, start, all.value);
      }
    }
  }

  /** There is one best place. */
  lemma BestAtOnce(lines: seq<string>, block: seq<string>, start: nat, a: nat, b: nat)
    requires BestAt(lines, block, start, a) && BestAt(lines, block, start, b)
    ensures a == b && !NowhereFrom(lines, block, start)
  {
    if block != [] {
      var l :| FirstAtStrictest(l, lines, block, start, a);
      var m :| FirstAtStrictest(m, lines, block, start, b);
      hide MatchAt;
      assert l == m;
      if l == Exact { ExactMatchesAll(AllWs, lines, block, a); }
      if l == TrailingWs { TrailingMatchesAll(lines, block, a); }
    }
  }

  method FindContext(lines: seq<string>, block: seq<string>, start: nat) returns (r: Option<nat>)
    ensures r == FoundContext(lines, block, start)
  {
    if block == [] { return Some(if start < |lines| then start else |lines|); }
    if |block| > |lines| { return None; }
    for pass := 0 to 3
      invariant forall p | 0 <= p < pass :: FirstMatch(LEVELS[p], lines, block, start).None?
    {
      var i := start;
      while i + |block| <= |lines|
        invariant start <= i
        invariant FirstMatch(LEVELS[pass], lines, block, i) == FirstMatch(LEVELS[pass], lines, block, start)
        decreases |lines| - i
      {
        if MatchAt(LEVELS[pass], lines, block, i) {
          assert LEVELS[0] == Exact && LEVELS[1] == TrailingWs && LEVELS[2] == AllWs;
          return Some(i);
        }
        i := i + 1;
      }
    }
    assert FirstMatch(LEVELS[0], lines, block, start).None? && FirstMatch(LEVELS[1], lines, block, start).None?
        && FirstMatch(LEVELS[2], lines, block, start).None?;
    r := None;
  }

  // ---- building the new lines ----

  /** A hunk's context and deletions: the lines it expects to find. */
  function Before(sec: Section): (block: seq<string>)
    ensures |block| <= |sec|
  {
    if sec == [] then []
    else if sec[0].op.Ins? then Before(sec[1..])
    else [sec[0].text] + Before(sec[1..])
  }

  /** Walk a hunk over the file's own lines `m` it was placed on. */
  function Walked(m: seq<string>, sec: Section): seq<string>
    requires |m| == |Before(sec)|
    decreases |sec|
  {
    if sec == [] then [] else
    match sec[0].op
    case Ctx => [m[0]] + Walked(m[1..], sec[1..])
    case Del => Walked(m[1..], sec[1..])
    case Ins => [sec[0].text] + Walked(m, sec[1..])
  }

  /** The lines from `pos` on after the hunks, or the block that could not be located. */
  function Output(lines: seq<string>, sections: seq<Section>, pos: nat): Result<seq<string>, seq<string>>
    requires pos <= |lines|
    decreases |sections|
  {
    if sections == [] then Ok(lines[pos..])
    else
      var block := Before(sections[0]);
      match FoundContext(lines, block, pos)
      case None => Err(block)
      case Some(at) =>
        Prepended(lines[pos..at] + Walked(lines[at..at + |block|], sections[0]),
                 Output(lines, sections[1..], at + |block|))
  }

  /** What one hunk line does to the lines under the hunk. */
  lemma WalkStep(m: seq<string>, sec: Section)
    requires sec != [] && |m| == |Before(sec)|
    ensures sec[0].op.Ins? ==> |m| == |Before(sec[1..])| && Walked(m, sec) == [sec[0].text] + Walked(m, sec[1..])
    ensures !sec[0].op.Ins? ==> |m| == |Before(sec[1..])| + 1
    ensures !sec[0].op.Ins? ==> Walked(m, sec) == (if sec[0].op.Ctx? then [m[0]] else []) + Walked(m[1..], sec[1..])
  {
  }

  method WalkSection(lines: seq<string>, sec: Section, at: nat) returns (out: seq<string>, f: nat)
    requires at + |Before(sec)| <= |lines|
    ensures f == at + |Before(sec)| && out == Walked(lines[at..f], sec)
  {
    ghost var end := at + |Before(sec)|;
    f, out := at, [];
    assert sec[0..] == sec && [] + Walked(lines[at..end], sec) == Walked(lines[at..end], sec) && |Before([])| == 0;
    hide Walked, Before;
    for i := 0 to |sec|
      invariant at <= f && f + |Before(sec[i..])| == end
      invariant out + Walked(lines[f..end], sec[i..]) == Walked(lines[at..end], sec)
    {
      assert sec[i..][0] == sec[i] && sec[i..][1..] == sec[i + 1..];
      WalkStep(lines[f..end], sec[i..]);
      assert !sec[i].op.Ins? ==> lines[f..end][0] == lines[f] && lines[f..end][1..] == lines[f + 1..end];
      ghost var rest := sec[i + 1..];
      match sec[i].op
      case Ctx => ConcatAssoc(out, [lines[f]], Walked(lines[f + 1..end], rest)); out := out + [lines[f]]; f := f + 1;
      case Del => assert [] + Walked(lines[f + 1..end], rest) == Walked(lines[f + 1..end], rest); f := f + 1;
      case Ins => ConcatAssoc(out, [sec[i].text], Walked(lines[f..end], rest)); out := out + [sec[i].text];
    }
  }

  method ApplySections(lines: seq<string>, sections: seq<Section>) returns (r: Result<seq<string>, seq<string>>)
    ensures r == Output(lines, sections, 0)
  {
    hide Walked, FoundContext, Before;
    var out: seq<string>, pos: nat := [], 0;
    PrependedNothing(Output(lines, sections, 0));
    for i := 0 to |sections|
      invariant pos <= |lines|
      invariant Output(lines, sections, 0) == Prepended(out, Output(lines, sections[i..], pos))
    {
      var sec := sections[i];
      assert sections[i..][0] == sec && sections[i..][1..] == sections[i + 1..];
      var at := FindContext(lines, Before(sec), pos);
      if at.None? { return Err(Before(sec)); }
      var walked, f := WalkSection(lines, sec, at.value);
      PrependedTwice(out, lines[pos..at.value] + walked, Output(lines, sections[i + 1..], f));
      out, pos := out + (lines[pos..at.value] + walked), f;
    }
    r := Ok(out + lines[pos..]);
  }

  // ---- what the result is ----

  /** Placement of hunks: `gaps[k]` untouched lines lie between hunk `k` and the one before. */
  predicate Fits(lines: seq<string>, sections: seq<Section>, gaps: seq<nat>)
    decreases |sections|
  {
    |gaps| == |sections| &&
    (sections == [] ||
      var b := |Before(sections[0])|;
      gaps[0] + b <= |lines| && Fits(lines[gaps[0] + b..], sections[1..], gaps[1..]))
  }

  /** Each hunk stands on lines that match it at `level`, in order and without overlap. */
  predicate Placed(level: Level, lines: seq<string>, sections: seq<Section>, gaps: seq<nat>)
    decreases |sections|
  {
    Fits(lines, sections, gaps) &&
    (sections == [] ||
      (MatchAt(level, lines, Before(sections[0]), gaps[0]) &&
       Placed(level, lines[gaps[0] + |Before(sections[0])|..], sections[1..], gaps[1..])))
  }

  function Rebuilt(lines: seq<string>, sections: seq<Section>, gaps: seq<nat>): seq<string>
    requires Fits(lines, sections, gaps)
    decreases |sections|
  {
    if sections == [] then lines else
      var g, b := gaps[0], |Before(sections[0])|;
      lines[..g] + Walked(lines[g..g + b], sections[0]) + Rebuilt(lines[g + b..], sections[1..], gaps[1..])
  }

  lemma FoundMatches(lines: seq<string>, block: seq<string>, start: nat)
    requires FoundContext(lines, block, start).Some?
    ensures block != [] ==> MatchAt(AllWs, lines, block, FoundContext(lines, block, start).value)
  {
    hide MatchAt;
    if block != [] {
      var exact, trailing := FirstMatch(Exact, lines, block, start), FirstMatch(TrailingWs, lines, block, start);
      if exact.Some? {
        ExactMatchesAll(AllWs, lines, block, exact.value);
      } else if trailing.Some? {
        TrailingMatchesAll(lines, block, trailing.value);
      }
    }
  }

  lemma MatchMoves(level: Level, lines: seq<string>, block: seq<string>, pos: nat, at: nat)
    requires pos <= at && MatchAt(level, lines, block, at)
    ensures MatchAt(level, lines[pos..], block, at - pos)
  {
    forall k | 0 <= k < |block| ensures LineMatches(level, lines[pos..][at - pos + k], block[k]) {
      assert lines[pos..][at - pos + k] == lines[at + k];
    }
  }

  /** Every hunk stands at its best place at or after the end of the one before it. */
  ghost predicate BestPlaced(lines: seq<string>, sections: seq<Section>, pos: nat, gaps: seq<nat>)
    decreases |sections|
  {
    if sections == [] then gaps == [] else
    gaps != [] && BestAt(lines, Before(sections[0]), pos, pos + gaps[0])
    && BestPlaced(lines, sections[1..], pos + gaps[0] + |Before(sections[0])|, gaps[1..])
  }

  /** The hunks before hunk `|gaps|` are so placed, and that one matches nowhere behind them. */
  ghost predicate Stuck(lines: seq<string>, sections: seq<Section>, pos: nat, gaps: seq<nat>)
    decreases |sections|
  {
    sections != [] &&
    if gaps == [] then NowhereFrom(lines, Before(sections[0]), pos) else
    BestAt(lines, Before(sections[0]), pos, pos + gaps[0])
    && Stuck(lines, sections[1..], pos + gaps[0] + |Before(sections[0])|, gaps[1..])
  }

  /** Success means every hunk found its place, in order, and the output is the file
      rebuilt around those places. */
  lemma {:induction false} OutputIsRebuilt(lines: seq<string>, sections: seq<Section>, pos: nat) returns (gaps: seq<nat>)
    requires pos <= |lines| && Output(lines, sections, pos).Ok?
    ensures BestPlaced(lines, sections, pos, gaps) && Placed(AllWs, lines[pos..], sections, gaps)
    ensures Output(lines, sections, pos).value == Rebuilt(lines[pos..], sections, gaps)
    decreases |sections|
  {
    hide MatchAt, FoundContext, Walked, Before, BestAt;
    gaps := [];
    if sections != [] {
      var block := Before(sections[0]);
      FoundContextIsBest(lines, block, pos);
      var at := FoundContext(lines, block, pos).value;
      var rest := OutputIsRebuilt(lines, sections[1..], at + |block|);
      gaps := [at - pos] + rest;
      assert gaps[1..] == rest;
      PlacedAt(lines, block, pos, at);
      assert lines[pos..][at - pos + |block|..] == lines[at + |block|..];
      assert lines[pos..][..at - pos] == lines[pos..at];
      assert lines[pos..][at - pos..at - pos + |block|] == lines[at..at + |block|];
    }
  }

  /** Failure means some hunk, named by its block, found no place behind those before it. */
  lemma {:induction false} ErrorIsStuck(lines: seq<string>, sections: seq<Section>, pos: nat) returns (gaps: seq<nat>)
    requires pos <= |lines| && Output(lines, sections, pos).Err?
    ensures Stuck(lines, sections, pos, gaps) && |gaps| < |sections|
    ensures Output(lines, sections, pos).error == Before(sections[|gaps|])
    decreases |sections|
  {
    hide MatchAt, FoundContext, Walked, Before, BestAt, NowhereFrom;
    var block := Before(sections[0]);
    FoundContextIsBest(lines, block, pos);
    var found := FoundContext(lines, block, pos);
    if found.None? {
      gaps := [];
    } else {
      var rest := ErrorIsStuck(lines, sections[1..], found.value + |block|);
      gaps := [found.value - pos] + rest;
      assert gaps[1..] == rest;
    }
  }

  /** No other placement is a best one, and none is when some hunk is stuck. */
  lemma {:induction false} PlacementDecides(lines: seq<string>, sections: seq<Section>, pos: nat, gaps: seq<nat>)
    requires pos <= |lines|
    ensures BestPlaced(lines, sections, pos, gaps) ==>
      Fits(lines[pos..], sections, gaps) && Output(lines, sections, pos) == Ok(Rebuilt(lines[pos..], sections, gaps))
    ensures Stuck(lines, sections, pos, gaps) ==>
      |gaps| < |sections| && Output(lines, sections, pos) == Err(Before(sections[|gaps|]))
    decreases |sections|
  {
    hide MatchAt, FoundContext, Walked, Before, BestAt, NowhereFrom;
    if sections != [] {
      var block := Before(sections[0]);
      FoundContextIsBest(lines, block, pos);
      var found := FoundContext(lines, block, pos);
      if gaps != [] && BestAt(lines, block, pos, pos + gaps[0]) {
        if found.None? {
          BestAtOnce(lines, block, pos, pos + gaps[0], pos + gaps[0]);
        } else {
          BestAtOnce(lines, block, pos, pos + gaps[0], found.value);
          var at := found.value;
          PlacementDecides(lines, sections[1..], at + |block|, gaps[1..]);
          assert lines[pos..][at - pos + |block|..] == lines[at + |block|..];
          assert lines[pos..][..at - pos] == lines[pos..at];
          assert lines[pos..][at - pos..at - pos + |block|] == lines[at..at + |block|];
        }
      }
    }
  }

  lemma PlacedAt(lines: seq<string>, block: seq<string>, pos: nat, at: nat)
    requires pos <= |lines| && FoundContext(lines, block, pos) == Some(at)
    ensures pos <= at && MatchAt(AllWs, lines[pos..], block, at - pos)
  {
    FoundMatches(lines, block, pos);
    if block != [] { MatchMoves(AllWs, lines, block, pos, at); }
  }

  // ---- the edit as a script ----

  /** A line-by-line account of an edit: `Keep` and `Cut` carry the file's own text. */
  datatype Edit = Keep(text: string) | Cut(text: string) | Added(text: string)

  function OldSide(script: seq<Edit>): seq<string> {
    if script == [] then [] else (if script[0].Added? then [] else [script[0].text]) + OldSide(script[1..])
  }

  function NewSide(script: seq<Edit>): seq<string> {
    if script == [] then [] else (if script[0].Cut? then [] else [script[0].text]) + NewSide(script[1..])
  }

  function Texts(script: seq<Edit>, added: bool): seq<string> {
    if script == [] then []
    else (if (if added then script[0].Added? else script[0].Cut?) then [script[0].text] else []) + Texts(script[1..], added)
  }

  lemma {:induction false} OldSideConcat(a: seq<Edit>, b: seq<Edit>)
    ensures OldSide(a + b) == OldSide(a) + OldSide(b)
  {
    if a == [] {
      assert a + b == b;
    } else {
      assert (a + b)[1..] == a[1..] + b && (a + b)[0] == a[0];
      OldSideConcat(a[1..], b);
    }
  }

  lemma {:induction false} NewSideConcat(a: seq<Edit>, b: seq<Edit>)
    ensures NewSide(a + b) == NewSide(a) + NewSide(b)
  {
    if a == [] {
      assert a + b == b;
    } else {
      assert (a + b)[1..] == a[1..] + b && (a + b)[0] == a[0];
      NewSideConcat(a[1..], b);
    }
  }

  lemma {:induction false} TextsConcat(a: seq<Edit>, b: seq<Edit>, added: bool)
    ensures Texts(a + b, added) == Texts(a, added) + Texts(b, added)
  {
    if a == [] {
      assert a + b == b;
    } else {
      assert (a + b)[1..] == a[1..] + b && (a + b)[0] == a[0];
      TextsConcat(a[1..], b, added);
    }
  }

  function Kept(lines: seq<string>): seq<Edit> {
    if lines == [] then [] else [Keep(lines[0])] + Kept(lines[1..])
  }

  lemma {:induction false} KeptSides(lines: seq<string>)
    ensures OldSide(Kept(lines)) == lines && NewSide(Kept(lines)) == lines
    ensures Texts(Kept(lines), true) == [] && Texts(Kept(lines), false) == []
  {
    if lines != [] { KeptSides(lines[1..]); }
  }

  function SectionScript(m: seq<string>, sec: Section): seq<Edit>
    requires |m| == |Before(sec)|
    decreases |sec|
  {
    if sec == [] then [] else
    match sec[0].op
    case Ctx => [Keep(m[0])] + SectionScript(m[1..], sec[1..])
    case Del => [Cut(m[0])] + SectionScript(m[1..], sec[1..])
    case Ins => [Added(sec[0].text)] + SectionScript(m, sec[1..])
  }

  function Script(lines: seq<string>, sections: seq<Section>, gaps: seq<nat>): seq<Edit>
    requires Fits(lines, sections, gaps)
    decreases |sections|
  {
    if sections == [] then Kept(lines) else
      var g, b := gaps[0], |Before(sections[0])|;
      Kept(lines[..g]) + SectionScript(lines[g..g + b], sections[0]) + Script(lines[g + b..], sections[1..], gaps[1..])
  }

  /** The texts a hunk list inserts, or asks to delete, in order. */
  function OpTexts(sec: Section, op: Op): seq<string> {
    if sec == [] then [] else (if sec[0].op == op then [sec[0].text] else []) + OpTexts(sec[1..], op)
  }

  function AllOpTexts(sections: seq<Section>, op: Op): seq<string> {
    if sections == [] then [] else OpTexts(sections[0], op) + AllOpTexts(sections[1..], op)
  }

  predicate AllMatch(level: Level, a: seq<string>, b: seq<string>) {
    |a| == |b| && forall k | 0 <= k < |a| :: LineMatches(level, a[k], b[k])
  }

  lemma {:induction false} SectionScriptSides(m: seq<string>, sec: Section)
    requires |m| == |Before(sec)|
    ensures OldSide(SectionScript(m, sec)) == m && NewSide(SectionScript(m, sec)) == Walked(m, sec)
    ensures Texts(SectionScript(m, sec), true) == OpTexts(sec, Ins)
    ensures |Texts(SectionScript(m, sec), false)| == |OpTexts(sec, Del)|
    decreases |sec|
  {
    if sec != [] {
      var ins := sec[0].op.Ins?;
      var rest := if ins then m else m[1..];
      SectionScriptSides(rest, sec[1..]);
      var e := if ins then Added(sec[0].text) else if sec[0].op.Ctx? then Keep(m[0]) else Cut(m[0]);
      assert SectionScript(m, sec) == [e] + SectionScript(rest, sec[1..]);
      ScriptCons(e, SectionScript(rest, sec[1..]));
      assert !ins ==> m == [m[0]] + m[1..];
    }
  }

  lemma ScriptCons(e: Edit, rest: seq<Edit>)
    ensures OldSide([e] + rest) == (if e.Added? then [] else [e.text]) + OldSide(rest)
    ensures NewSide([e] + rest) == (if e.Cut? then [] else [e.text]) + NewSide(rest)
    ensures Texts([e] + rest, true) == (if e.Added? then [e.text] else []) + Texts(rest, true)
    ensures Texts([e] + rest, false) == (if e.Cut? then [e.text] else []) + Texts(rest, false)
  {
    assert ([e] + rest)[1..] == rest;
  }

  lemma AllMatchTail(level: Level, a: seq<string>, b: seq<string>)
    requires AllMatch(level, a, b) && a != []
    ensures AllMatch(level, a[1..], b[1..]) && LineMatches(level, a[0], b[0])
  {
    hide LineMatches;
    assert forall k | 0 <= k < |a| - 1 :: a[1..][k] == a[k + 1] && b[1..][k] == b[k + 1];
  }

  lemma AllMatchCons(level: Level, x: string, a: seq<string>, y: string, b: seq<string>)
    requires LineMatches(level, x, y) && AllMatch(level, a, b)
    ensures AllMatch(level, [x] + a, [y] + b)
  {
    hide LineMatches;
  }

  lemma {:induction false} CutLinesMatch(level: Level, m: seq<string>, sec: Section)
    requires AllMatch(level, m, Before(sec))
    ensures AllMatch(level, Texts(SectionScript(m, sec), false), OpTexts(sec, Del))
    decreases |sec|
  {
    hide LineMatches;
    if sec != [] {
      if sec[0].op.Ins? {
        CutLinesMatch(level, m, sec[1..]);
      } else {
        AllMatchTail(level, m, Before(sec));
        CutLinesMatch(level, m[1..], sec[1..]);
        if sec[0].op.Del? {
          AllMatchCons(level, m[0], Texts(SectionScript(m[1..], sec[1..]), false), sec[0].text, OpTexts(sec[1..], Del));
        }
      }
    }
  }

  /** The line count changes by what was added less what was cut. */
  lemma {:induction false} ScriptCounts(script: seq<Edit>)
    ensures |NewSide(script)| + |Texts(script, false)| == |OldSide(script)| + |Texts(script, true)|
  {
    if script != [] { ScriptCounts(script[1..]); }
  }

  /** Both sides of a script, and what it adds and cuts. */
  ghost predicate Accounts(level: Level, script: seq<Edit>, was: seq<string>, now: seq<string>, ins: seq<string>, del: seq<string>) {
    OldSide(script) == was && NewSide(script) == now && Texts(script, true) == ins && AllMatch(level, Texts(script, false), del)
  }

  lemma AccountsConcat(level: Level, a: seq<Edit>, o1: seq<string>, n1: seq<string>, i1: seq<string>, d1: seq<string>,
                       b: seq<Edit>, o2: seq<string>, n2: seq<string>, i2: seq<string>, d2: seq<string>)
    requires Accounts(level, a, o1, n1, i1, d1) && Accounts(level, b, o2, n2, i2, d2)
    ensures Accounts(level, a + b, o1 + o2, n1 + n2, i1 + i2, d1 + d2)
  {
    hide LineMatches, OldSide, NewSide, Texts;
    OldSideConcat(a, b);
    NewSideConcat(a, b);
    TextsConcat(a, b, true);
    TextsConcat(a, b, false);
  }

  lemma KeptAccounts(level: Level, lines: seq<string>)
    ensures Accounts(level, Kept(lines), lines, lines, [], [])
  {
    KeptSides(lines);
  }

  lemma SectionAccounts(level: Level, lines: seq<string>, sec: Section, g: nat)
    requires MatchAt(level, lines, Before(sec), g)
    ensures var m := lines[g..g + |Before(sec)|];
      Accounts(level, SectionScript(m, sec), m, Walked(m, sec), OpTexts(sec, Ins), OpTexts(sec, Del))
  {
    var m := lines[g..g + |Before(sec)|];
    SectionScriptSides(m, sec);
    CutLinesMatch(level, m, sec);
  }

  /** The output is the file with exactly the hunks' deletions cut (up to the whitespace the
      match ignored), exactly their insertions added, and all else the file's own text. */
  lemma {:induction false} ScriptIsExact(level: Level, lines: seq<string>, sections: seq<Section>, gaps: seq<nat>)
    requires Placed(level, lines, sections, gaps)
    ensures Accounts(level, Script(lines, sections, gaps), lines, Rebuilt(lines, sections, gaps),
                     AllOpTexts(sections, Ins), AllOpTexts(sections, Del))
    decreases |sections|
  {
    hide LineMatches, MatchAt, Accounts;
    if sections == [] {
      KeptAccounts(level, lines);
    } else {
      var g, b := gaps[0], |Before(sections[0])|;
      var m, rest := lines[g..g + b], lines[g + b..];
      KeptAccounts(level, lines[..g]);
      SectionAccounts(level, lines, sections[0], g);
      ScriptIsExact(level, rest, sections[1..], gaps[1..]);
      AccountsConcat(level, Kept(lines[..g]), lines[..g], lines[..g], [], [],
                     SectionScript(m, sections[0]), m, Walked(m, sections[0]), OpTexts(sections[0], Ins), OpTexts(sections[0], Del));
      AccountsConcat(level, Kept(lines[..g]) + SectionScript(m, sections[0]), lines[..g] + m, lines[..g] + Walked(m, sections[0]),
                     [] + OpTexts(sections[0], Ins), [] + OpTexts(sections[0], Del),
                     Script(rest, sections[1..], gaps[1..]), rest, Rebuilt(rest, sections[1..], gaps[1..]),
                     AllOpTexts(sections[1..], Ins), AllOpTexts(sections[1..], Del));
      assert lines == lines[..g] + m + rest;
      assert [] + OpTexts(sections[0], Ins) == OpTexts(sections[0], Ins);
      assert [] + OpTexts(sections[0], Del) == OpTexts(sections[0], Del);
    }
  }

  // ---- undoing an edit ----

  /** The hunk that takes the edit back: insertions become deletions, and the removed lines,
      in the file's own text, become insertions. */
  function Inverse(m: seq<string>, sec: Section): Section
    requires |m| == |Before(sec)|
    decreases |sec|
  {
    if sec == [] then [] else
    match sec[0].op
    case Ctx => [Line(Ctx, m[0])] + Inverse(m[1..], sec[1..])
    case Del => [Line(Ins, m[0])] + Inverse(m[1..], sec[1..])
    case Ins => [Line(Del, sec[0].text)] + Inverse(m, sec[1..])
  }

  function Inverses(lines: seq<string>, sections: seq<Section>, gaps: seq<nat>): seq<Section>
    requires Fits(lines, sections, gaps)
    decreases |sections|
  {
    if sections == [] then [] else
      var g, b := gaps[0], |Before(sections[0])|;
      [Inverse(lines[g..g + b], sections[0])] + Inverses(lines[g + b..], sections[1..], gaps[1..])
  }

  lemma {:induction false} InverseUndoes(m: seq<string>, sec: Section)
    requires |m| == |Before(sec)|
    ensures Before(Inverse(m, sec)) == Walked(m, sec)
    ensures Walked(Walked(m, sec), Inverse(m, sec)) == m
    decreases |sec|
  {
    if sec != [] {
      var inv := Inverse(m, sec);
      if sec[0].op.Ins? {
        InverseUndoes(m, sec[1..]);
        assert inv[1..] == Inverse(m, sec[1..]);
        assert Walked(m, sec)[1..] == Walked(m, sec[1..]);
      } else {
        InverseUndoes(m[1..], sec[1..]);
        assert inv[1..] == Inverse(m[1..], sec[1..]);
        assert sec[0].op.Ctx? ==> Walked(m, sec)[1..] == Walked(m[1..], sec[1..]);
        assert m == [m[0]] + m[1..];
      }
    }
  }

  /** The inverse hunks stand in the new text at the same distances from each other, match
      it exactly, and rebuild the original from it. */
  lemma {:induction false} UndoRestores(lines: seq<string>, sections: seq<Section>, gaps: seq<nat>)
    requires Fits(lines, sections, gaps)
    ensures var now, undo := Rebuilt(lines, sections, gaps), Inverses(lines, sections, gaps);
      Placed(Exact, now, undo, gaps) && Rebuilt(now, undo, gaps) == lines
    decreases |sections|
  {
    if sections != [] {
      UndoRestores(lines[gaps[0] + |Before(sections[0])|..], sections[1..], gaps[1..]);
      UndoFirst(lines, sections, gaps);
    }
  }

  lemma UndoFirst(lines: seq<string>, sections: seq<Section>, gaps: seq<nat>)
    requires sections != [] && Fits(lines, sections, gaps)
    requires var rest := lines[gaps[0] + |Before(sections[0])|..];
      var now, undo := Rebuilt(rest, sections[1..], gaps[1..]), Inverses(rest, sections[1..], gaps[1..]);
      Placed(Exact, now, undo, gaps[1..]) && Rebuilt(now, undo, gaps[1..]) == rest
    ensures var now, undo := Rebuilt(lines, sections, gaps), Inverses(lines, sections, gaps);
      Placed(Exact, now, undo, gaps) && Rebuilt(now, undo, gaps) == lines
  {
    hide Walked, Before, Inverse, Placed, MatchAt;
    var g, b := gaps[0], |Before(sections[0])|;
    var m, rest := lines[g..g + b], lines[g + b..];
    var walked, inv := Walked(m, sections[0]), Inverse(m, sections[0]);
    var later, undoLater := Rebuilt(rest, sections[1..], gaps[1..]), Inverses(rest, sections[1..], gaps[1..]);
    InverseUndoes(m, sections[0]);
    PlaceInFront(lines[..g], walked, later, inv, undoLater, gaps);
    assert lines == lines[..g] + m + rest;
  }

  /** A hunk placed exactly behind `head` in front of an already placed tail. */
  lemma PlaceInFront(head: seq<string>, block: seq<string>, tail: seq<string>, sec: Section,
                     sections: seq<Section>, gaps: seq<nat>)
    requires gaps != [] && gaps[0] == |head| && Before(sec) == block
    requires Placed(Exact, tail, sections, gaps[1..])
    ensures Placed(Exact, head + block + tail, [sec] + sections, gaps)
    ensures Rebuilt(head + block + tail, [sec] + sections, gaps)
      == head + Walked(block, sec) + Rebuilt(tail, sections, gaps[1..])
  {
    hide Before, Walked;
    var all := head + block + tail;
    var g, b := |head|, |block|;
    assert all[..g] == head && all[g..g + b] == block && all[g + b..] == tail;
    assert ([sec] + sections)[1..] == sections;
    assert forall k | 0 <= k < b :: all[g + k] == block[k];
  }

  // ---- from lines back to text ----

  function Separator(orig: string): string {
    if Contains(orig, "\r\n") then "\r\n" else "\n"
  }

  /** Join with the file's line ending, ended like the file was. */
  function Assembled(orig: string, out: seq<string>): string {
    var joined := Join(out, Separator(orig));
    if EndsWith(orig, "\n") && joined != "" then joined + Separator(orig) else joined
  }

  /** `apply_update`. */
  function Updated(orig: string, sections: seq<Section>): Result<string, seq<string>> {
    match Output(Lines(orig), sections, 0)
    case Ok(out) => Ok(Assembled(orig, out))
    case Err(e) => Err(e)
  }

  method ApplyUpdate(orig: string, sections: seq<Section>) returns (r: Result<string, seq<string>>)
    ensures r == Updated(orig, sections)
  {
    var out := ApplySections(Lines(orig), sections);
    if out.Err? { return Err(out.error); }
    var sep := if Contains(orig, "\r\n") then "\r\n" else "\n";
    var result := Join(out.value, sep);
    if EndsWith(orig, "\n") && result != "" {
      result := result + sep;
    }
    r := Ok(result);
  }

  /** A line that reads back as it is when `sep` ends it: a carriage return at its own end
      would become part of a plain newline. */
  predicate IsCleanLine(l: string, sep: string) {
    '\n' !in l && (sep == "\n" ==> l == "" || l[|l| - 1] != '\r')
  }

  /** Lines that keep their text when joined with `sep`. */
  predicate Joinable(out: seq<string>, sep: string) {
    (sep == "\n" || sep == "\r\n") && forall l | l in out :: IsCleanLine(l, sep)
  }

  lemma LinesOfOne(line: string)
    requires '\n' !in line
    ensures Lines("") == [] && Lines(line) == if line == "" then [] else [line]
  {
  }

  lemma JoinStep(out: seq<string>, sep: string, end: string)
    requires |out| > 1
    ensures Join(out, sep) + end == out[0] + sep + (Join(out[1..], sep) + end)
  {
    ConcatAssoc(out[0] + sep, Join(out[1..], sep), end);
  }

  lemma {:induction false} LinesOfEnded(out: seq<string>, sep: string)
    requires out != [] && Joinable(out, sep)
    ensures Lines(Join(out, sep) + sep) == out
  {
    hide Lines;
    assert out[0] in out && forall l :: l in out[1..] ==> l in out;
    if |out| == 1 {
      LinesOfOne("");
      LinesCons(out[0], sep, "");
      assert Join(out, sep) + sep == out[0] + sep + "";
    } else {
      LinesOfEnded(out[1..], sep);
      LinesCons(out[0], sep, Join(out[1..], sep) + sep);
      JoinStep(out, sep, sep);
    }
    assert out == [out[0]] + out[1..];
  }

  lemma {:induction false} LinesOfUnended(out: seq<string>, sep: string)
    requires Joinable(out, sep)
    ensures Lines(Join(out, sep)) == if out != [] && out[|out| - 1] == "" then out[..|out| - 1] else out
  {
    hide Lines;
    LinesOfOne("");
    if |out| == 1 {
      assert out[0] in out;
      LinesOfOne(out[0]);
    } else if |out| > 1 {
      assert out[0] in out && forall l :: l in out[1..] ==> l in out;
      LinesOfUnended(out[1..], sep);
      LinesCons(out[0], sep, Join(out[1..], sep));
      assert out == [out[0]] + out[1..];
    }
  }

  /** The written text has exactly the lines built, except that a blank last line is lost
      when the file did not end in a newline or when it is the only line. */
  lemma AssembledHasItsLinesIff(orig: string, out: seq<string>)
    requires Joinable(out, Separator(orig))
    ensures Lines(Assembled(orig, out)) == out <==>
      !(out != [] && out[|out| - 1] == "" && (!EndsWith(orig, "\n") || |out| == 1))
  {
    var sep := Separator(orig);
    LinesOfUnended(out, sep);
    if out != [] { LinesOfEnded(out, sep); }
    JoinIsEmpty(out, sep);
  }

  /** Adding a blank line behind the only line of a file that does not end in a newline
      succeeds, and what is written reads back as that one line. */
  lemma BlankLastLineIsLost(line: string)
    requires line != "" && IsCleanLine(line, "\n")
    ensures var sections := [[Line(Ctx, line), Line(Ins, "")]];
      && Output(Lines(line), sections, 0) == Ok([line, ""])
      && Updated(line, sections) == Ok(line + "\n")
      && Lines(line + "\n") == [line]
  {
    var sec := [Line(Ctx, line), Line(Ins, "")];
    assert !Contains(line, "\r\n") by { NoNewlineNoCrLf(line); }
    LinesOfOne(line);
    LinesCons(line, "\n", "");
    assert line + "\n" + "" == line + "\n" && Lines("") == [];
    OneLineOutput(line, sec);
    assert Join([line, ""], "\n") == line + "\n" by { assert [line, ""][1..] == [""]; }
    assert !EndsWith(line, "\n") by { EndsWithChar(line, '\n'); }
  }

  lemma NoNewlineNoCrLf(line: string)
    requires '\n' !in line
    ensures !Contains(line, "\r\n")
  {
    forall i: nat ensures !OccursAt(line, "\r\n", i) {
      if i + 2 <= |line| { assert line[i..i + 2][1] == line[i + 1] != '\n'; }
    }
  }

  lemma OneLineOutput(line: string, sec: Section)
    requires sec == [Line(Ctx, line), Line(Ins, "")]
    ensures Output([line], [sec], 0) == Ok([line, ""])
  {
    hide Trim, TrimEnd;
    assert sec[1..] == [Line(Ins, "")] && sec[1..][1..] == [];
    assert Before(sec) == [line] && Before(sec[1..]) == [];
    assert MatchAt(Exact, [line], [line], 0);
    assert FoundContext([line], [line], 0) == Some(0);
    assert [line][0..1] == [line] && [line][1..] == [];
    assert Walked([line], sec) == [line] + Walked([], sec[1..]) == [line, ""];
    assert [line][0..0] == [] && Output([line], [], 1) == Ok([]);
    assert [sec][1..] == [] && [] + [line, ""] + [] == [line, ""];
  }

  lemma JoinIsEmpty(out: seq<string>, sep: string)
    requires sep != ""
    ensures Join(out, sep) == "" <==> out == [] || out == [""]
  {
  }

  // ---- where the lines come from ----

  predicate CleanSections(sections: seq<Section>, sep: string) {
    forall s, l | s in sections && l in s :: IsCleanLine(l.text, sep)
  }

  lemma OccursPastPrefix(s: string, i: nat, part: string, k: nat)
    requires i <= |s| && OccursAt(s[i..], part, k)
    ensures OccursAt(s, part, i + k)
  {
    assert s[i + k..i + k + |part|] == s[i..][k..k + |part|];
  }

  lemma SuffixContains(s: string, i: nat, part: string)
    requires i <= |s|
    ensures Contains(s[i..], part) ==> Contains(s, part)
  {
    hide OccursAt;
    var rest := s[i..];
    if Contains(rest, part) {
      var k: nat :| k <= |rest| && OccursAt(rest, part, k);
      OccursPastPrefix(s, i, part, k);
    }
  }

  lemma EndsWithChar(s: string, c: char)
    ensures EndsWith(s, [c]) <==> s != "" && s[|s| - 1] == c
  {
    assert s != "" ==> s[|s| - 1..] == [s[|s| - 1]];
  }

  lemma CrBeforeNewline(s: string, i: nat)
    requires i < |s| && s[i] == '\n'
    ensures i > 0 && s[i - 1] == '\r' ==> Contains(s, "\r\n")
  {
    if i > 0 && s[i - 1] == '\r' {
      assert s[i - 1..i + 1] == "\r\n";
      assert OccursAt(s, "\r\n", i - 1);
    }
  }

  lemma {:induction false} NoCrAtLineEnds(s: string)
    requires !Contains(s, "\r\n") && !EndsWith(s, "\r")
    ensures forall l | l in Lines(s) :: IsCleanLine(l, "\n")
  {
    hide Contains, EndsWith;
    EndsWithChar(s, '\r');
    if '\n' in s {
      var i := IndexOf(s, '\n');
      CrBeforeNewline(s, i);
      SuffixContains(s, i + 1, "\r\n");
      EndsWithChar(s[i + 1..], '\r');
      NoCrAtLineEnds(s[i + 1..]);
    }
  }

  lemma {:induction false} WalkedFrom(m: seq<string>, sec: Section)
    requires |m| == |Before(sec)|
    ensures forall l | l in Walked(m, sec) :: l in m || exists k :: 0 <= k < |sec| && sec[k].text == l
    decreases |sec|
  {
    if sec != [] {
      WalkedFrom(if sec[0].op.Ins? then m else m[1..], sec[1..]);
      assert forall k | 0 <= k < |sec| - 1 :: sec[1..][k] == sec[k + 1];
    }
  }

  lemma {:induction false} RebuiltIsClean(lines: seq<string>, sections: seq<Section>, gaps: seq<nat>, sep: string)
    requires Fits(lines, sections, gaps) && CleanSections(sections, sep)
    requires forall l | l in lines :: IsCleanLine(l, sep)
    ensures forall l | l in Rebuilt(lines, sections, gaps) :: IsCleanLine(l, sep)
    decreases |sections|
  {
    hide IsCleanLine, Walked, Before;
    if sections != [] {
      var g, b := gaps[0], |Before(sections[0])|;
      WalkedFrom(lines[g..g + b], sections[0]);
      assert sections[0] in sections && forall s :: s in sections[1..] ==> s in sections;
      forall l | l in Walked(lines[g..g + b], sections[0]) ensures IsCleanLine(l, sep) {
        if l !in lines[g..g + b] {
          var k :| 0 <= k < |sections[0]| && sections[0][k].text == l;
          assert sections[0][k] in sections[0];
        }
      }
      RebuiltIsClean(lines[g + b..], sections[1..], gaps[1..], sep);
    }
  }

  /** The lines of a file read back as they are with the separator the file is written with,
      unless a lone carriage return ends a file of plain newlines. */
  lemma LinesAreClean(orig: string)
    requires Contains(orig, "\r\n") || !EndsWith(orig, "\r")
    ensures Joinable(Lines(orig), Separator(orig))
  {
    if !Contains(orig, "\r\n") { NoCrAtLineEnds(orig); }
  }

  /** The whole contract of a successful update: hunks are placed in order, the rebuilt lines
      differ from the file's by exactly their insertions and deletions, and reading the
      written text back gives the rebuilt lines, unless a blank last line is lost. */
  lemma UpdateIsFaithful(orig: string, sections: seq<Section>) returns (gaps: seq<nat>)
    requires Updated(orig, sections).Ok? && CleanSections(sections, Separator(orig))
    requires Contains(orig, "\r\n") || !EndsWith(orig, "\r")
    ensures BestPlaced(Lines(orig), sections, 0, gaps) && Placed(AllWs, Lines(orig), sections, gaps)
    ensures var out := Rebuilt(Lines(orig), sections, gaps);
      && Accounts(AllWs, Script(Lines(orig), sections, gaps), Lines(orig), out,
                  AllOpTexts(sections, Ins), AllOpTexts(sections, Del))
      && |out| + |AllOpTexts(sections, Del)| == |Lines(orig)| + |AllOpTexts(sections, Ins)|
    ensures var out := Rebuilt(Lines(orig), sections, gaps);
      Lines(Updated(orig, sections).value) == out <==>
        !(out != [] && out[|out| - 1] == "" && (!EndsWith(orig, "\n") || |out| == 1))
  {
    hide Placed, Walked, Before, MatchAt, LineMatches, Script;
    assert Lines(orig)[0..] == Lines(orig);
    gaps := OutputIsRebuilt(Lines(orig), sections, 0);
    LinesAreClean(orig);
    PlacedFits(AllWs, Lines(orig), sections, gaps);
    ScriptIsExact(AllWs, Lines(orig), sections, gaps);
    ScriptCounts(Script(Lines(orig), sections, gaps));
    RebuiltIsClean(Lines(orig), sections, gaps, Separator(orig));
    AssembledHasItsLinesIff(orig, Rebuilt(Lines(orig), sections, gaps));
  }

  ghost predicate HasPlaces(orig: string, sections: seq<Section>) {
    exists gaps: seq<nat> :: BestPlaced(Lines(orig), sections, 0, gaps)
  }

  /** An update fails exactly when some hunk is stuck, and names the first such hunk's lines. */
  lemma UpdateFailsIff(orig: string, sections: seq<Section>)
    ensures Updated(orig, sections).Err? <==> exists gaps: seq<nat> :: Stuck(Lines(orig), sections, 0, gaps)
    ensures Updated(orig, sections).Ok? <==> HasPlaces(orig, sections)
    ensures forall gaps: seq<nat> | Stuck(Lines(orig), sections, 0, gaps) ::
      |gaps| < |sections| && Updated(orig, sections) == Err(Before(sections[|gaps|]))
  {
    hide Output, Stuck, BestPlaced, Before, Rebuilt;
    if Updated(orig, sections).Ok? {
      var gaps := OutputIsRebuilt(Lines(orig), sections, 0);
      assert BestPlaced(Lines(orig), sections, 0, gaps);
    } else {
      var gaps := ErrorIsStuck(Lines(orig), sections, 0);
      assert Stuck(Lines(orig), sections, 0, gaps);
    }
    forall gaps: seq<nat>
      ensures BestPlaced(Lines(orig), sections, 0, gaps) ==> Updated(orig, sections).Ok?
      ensures Stuck(Lines(orig), sections, 0, gaps) ==>
        |gaps| < |sections| && Updated(orig, sections) == Err(Before(sections[|gaps|]))
    {
      PlacementDecides(Lines(orig), sections, 0, gaps);
    }
  }

  lemma PlacedFits(level: Level, lines: seq<string>, sections: seq<Section>, gaps: seq<nat>)
    requires Placed(level, lines, sections, gaps)
    ensures Fits(lines, sections, gaps)
  {
  }

  // ---- line ends ----

  /** Every line end is the one the file is written with. */
  predicate UniformEnds(s: string, sep: string) {
    forall i | 0 <= i < |s| :: s[i] == '\n' ==> (sep == "\r\n" <==> i > 0 && s[i - 1] == '\r')
  }

  /** The text of its lines, each ended; the last only if the text ends in a newline. */
  function Rejoined(s: string, sep: string): string {
    Join(Lines(s), sep) + if EndsWith(s, "\n") then sep else ""
  }

  lemma FirstEnd(s: string, sep: string) returns (first: string, rest: string)
    requires (sep == "\n" || sep == "\r\n") && UniformEnds(s, sep) && '\n' in s
    ensures s == first + sep + rest && Lines(s) == [first] + Lines(rest)
    ensures UniformEnds(rest, sep)
  {
    hide Lines, UniformEnds, StripCr;
    var i := IndexOf(s, '\n');
    EndAt(s, sep, i);
    LinesStep(s);
    RestIsUniform(s, sep, i);
    rest := s[i + 1..];
    if sep == "\r\n" {
      first := s[..i - 1];
      assert s[..i] == first + "\r";
      assert s == first + "\r\n" + rest;
    } else {
      first := s[..i];
      assert s == first + "\n" + rest;
    }
    StripCrOf(first, s[..i]);
  }

  lemma EndAt(s: string, sep: string, i: nat)
    requires UniformEnds(s, sep) && i < |s| && s[i] == '\n'
    ensures sep == "\r\n" <==> i > 0 && s[i - 1] == '\r'
  {
  }

  lemma RestIsUniform(s: string, sep: string, i: nat)
    requires UniformEnds(s, sep) && i < |s| && s[i] == '\n'
    ensures UniformEnds(s[i + 1..], sep)
  {
    var rest := s[i + 1..];
    forall k | 0 <= k < |rest| && rest[k] == '\n' ensures sep == "\r\n" <==> k > 0 && rest[k - 1] == '\r' {
      assert s[i + 1 + k] == '\n' && s[i + 1 + k - 1] == if k > 0 then rest[k - 1] else '\n';
    }
  }

  lemma {:induction false} RejoinedIsSame(s: string, sep: string)
    requires (sep == "\n" || sep == "\r\n") && UniformEnds(s, sep)
    ensures Rejoined(s, sep) == s
    decreases |s|
  {
    EndsWithChar(s, '\n');
    if '\n' !in s {
      assert s + "" == s;
    } else {
      hide Lines, UniformEnds, EndsWith;
      var first, rest := FirstEnd(s, sep);
      RejoinedIsSame(rest, sep);
      EndsWithChar(rest, '\n');
      LinesOfOne("");
      RejoinStep(first, sep, rest, s);
    }
  }

  lemma RejoinStep(first: string, sep: string, rest: string, s: string)
    requires s == first + sep + rest && Lines(s) == [first] + Lines(rest) && sep != "" && sep[|sep| - 1] == '\n'
    requires Rejoined(rest, sep) == rest && (Lines(rest) == [] <==> rest == "")
    ensures Rejoined(s, sep) == s
  {
    hide Lines;
    EndsWithChar(s, '\n');
    EndsWithChar(rest, '\n');
    assert ([first] + Lines(rest))[1..] == Lines(rest);
    if rest == "" {
      assert s[|s| - 1] == '\n' && s == first + sep;
    } else {
      assert s[|s| - 1] == rest[|rest| - 1];
      var end := if EndsWith(rest, "\n") then sep else "";
      assert Join(Lines(s), sep) + end == first + sep + (Join(Lines(rest), sep) + end);
    }
  }

  lemma {:induction false} CrLfJoinIsUniform(lines: seq<string>)
    requires forall l | l in lines :: '\n' !in l
    ensures UniformEnds(Join(lines, "\r\n"), "\r\n") && UniformEnds(Join(lines, "\r\n") + "\r\n", "\r\n")
  {
    hide UniformEnds;
    if lines == [] {
      NoEndsAreUniform("");
      EndedIsUniform("");
      assert "" + "\r\n" == "\r\n";
    } else if |lines| == 1 {
      assert lines[0] in lines;
      NoEndsAreUniform(lines[0]);
      EndedIsUniform(lines[0]);
    } else {
      assert lines[0] in lines && forall l | l in lines[1..] :: l in lines;
      var rest := Join(lines[1..], "\r\n");
      CrLfJoinIsUniform(lines[1..]);
      EndedIsUniform(lines[0]);
      UniformConcat(lines[0] + "\r\n", rest);
      UniformConcat(lines[0] + "\r\n", rest + "\r\n");
      ConcatAssoc(lines[0] + "\r\n", rest, "\r\n");
    }
  }

  lemma NoEndsAreUniform(s: string)
    requires '\n' !in s
    ensures UniformEnds(s, "\r\n")
  {
  }

  lemma EndedIsUniform(s: string)
    requires '\n' !in s
    ensures UniformEnds(s + "\r\n", "\r\n")
  {
    var t := s + "\r\n";
    assert forall i | 0 <= i < |s| :: t[i] == s[i] != '\n';
    assert t[|s|] == '\r' && t[|s| + 1] == '\n';
  }

  lemma UniformConcat(a: string, b: string)
    requires UniformEnds(a, "\r\n") && UniformEnds(b, "\r\n")
    ensures UniformEnds(a + b, "\r\n")
  {
    var t := a + b;
    forall i | 0 <= i < |t| && t[i] == '\n' ensures i > 0 && t[i - 1] == '\r' {
      if i < |a| {
        assert a[i] == '\n' && t[i - 1] == a[i - 1];
      } else {
        assert b[i - |a|] == '\n';
        assert t[i - 1] == b[i - |a| - 1];
      }
    }
  }

  /** Without CRLF anywhere, every line end is a plain newline. */
  lemma PlainIsUniform(s: string)
    requires !Contains(s, "\r\n")
    ensures UniformEnds(s, "\n")
  {
    forall i | 0 <= i < |s| && s[i] == '\n' ensures !(i > 0 && s[i - 1] == '\r') {
      CrBeforeNewline(s, i);
    }
  }

  /** Writing a file back without a change gives the same text exactly when all its line ends
      are alike and it is not one line end and nothing else. */
  lemma UntouchedTextIsSameIff(orig: string)
    ensures Assembled(orig, Lines(orig)) == orig <==>
      UniformEnds(orig, Separator(orig)) && orig != Separator(orig)
  {
    hide UniformEnds, Contains, EndsWith, Lines;
    var sep := Separator(orig);
    if UniformEnds(orig, sep) {
      RejoinedIsSame(orig, sep);
      EndsWithChar(orig, '\n');
    } else if sep == "\n" {
      PlainIsUniform(orig);
    } else {
      CrLfJoinIsUniform(Lines(orig));
    }
  }
}

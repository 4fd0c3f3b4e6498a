/** Stripping tool-call markup that leaked into a message as text: a nested-tag matcher
    with a depth counter inside an outer scan. */
module ToolRepair {
  import opened Text

  // ---- tokens ----

  function OpenTag(tag: string): string { "<" + tag }

  function CloseTag(tag: string): string { "</" + tag + ">" }

  /** A tag name: both of its tokens have their only `<` in front, and they differ behind it. */
  predicate IsTag(tag: string) {
    tag != "" && '<' !in tag && tag[0] != '/'
  }

  /** A real opener: `<tag` followed by `>`, blank, `/` or the end of the text. */
  predicate OpensAt(s: string, tag: string, p: nat) {
    OccursAt(s, OpenTag(tag), p) &&
    (p + |OpenTag(tag)| == |s| || s[p + |OpenTag(tag)|] in {'>', ' ', '\t', '\n', '/'})
  }

  predicate ClosesAt(s: string, tag: string, p: nat) {
    OccursAt(s, CloseTag(tag), p)
  }

  /** `str::find` from a position on. */
  function FindSub(s: string, part: string, from: nat): (r: Option<nat>)
    ensures r.Some? ==> from <= r.value && OccursAt(s, part, r.value)
    ensures forall p | from <= p && (r.Some? ==> p < r.value) :: !OccursAt(s, part, p)
    decreases |s| - from
  {
    if from + |part| > |s| then None
    else if OccursAt(s, part, from) then Some(from)
    else FindSub(s, part, from + 1)
  }

  /** First opener at or after `from`. */
  ghost predicate IsFirstOpen(s: string, tag: string, from: nat, r: Option<nat>) {
    (r.Some? ==> from <= r.value && OpensAt(s, tag, r.value))
    && forall p | from <= p && (r.Some? ==> p < r.value) :: !OpensAt(s, tag, p)
  }

  lemma OccurrenceChar(s: string, part: string, p: nat, k: nat)
    requires k < |part|
    ensures OccursAt(s, part, p) ==> p + k < |s| && s[p + k] == part[k]
  {
    if OccursAt(s, part, p) { assert s[p..p + |part|][k] == s[p + k]; }
  }

  lemma TokenInterior(s: string, tag: string, token: string, p: nat, k: nat)
    requires IsTag(tag) && (token == OpenTag(tag) || token == CloseTag(tag))
    requires OccursAt(s, token, p) && p < k < p + |token|
    ensures !OpensAt(s, tag, k) && !ClosesAt(s, tag, k)
  {
    OccurrenceChar(s, token, p, k - p);
    OccurrenceChar(s, OpenTag(tag), k, 0);
    OccurrenceChar(s, CloseTag(tag), k, 0);
  }

  lemma NotBoth(s: string, tag: string, p: nat)
    requires IsTag(tag)
    ensures !(OpensAt(s, tag, p) && ClosesAt(s, tag, p))
  {
    OccurrenceChar(s, OpenTag(tag), p, 1);
    OccurrenceChar(s, CloseTag(tag), p, 1);
  }

  /** `find_open`: step over look-alikes such as `<tag_more`. */
  method FindOpen(s: string, tag: string, start: nat) returns (r: Option<nat>)
    requires IsTag(tag) && start <= |s|
    ensures IsFirstOpen(s, tag, start, r)
  {
    var open := OpenTag(tag);
    var from := start;
    while true
      invariant start <= from <= |s|
      invariant forall p | start <= p < from :: !OpensAt(s, tag, p)
      decreases |s| - from
    {
      var pos := FindSub(s, open, from);
      if pos.None? { return None; }
      var after := pos.value + |open|;
      if after == |s| || s[after] in {'>', ' ', '\t', '\n', '/'} { return pos; }
      forall p | pos.value < p < after ensures !OpensAt(s, tag, p) {
        TokenInterior(s, tag, open, pos.value, p);
      }
      from := after;
    }
  }

  // ---- depth ----

  /** Openers less closers at positions from `a` up to `p`. */
  function Depth(s: string, tag: string, a: nat, p: nat): int
    decreases p - a
  {
    if p <= a then 0
    else Depth(s, tag, a, p - 1) + (if OpensAt(s, tag, p - 1) then 1 else 0) - (if ClosesAt(s, tag, p - 1) then 1 else 0)
  }

  /** Past `a`, the depth has not come back to zero by `p`. */
  ghost predicate StaysOpen(s: string, tag: string, a: nat, p: nat) {
    forall q | a < q <= p :: Depth(s, tag, a, q) > 0
  }

  lemma {:induction false} DepthConstant(s: string, tag: string, a: nat, p: nat, q: nat)
    requires a <= p <= q && forall k | p <= k < q :: !OpensAt(s, tag, k) && !ClosesAt(s, tag, k)
    ensures Depth(s, tag, a, q) == Depth(s, tag, a, p)
    decreases q - p
  {
    if p < q {
      DepthConstant(s, tag, a, p, q - 1);
    }
  }

  lemma StaysOpenOver(s: string, tag: string, a: nat, p: nat, q: nat)
    requires a < p <= q && StaysOpen(s, tag, a, p)
    requires forall k | p <= k < q :: !OpensAt(s, tag, k) && !ClosesAt(s, tag, k)
    ensures StaysOpen(s, tag, a, q) && Depth(s, tag, a, q) == Depth(s, tag, a, p)
  {
    hide OpensAt, ClosesAt, Depth;
    DepthConstant(s, tag, a, p, q);
    forall r | p < r <= q ensures Depth(s, tag, a, r) > 0 {
      DepthConstant(s, tag, a, p, r);
    }
  }

  /** Across one token, all of its length. */
  lemma DepthOverToken(s: string, tag: string, token: string, a: nat, p: nat)
    requires IsTag(tag) && (token == OpenTag(tag) || token == CloseTag(tag)) && a <= p
    requires if token == OpenTag(tag) then OpensAt(s, tag, p) else ClosesAt(s, tag, p)
    ensures var d := Depth(s, tag, a, p) + if token == OpenTag(tag) then 1 else -1;
      Depth(s, tag, a, p + 1) == d && forall k | p < k <= p + |token| :: Depth(s, tag, a, k) == d
  {
    NotBoth(s, tag, p);
    OpenAndCloseDiffer(tag);
    forall k | p < k < p + |token| ensures !OpensAt(s, tag, k) && !ClosesAt(s, tag, k) {
      TokenInterior(s, tag, token, p, k);
    }
    forall k | p < k <= p + |token| ensures Depth(s, tag, a, k) == Depth(s, tag, a, p + 1) {
      hide OpensAt, ClosesAt, Depth;
      DepthConstant(s, tag, a, p + 1, k);
    }
  }

  lemma OpenAndCloseDiffer(tag: string)
    requires IsTag(tag)
    ensures OpenTag(tag) != CloseTag(tag)
  {
    assert OpenTag(tag)[1] != CloseTag(tag)[1];
  }

  // ---- balanced blocks ----

  /** From the opener at `a` to the end of the closer at which the depth first is zero. */
  ghost predicate Balanced(s: string, tag: string, a: nat, e: nat) {
    a + |CloseTag(tag)| < e <= |s| &&
    var c := e - |CloseTag(tag)|;
    OpensAt(s, tag, a) && ClosesAt(s, tag, c) && StaysOpen(s, tag, a, c) && Depth(s, tag, a, c + 1) == 0
  }

  ghost predicate Unbalanced(s: string, tag: string, a: nat) {
    OpensAt(s, tag, a) && StaysOpen(s, tag, a, |s|)
  }

  lemma BalancedOnce(s: string, tag: string, a: nat, e: nat, f: nat)
    requires Balanced(s, tag, a, e)
    ensures Balanced(s, tag, a, f) ==> e == f
    ensures !Unbalanced(s, tag, a)
  {
    hide OpensAt, ClosesAt, Depth;
    var c, d := e - |CloseTag(tag)|, f - |CloseTag(tag)|;
    assert Depth(s, tag, a, c + 1) == 0;
    assert Balanced(s, tag, a, f) ==> Depth(s, tag, a, d + 1) == 0;
  }

  lemma {:induction false} NoMoreClosers(s: string, tag: string, a: nat, p: nat, q: nat)
    requires a < p <= q && StaysOpen(s, tag, a, p) && forall k | p <= k :: !ClosesAt(s, tag, k)
    ensures StaysOpen(s, tag, a, q) && Depth(s, tag, a, q) >= Depth(s, tag, a, p)
    decreases q - p
  {
    hide OpensAt, ClosesAt;
    if p < q {
      NoMoreClosers(s, tag, a, p, q - 1);
    }
  }

  /** Follow the tokens from an opener: the end of its block, or `None` if it never closes. */
  method MatchBlock(s: string, tag: string, start: nat) returns (end: Option<nat>)
    requires IsTag(tag) && OpensAt(s, tag, start)
    ensures end.Some? ==> Balanced(s, tag, start, end.value)
    ensures end.None? ==> Unbalanced(s, tag, start)
  {
    hide OpensAt, ClosesAt, Depth;
    var open, close := OpenTag(tag), CloseTag(tag);
    var depth, scan := 1, start + |open|;
    OpenerInside(s, tag, start);
    DepthAtOpener(s, tag, start);
    while depth > 0
      invariant start + |open| <= scan <= |s|
      invariant depth == Depth(s, tag, start, scan) && depth > 0 && StaysOpen(s, tag, start, scan)
      decreases |s| - scan
    {
      var nextOpen := FindOpen(s, tag, scan);
      var nextClose := FindClose(s, tag, scan);
      if nextOpen.Some? && nextClose.Some? && nextOpen.value < nextClose.value {
        OpenerInside(s, tag, nextOpen.value);
        StaysOpenOver(s, tag, start, scan, nextOpen.value);
        DepthOverToken(s, tag, open, start, nextOpen.value);
        depth := depth + 1;
        scan := nextOpen.value + |open|;
      } else if nextClose.Some? {
        CloserInside(s, tag, nextClose.value);
        NextIsCloser(s, tag, scan, nextOpen, nextClose.value);
        StaysOpenOver(s, tag, start, scan, nextClose.value);
        OpenAndCloseDiffer(tag);
        DepthOverToken(s, tag, close, start, nextClose.value);
        depth := depth - 1;
        scan := nextClose.value + |close|;
        if depth == 0 { return Some(scan); }
      } else {
        NoMoreClosers(s, tag, start, scan, |s|);
        return None;
      }
    }
    end := None;
  }

  method FindClose(s: string, tag: string, from: nat) returns (r: Option<nat>)
    ensures r.Some? ==> from <= r.value && ClosesAt(s, tag, r.value)
    ensures forall p | from <= p && (r.Some? ==> p < r.value) :: !ClosesAt(s, tag, p)
  {
    r := FindSub(s, CloseTag(tag), from);
  }

  lemma OpenerInside(s: string, tag: string, p: nat)
    requires OpensAt(s, tag, p)
    ensures p + |OpenTag(tag)| <= |s|
  {
  }

  lemma CloserInside(s: string, tag: string, p: nat)
    requires ClosesAt(s, tag, p)
    ensures p + |CloseTag(tag)| <= |s|
  {
  }

  lemma DepthAtOpener(s: string, tag: string, a: nat)
    requires IsTag(tag) && OpensAt(s, tag, a)
    ensures Depth(s, tag, a, a + |OpenTag(tag)|) == 1 && StaysOpen(s, tag, a, a + |OpenTag(tag)|)
  {
    DepthOverToken(s, tag, OpenTag(tag), a, a);
    assert Depth(s, tag, a, a) == 0;
  }

  lemma NextIsCloser(s: string, tag: string, scan: nat, nextOpen: Option<nat>, c: nat)
    requires IsTag(tag) && IsFirstOpen(s, tag, scan, nextOpen) && (nextOpen.Some? ==> c <= nextOpen.value)
    requires forall p | scan <= p < c :: !ClosesAt(s, tag, p)
    ensures forall p | scan <= p < c :: !OpensAt(s, tag, p) && !ClosesAt(s, tag, p)
  {
  }

  // ---- what is cut ----

  /** The blocks cut from `from` on: each starts at the next opener and ends where its depth
      first returns to zero; behind the last there is no opener, or one that never closes. */
  ghost predicate AreCuts(s: string, tag: string, from: nat, cuts: seq<(nat, nat)>)
    decreases |cuts|
  {
    from <= |s| &&
    if cuts == [] then
      exists r :: IsFirstOpen(s, tag, from, r) && (r.Some? ==> Unbalanced(s, tag, r.value))
    else
      IsFirstOpen(s, tag, from, Some(cuts[0].0)) && Balanced(s, tag, cuts[0].0, cuts[0].1)
      && AreCuts(s, tag, cuts[0].1, cuts[1..])
  }

  /** The text from `from` on without the cut intervals. */
  ghost function Without(s: string, from: nat, cuts: seq<(nat, nat)>): string
    decreases |cuts|
  {
    if cuts == [] then (if from <= |s| then s[from..] else "")
    else (if from <= cuts[0].0 <= |s| then s[from..cuts[0].0] else "") + Without(s, cuts[0].1, cuts[1..])
  }

  lemma {:induction false} CutsAreUnique(s: string, tag: string, from: nat, a: seq<(nat, nat)>, b: seq<(nat, nat)>)
    requires AreCuts(s, tag, from, a)
    ensures AreCuts(s, tag, from, b) ==> a == b
    decreases |a|
  {
    hide OpensAt, Balanced, Unbalanced;
    if !AreCuts(s, tag, from, b) { return; }
    if a == [] && b != [] {
      BalancedOnce(s, tag, b[0].0, b[0].1, 0);
    } else if a != [] {
      BalancedOnce(s, tag, a[0].0, a[0].1, if b == [] then 0 else b[0].1);
      if b != [] {
        CutsAreUnique(s, tag, a[0].1, a[1..], b[1..]);
        assert a == [a[0]] + a[1..] && b == [b[0]] + b[1..];
      }
    }
  }

  /** Disjoint, in order, and inside the text. */
  lemma {:induction false} CutsAreDisjoint(s: string, tag: string, from: nat, cuts: seq<(nat, nat)>)
    requires AreCuts(s, tag, from, cuts)
    ensures forall k | 0 <= k < |cuts| :: from <= cuts[k].0 < cuts[k].1 <= |s|
    ensures forall j, k | 0 <= j < k < |cuts| :: cuts[j].1 <= cuts[k].0
    decreases |cuts|
  {
    hide OpensAt, ClosesAt, StaysOpen, Depth, IsFirstOpen;
    if cuts != [] {
      FirstOpenAhead(s, tag, from, cuts[0].0);
      CutsAreDisjoint(s, tag, cuts[0].1, cuts[1..]);
      assert forall k | 0 < k < |cuts| :: cuts[k] == cuts[1..][k - 1];
    }
  }

  lemma FirstOpenAhead(s: string, tag: string, from: nat, a: nat)
    requires IsFirstOpen(s, tag, from, Some(a))
    ensures from <= a
  {
  }

  ghost predicate StripsTo(s: string, tag: string, out: string) {
    exists cuts :: AreCuts(s, tag, 0, cuts) && out == Without(s, 0, cuts)
  }

  /** Positions in a tail of the text. */
  lemma TailTokens(s: string, tag: string, base: nat, p: nat)
    requires base <= |s|
    ensures OpensAt(s[base..], tag, p) == OpensAt(s, tag, base + p)
    ensures ClosesAt(s[base..], tag, p) == ClosesAt(s, tag, base + p)
  {
    var n, m := |OpenTag(tag)|, |CloseTag(tag)|;
    assert base + p + n <= |s| ==> s[base..][p..p + n] == s[base + p..base + p + n];
    assert base + p + m <= |s| ==> s[base..][p..p + m] == s[base + p..base + p + m];
  }

  lemma {:induction false} TailDepth(s: string, tag: string, base: nat, a: nat, p: nat)
    requires base <= |s|
    ensures Depth(s[base..], tag, a, p) == Depth(s, tag, base + a, base + p)
    decreases p
  {
    hide OpensAt, ClosesAt;
    if p > a {
      TailTokens(s, tag, base, p - 1);
      TailDepth(s, tag, base, a, p - 1);
    }
  }

  lemma TailStaysOpen(s: string, tag: string, base: nat, a: nat, p: nat)
    requires base <= |s| && StaysOpen(s[base..], tag, a, p)
    ensures StaysOpen(s, tag, base + a, base + p)
  {
    hide OpensAt, ClosesAt, Depth;
    var b := base + a;
    forall q | b < q <= base + p ensures Depth(s, tag, b, q) > 0 {
      TailDepth(s, tag, base, a, q - base);
    }
  }

  lemma TailFirstOpen(s: string, tag: string, base: nat, r: Option<nat>)
    requires base <= |s| && IsFirstOpen(s[base..], tag, 0, r)
    ensures IsFirstOpen(s, tag, base, if r.Some? then Some(base + r.value) else None)
  {
    hide OpensAt;
    forall p | base <= p && (r.Some? ==> p < base + r.value) ensures !OpensAt(s, tag, p) {
      TailTokens(s, tag, base, p - base);
    }
    if r.Some? { TailTokens(s, tag, base, r.value); }
  }

  lemma TailBalanced(s: string, tag: string, base: nat, a: nat, e: nat)
    requires base <= |s| && Balanced(s[base..], tag, a, e)
    ensures Balanced(s, tag, base + a, base + e)
  {
    hide OpensAt, ClosesAt, Depth, StaysOpen;
    var c := e - |CloseTag(tag)|;
    TailTokens(s, tag, base, a);
    TailTokens(s, tag, base, c);
    TailStaysOpen(s, tag, base, a, c);
    TailDepth(s, tag, base, a, c + 1);
  }

  lemma TailUnbalanced(s: string, tag: string, base: nat, a: nat)
    requires base <= |s| && Unbalanced(s[base..], tag, a)
    ensures Unbalanced(s, tag, base + a)
  {
    hide OpensAt, ClosesAt, Depth, StaysOpen;
    TailTokens(s, tag, base, a);
    TailStaysOpen(s, tag, base, a, |s[base..]|);
  }

  /** `cuts` so far end at `base`; `out` is the text up to there without them. */
  ghost predicate CutSoFar(s: string, tag: string, cuts: seq<(nat, nat)>, base: nat, out: string) {
    base <= |s| &&
    forall later {:trigger AreCuts(s, tag, base, later)} | AreCuts(s, tag, base, later) ::
      AreCuts(s, tag, 0, cuts + later) && Without(s, 0, cuts + later) == out + Without(s, base, later)
  }

  lemma CutSoFarStep(s: string, tag: string, cuts: seq<(nat, nat)>, base: nat, out: string, a: nat, e: nat)
    requires CutSoFar(s, tag, cuts, base, out) && a <= |s|
    requires IsFirstOpen(s, tag, base, Some(a)) && Balanced(s, tag, a, e)
    ensures base <= a && CutSoFar(s, tag, cuts + [(a, e)], e, out + s[base..a])
  {
    hide OpensAt, ClosesAt, Depth, StaysOpen;
    FirstOpenAhead(s, tag, base, a);
    forall later | AreCuts(s, tag, e, later)
      ensures AreCuts(s, tag, 0, cuts + [(a, e)] + later)
      ensures Without(s, 0, cuts + [(a, e)] + later) == out + s[base..a] + Without(s, e, later)
    {
      var more := [(a, e)] + later;
      assert more[1..] == later;
      assert AreCuts(s, tag, base, more);
      ConcatAssoc(cuts, [(a, e)], later);
      ConcatAssoc(out, s[base..a], Without(s, e, later));
    }
  }

  lemma NothingCutYet(s: string, tag: string)
    ensures CutSoFar(s, tag, [], 0, "")
  {
    forall later | AreCuts(s, tag, 0, later)
      ensures AreCuts(s, tag, 0, [] + later) && Without(s, 0, [] + later) == "" + Without(s, 0, later)
    {
      assert [] + later == later;
    }
  }

  lemma CutsEnd(s: string, tag: string, cuts: seq<(nat, nat)>, base: nat, out: string, r: Option<nat>)
    requires CutSoFar(s, tag, cuts, base, out)
    requires IsFirstOpen(s, tag, base, r) && (r.Some? ==> Unbalanced(s, tag, r.value))
    ensures AreCuts(s, tag, 0, cuts) && Without(s, 0, cuts) == out + s[base..]
  {
    hide OpensAt, Unbalanced;
    assert AreCuts(s, tag, base, []);
    assert cuts + [] == cuts;
  }

  /** The output is the text minus disjoint blocks, each from a real opener to the closer
      that first balances it; from the first opener that never closes on, all is kept. */
  method StripBalancedTag(s: string, tag: string) returns (out: string)
    requires IsTag(tag)
    ensures StripsTo(s, tag, out)
  {
    hide OpensAt, Balanced, Unbalanced, AreCuts, Without, CutSoFar, IsFirstOpen;
    out := "";
    var rest := s;
    ghost var base: nat := 0;
    ghost var cuts: seq<(nat, nat)> := [];
    NothingCutYet(s, tag);
    while true
      invariant base <= |s| && rest == s[base..]
      invariant CutSoFar(s, tag, cuts, base, out)
      decreases |rest|
    {
      var start := FindOpen(rest, tag, 0);
      TailFirstOpen(s, tag, base, start);
      if start.None? {
        CutsEnd(s, tag, cuts, base, out, None);
        return out + rest;
      }
      FirstOpenIsOpener(rest, tag, start.value);
      var before := out;
      out := out + rest[..start.value];
      var end := MatchBlock(rest, tag, start.value);
      if end.None? {
        TailUnbalanced(s, tag, base, start.value);
        CutsEnd(s, tag, cuts, base, before, Some(base + start.value));
        assert rest == rest[..start.value] + rest[start.value..];
        ConcatAssoc(before, rest[..start.value], rest[start.value..]);
        return out + rest[start.value..];
      }
      BalancedBounds(rest, tag, start.value, end.value);
      TailBalanced(s, tag, base, start.value, end.value);
      CutSoFarStep(s, tag, cuts, base, before, base + start.value, base + end.value);
      assert s[base..base + start.value] == rest[..start.value];
      cuts := cuts + [(base + start.value, base + end.value)];
      base := base + end.value;
      rest := rest[end.value..];
    }
  }

  lemma FirstOpenIsOpener(s: string, tag: string, a: nat)
    requires IsFirstOpen(s, tag, 0, Some(a))
    ensures OpensAt(s, tag, a) && a <= |s|
  {
  }

  lemma BalancedBounds(s: string, tag: string, a: nat, e: nat)
    requires Balanced(s, tag, a, e)
    ensures a < e <= |s|
  {
  }

  // ---- what comes out is shorter ----

  lemma {:induction false} WithoutShrinks(s: string, tag: string, from: nat, cuts: seq<(nat, nat)>)
    requires AreCuts(s, tag, from, cuts)
    ensures Utf8Len(Without(s, from, cuts)) <= Utf8Len(s[from..])
    ensures cuts == [] ==> Without(s, from, cuts) == s[from..]
    ensures cuts != [] ==> Utf8Len(Without(s, from, cuts)) < Utf8Len(s[from..])
    decreases |cuts|
  {
    hide OpensAt, ClosesAt, Depth, StaysOpen, IsFirstOpen, Balanced, Unbalanced, Utf8Len;
    if cuts != [] {
      var a, e := cuts[0].0, cuts[0].1;
      FirstOpenAhead(s, tag, from, a);
      BalancedBounds(s, tag, a, e);
      WithoutShrinks(s, tag, e, cuts[1..]);
      Utf8LenConcat(s[from..a], Without(s, e, cuts[1..]));
      Utf8LenConcat(s[a..e], s[e..]);
      Utf8LenConcat(s[from..a], s[a..]);
      assert s[a..] == s[a..e] + s[e..] && s[from..] == s[from..a] + s[a..];
    }
  }

  /** Stripping one tag leaves the text alone or makes it strictly shorter in bytes. */
  lemma StripsShrinks(s: string, tag: string, out: string)
    requires StripsTo(s, tag, out)
    ensures out == s || Utf8Len(out) < Utf8Len(s)
  {
    hide AreCuts, Without;
    var cuts :| AreCuts(s, tag, 0, cuts) && out == Without(s, 0, cuts);
    WithoutShrinks(s, tag, 0, cuts);
    assert s[0..] == s;
  }

  // ---- all tags, and the leak test ----

  const TAGS := ["tool_calls", "tool_call", "function_calls", "invoke"]

  ghost predicate StripsAll(s: string, tags: seq<string>, out: string)
    decreases |tags|
  {
    if tags == [] then out == s
    else exists mid :: StripsTo(s, tags[0], mid) && StripsAll(mid, tags[1..], out)
  }

  lemma {:induction false} StripsAllShrinks(s: string, tags: seq<string>, out: string)
    requires StripsAll(s, tags, out)
    ensures out == s || Utf8Len(out) < Utf8Len(s)
    decreases |tags|
  {
    hide StripsTo;
    if tags != [] {
      var mid :| StripsTo(s, tags[0], mid) && StripsAll(mid, tags[1..], out);
      StripsShrinks(s, tags[0], mid);
      StripsAllShrinks(mid, tags[1..], out);
    }
  }

  lemma {:induction false} StripsAllSnoc(s: string, tags: seq<string>, mid: string, tag: string, out: string)
    requires StripsAll(s, tags, mid) && StripsTo(mid, tag, out)
    ensures StripsAll(s, tags + [tag], out)
    decreases |tags|
  {
    hide StripsTo;
    if tags == [] {
      assert (tags + [tag])[1..] == [] && (tags + [tag])[0] == tag;
      assert StripsAll(out, [], out);
    } else {
      var first :| StripsTo(s, tags[0], first) && StripsAll(first, tags[1..], mid);
      assert (tags + [tag])[1..] == tags[1..] + [tag];
      StripsAllSnoc(first, tags[1..], mid, tag, out);
    }
  }

  lemma NoTagsYet(s: string)
    ensures StripsAll(s, TAGS[..0], s)
  {
  }

  method StripLeakedToolCalls(content: string) returns (out: string)
    ensures StripsAll(content, TAGS, out)
  {
    hide StripsAll, StripsTo;
    out := content;
    NoTagsYet(content);
    for i := 0 to |TAGS|
      invariant StripsAll(content, TAGS[..i], out)
    {
      TagsAreTags(i);
      var stripped := StripBalancedTag(out, TAGS[i]);
      StripsAllSnoc(content, TAGS[..i], out, TAGS[i], stripped);
      assert TAGS[..i + 1] == TAGS[..i] + [TAGS[i]];
      out := stripped;
    }
    assert TAGS[..|TAGS|] == TAGS;
  }

  lemma TagsAreTags(i: nat)
    requires i < |TAGS|
    ensures IsTag(TAGS[i])
  {
  }

  /** There is only one way to strip a text. */
  lemma {:induction false} StripsAllOnce(s: string, tags: seq<string>, a: string, b: string)
    requires StripsAll(s, tags, a) && StripsAll(s, tags, b)
    ensures a == b
    decreases |tags|
  {
    hide StripsTo;
    if tags != [] {
      var x :| StripsTo(s, tags[0], x) && StripsAll(x, tags[1..], a);
      var y :| StripsTo(s, tags[0], y) && StripsAll(y, tags[1..], b);
      StripsToOnce(s, tags[0], x, y);
      StripsAllOnce(x, tags[1..], a, b);
    }
  }

  lemma StripsToOnce(s: string, tag: string, a: string, b: string)
    requires StripsTo(s, tag, a) && StripsTo(s, tag, b)
    ensures a == b
  {
    hide AreCuts, Without;
    var x :| AreCuts(s, tag, 0, x) && a == Without(s, 0, x);
    var y :| AreCuts(s, tag, 0, y) && b == Without(s, 0, y);
    CutsAreUnique(s, tag, 0, x, y);
  }

  /** Markup dominates: as many bytes were cut as are left, blanks aside. */
  predicate Dominates(content: string, cleaned: string) {
    cleaned != content && Utf8Len(content) - Utf8Len(cleaned) >= Utf8Len(Trim(cleaned))
  }

  /** The stripped text if markup dominates. A changed text is strictly shorter, so the
      subtraction cannot go below zero. */
  method StripIfLeaked(content: string) returns (r: Option<string>)
    ensures exists cleaned ::
      && StripsAll(content, TAGS, cleaned)
      && (cleaned == content || Utf8Len(cleaned) < Utf8Len(content))
      && r == if Dominates(content, cleaned) then Some(cleaned) else None
  {
    hide StripsAll, Trim;
    if '<' !in content {
      NothingToStrip(content, TAGS);
      return None;
    }
    var cleaned := StripLeakedToolCalls(content);
    StripsAllShrinks(content, TAGS, cleaned);
    if cleaned == content { return None; }
    var removed := if Utf8Len(content) >= Utf8Len(cleaned) then Utf8Len(content) - Utf8Len(cleaned) else 0;
    var remaining := Utf8Len(Trim(cleaned));
    r := if remaining == 0 || removed >= remaining then Some(cleaned) else None;
  }

  lemma {:induction false} NothingToStrip(s: string, tags: seq<string>)
    requires '<' !in s
    ensures StripsAll(s, tags, s)
    decreases |tags|
  {
    if tags != [] {
      forall p: nat ensures !OpensAt(s, tags[0], p) {
        OccurrenceChar(s, OpenTag(tags[0]), p, 0);
      }
      assert IsFirstOpen(s, tags[0], 0, None);
      assert AreCuts(s, tags[0], 0, []) && Without(s, 0, []) == s;
      NothingToStrip(s, tags[1..]);
    }
  }
}

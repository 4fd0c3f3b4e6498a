/** Well-nested tool-call markup in prose, and what stripping leaves of it. */
module ToolMarkup {
  import opened Text
  import opened ToolRepair

  /** Prose, or a block with its tag, its attributes and whatever stands inside. */
  datatype Piece = Prose(text: string) | Block(tag: string, attrs: string, inside: seq<Piece>)

  function Opener(tag: string, attrs: string): string {
    OpenTag(tag) + (attrs + ">")
  }

  function PieceText(piece: Piece): string {
    match piece
    case Prose(text) => text
    case Block(tag, attrs, inside) => Opener(tag, attrs) + (PiecesText(inside) + CloseTag(tag))
  }

  function PiecesText(pieces: seq<Piece>): string {
    if pieces == [] then "" else PieceText(pieces[0]) + PiecesText(pieces[1..])
  }

  predicate IsBoundary(c: char) {
    c in {'>', ' ', '\t', '\n', '/'}
  }

  /** A name no character of which could end it. */
  predicate IsName(tag: string) {
    tag != "" && forall k | 0 <= k < |tag| :: tag[k] != '<' && !IsBoundary(tag[k])
  }

  /** No stray `<` anywhere, and attributes set off from the tag name. */
  predicate IsPiece(piece: Piece) {
    match piece
    case Prose(text) => '<' !in text
    case Block(tag, attrs, inside) =>
      IsName(tag) && '<' !in attrs && (attrs != "" ==> IsBoundary(attrs[0])) && ArePieces(inside)
  }

  predicate ArePieces(pieces: seq<Piece>) {
    pieces == [] || (IsPiece(pieces[0]) && ArePieces(pieces[1..]))
  }

  /** The pieces without the blocks of one tag, at any depth. */
  function Pruned(tag: string, pieces: seq<Piece>): seq<Piece> {
    if pieces == [] then [] else PrunedOne(tag, pieces[0]) + Pruned(tag, pieces[1..])
  }

  function PrunedOne(tag: string, piece: Piece): seq<Piece> {
    match piece
    case Prose(_) => [piece]
    case Block(t, attrs, inside) => if t == tag then [] else [Block(t, attrs, Pruned(tag, inside))]
  }

  /** `text` stands in `s` from `p` on. */
  predicate StandsAt(s: string, p: nat, text: string) {
    p + |text| <= |s| && s[p..p + |text|] == text
  }

  lemma StandsSplit(s: string, p: nat, a: string, b: string)
    requires StandsAt(s, p, a + b)
    ensures StandsAt(s, p, a) && StandsAt(s, p + |a|, b)
  {
    assert s[p..p + |a|] == (a + b)[..|a|] == a;
    assert s[p + |a|..p + |a| + |b|] == (a + b)[|a|..] == b;
  }

  lemma StandsChar(s: string, p: nat, text: string, k: nat)
    requires StandsAt(s, p, text) && k < |text|
    ensures p + k < |s| && s[p + k] == text[k]
  {
    assert s[p..p + |text|][k] == text[k];
  }

  lemma StandsIsOccurs(s: string, p: nat, part: string)
    ensures StandsAt(s, p, part) <==> OccursAt(s, part, p)
  {
  }

  // ---- what opens and closes nothing ----

  /** No token of the tag starts in the range. */
  ghost predicate Silent(s: string, tag: string, p: nat, q: nat) {
    forall k | p <= k < q :: !OpensAt(s, tag, k) && !ClosesAt(s, tag, k)
  }

  lemma NoTokenWithout(s: string, tag: string, k: nat)
    ensures k >= |s| || s[k] != '<' ==> !OpensAt(s, tag, k) && !ClosesAt(s, tag, k)
  {
    OccurrenceChar(s, OpenTag(tag), k, 0);
    OccurrenceChar(s, CloseTag(tag), k, 0);
  }

  lemma PlainIsSilent(s: string, tag: string, p: nat, text: string)
    requires StandsAt(s, p, text) && '<' !in text
    ensures Silent(s, tag, p, p + |text|)
  {
    forall k | p <= k < p + |text| ensures !OpensAt(s, tag, k) && !ClosesAt(s, tag, k) {
      StandsChar(s, p, text, k - p);
      NoTokenWithout(s, tag, k);
    }
  }

  lemma OpensHere(s: string, tag: string, p: nat, attrs: string)
    requires StandsAt(s, p, OpenTag(tag)) && StandsAt(s, p + |OpenTag(tag)|, attrs + ">")
    requires attrs != "" ==> IsBoundary(attrs[0])
    ensures OpensAt(s, tag, p)
  {
    StandsChar(s, p + |OpenTag(tag)|, attrs + ">", 0);
    assert (attrs + ">")[0] == if attrs == "" then '>' else attrs[0];
  }

  /** A name and its end settle which name stands there: no shorter one, */
  lemma NoShorterName(s: string, p: nat, name: string, n: nat)
    requires IsName(name) && StandsAt(s, p, name) && n < |name|
    ensures p + n < |s| && !IsBoundary(s[p + n])
  {
    StandsChar(s, p, name, n);
  }

  /** and no other of the same length. */
  lemma NamesDiffer(s: string, p: nat, name: string, other: string)
    requires IsName(name) && StandsAt(s, p, name) && p + |name| < |s| && IsBoundary(s[p + |name|])
    requires IsName(other) && name != other
    ensures StandsAt(s, p, other) ==> p + |other| < |s| && !IsBoundary(s[p + |other|])
  {
    if StandsAt(s, p, other) {
      if |other| < |name| {
        NoShorterName(s, p, name, |other|);
      } else if |name| < |other| {
        NoShorterName(s, p, other, |name|);
        assert false;
      } else {
        assert false;
      }
    }
  }

  /** What an opener puts behind its `<`. */
  lemma OpenerStands(s: string, p: nat, tag: string, attrs: string)
    requires IsName(tag) && (attrs != "" ==> IsBoundary(attrs[0])) && StandsAt(s, p, Opener(tag, attrs))
    ensures StandsAt(s, p + 1, tag) && s[p + 1] != '/' && StandsAt(s, p + 1, tag + (attrs + ">"))
    ensures p + 1 + |tag| < |s| && IsBoundary(s[p + 1 + |tag|])
  {
    assert Opener(tag, attrs) == "<" + (tag + (attrs + ">"));
    StandsSplit(s, p, "<", tag + (attrs + ">"));
    StandsSplit(s, p + 1, tag, attrs + ">");
    StandsChar(s, p + 1, tag, 0);
    StandsChar(s, p + 1 + |tag|, attrs + ">", 0);
    assert (attrs + ">")[0] == if attrs == "" then '>' else attrs[0];
  }

  /** The opener and the closer of one tag say nothing to another. */
  lemma OtherOpenerIsSilent(s: string, tag: string, p: nat, other: string, attrs: string)
    requires IsName(tag) && IsName(other) && tag != other && '<' !in attrs && (attrs != "" ==> IsBoundary(attrs[0]))
    requires StandsAt(s, p, Opener(other, attrs))
    ensures Silent(s, tag, p, p + |Opener(other, attrs)|)
  {
    OpenerStands(s, p, other, attrs);
    hide OpensAt, StandsAt;
    NamesDiffer(s, p + 1, other, tag);
    OpensBehind(s, tag, p);
    OccurrenceChar(s, CloseTag(tag), p, 1);
    PlainIsSilent(s, tag, p + 1, other + (attrs + ">"));
  }

  lemma OtherCloserIsSilent(s: string, tag: string, p: nat, other: string)
    requires IsName(tag) && IsName(other) && tag != other && StandsAt(s, p, CloseTag(other))
    ensures Silent(s, tag, p, p + |CloseTag(other)|)
  {
    assert CloseTag(other) == "<" + ("/" + (other + ">")) && CloseTag(other) == "</" + (other + ">");
    StandsSplit(s, p, "<", "/" + (other + ">"));
    PlainIsSilent(s, tag, p + 1, "/" + (other + ">"));
    StandsSplit(s, p, "</", other + ">");
    StandsSplit(s, p + 2, other, ">");
    StandsChar(s, p, "</", 1);
    StandsChar(s, p + 2 + |other|, ">", 0);
    NamesDiffer(s, p + 2, other, tag);
    OpensBehind(s, tag, p);
    ClosesBehind(s, tag, p);
  }

  lemma OpensBehind(s: string, tag: string, p: nat)
    requires IsName(tag)
    ensures OpensAt(s, tag, p) ==>
      StandsAt(s, p + 1, tag) && s[p + 1] != '/' && (p + 1 + |tag| < |s| ==> IsBoundary(s[p + 1 + |tag|]))
  {
    if OpensAt(s, tag, p) {
      StandsSplit(s, p, "<", tag);
      StandsChar(s, p + 1, tag, 0);
    }
  }

  lemma ClosesBehind(s: string, tag: string, p: nat)
    ensures ClosesAt(s, tag, p) ==>
      StandsAt(s, p + 2, tag) && p + 2 + |tag| < |s| && s[p + 2 + |tag|] == '>'
  {
    if ClosesAt(s, tag, p) {
      assert CloseTag(tag) == "</" + (tag + ">");
      StandsSplit(s, p, "</", tag + ">");
      StandsSplit(s, p + 2, tag, ">");
      StandsChar(s, p + 2 + |tag|, ">", 0);
    }
  }

  // ---- depth over well-nested pieces ----

  /** Seen from anywhere before, the depth does not fall below where it was, and comes back. */
  ghost predicate Level(s: string, tag: string, p: nat, q: nat) {
    forall a: nat, k: nat {:trigger Depth(s, tag, a, k)} | a <= p <= k <= q ::
      Depth(s, tag, a, k) >= Depth(s, tag, a, p) && Depth(s, tag, a, q) == Depth(s, tag, a, p)
  }

  lemma SilentIsLevel(s: string, tag: string, p: nat, q: nat)
    requires p <= q && Silent(s, tag, p, q)
    ensures Level(s, tag, p, q)
  {
    hide OpensAt, ClosesAt, Depth;
    forall a: nat, k: nat | a <= p <= k <= q
      ensures Depth(s, tag, a, k) == Depth(s, tag, a, p) && Depth(s, tag, a, q) == Depth(s, tag, a, p)
    {
      DepthConstant(s, tag, a, p, k);
      DepthConstant(s, tag, a, p, q);
    }
  }

  lemma LevelChain(s: string, tag: string, p: nat, m: nat, q: nat)
    requires p <= m <= q && Level(s, tag, p, m) && Level(s, tag, m, q)
    ensures Level(s, tag, p, q)
  {
    hide Depth;
    forall a: nat, k: nat | a <= p <= k <= q
      ensures Depth(s, tag, a, k) >= Depth(s, tag, a, p) && Depth(s, tag, a, q) == Depth(s, tag, a, p)
    {
      assert Depth(s, tag, a, m) == Depth(s, tag, a, p);
      assert Depth(s, tag, a, q) == Depth(s, tag, a, m);
      if k <= m {
        assert Depth(s, tag, a, k) >= Depth(s, tag, a, p);
      } else {
        assert Depth(s, tag, a, k) >= Depth(s, tag, a, m);
      }
    }
  }

  /** The four parts of a block: where its attributes, its inside, its closer and its end are. */
  lemma BlockParts(s: string, p: nat, tag: string, attrs: string, inside: string)
    requires StandsAt(s, p, Opener(tag, attrs) + (inside + CloseTag(tag)))
    ensures var m := p + |OpenTag(tag)|; var i := m + |attrs| + 1; var c := i + |inside|;
      StandsAt(s, p, Opener(tag, attrs)) && StandsAt(s, p, OpenTag(tag)) && StandsAt(s, m, attrs + ">")
      && StandsAt(s, i, inside) && StandsAt(s, c, CloseTag(tag))
  {
    StandsSplit(s, p, Opener(tag, attrs), inside + CloseTag(tag));
    StandsSplit(s, p, OpenTag(tag), attrs + ">");
    StandsSplit(s, p + |Opener(tag, attrs)|, inside, CloseTag(tag));
  }

  /** One deeper from behind the opener up to the closer, and back at its first character. */
  lemma BlockDepth(s: string, tag: string, p: nat, attrs: string, inside: string, a: nat, k: nat)
    requires IsTag(tag) && a <= p <= k && '<' !in attrs && (attrs != "" ==> IsBoundary(attrs[0]))
    requires StandsAt(s, p, Opener(tag, attrs) + (inside + CloseTag(tag)))
    requires Level(s, tag, p + |Opener(tag, attrs)|, p + |Opener(tag, attrs)| + |inside|)
    ensures var c, d := p + |Opener(tag, attrs)| + |inside|, Depth(s, tag, a, p);
      OpensAt(s, tag, p) && ClosesAt(s, tag, c)
      && (p < k <= c ==> Depth(s, tag, a, k) >= d + 1) && (c < k <= c + |CloseTag(tag)| ==> Depth(s, tag, a, k) == d)
  {
    hide OpensAt, ClosesAt, Depth;
    BlockParts(s, p, tag, attrs, inside);
    var d, m, i, c := Depth(s, tag, a, p), p + |OpenTag(tag)|, p + |Opener(tag, attrs)|, p + |Opener(tag, attrs)| + |inside|;
    OpensHere(s, tag, p, attrs);
    ClosesHere(s, tag, c);
    OpenAndCloseDiffer(tag);
    DepthOverToken(s, tag, OpenTag(tag), a, p);
    PlainIsSilent(s, tag, m, attrs + ">");
    SilentIsLevel(s, tag, m, i);
    assert Depth(s, tag, a, m) == d + 1;
    assert Depth(s, tag, a, i) == d + 1;
    assert Depth(s, tag, a, c) == d + 1;
    DepthOverToken(s, tag, CloseTag(tag), a, c);
    if m < k <= i {
      assert Depth(s, tag, a, k) >= Depth(s, tag, a, m);
    } else if i < k <= c {
      assert Depth(s, tag, a, k) >= Depth(s, tag, a, i);
    }
  }

  lemma ClosesHere(s: string, tag: string, p: nat)
    requires StandsAt(s, p, CloseTag(tag))
    ensures ClosesAt(s, tag, p)
  {
    StandsIsOccurs(s, p, CloseTag(tag));
  }

  lemma NamesAreTags(tag: string)
    requires IsName(tag)
    ensures IsTag(tag)
  {
    assert !IsBoundary(tag[0]);
  }

  lemma {:induction false} PieceIsLevel(s: string, tag: string, p: nat, piece: Piece)
    requires IsName(tag) && IsPiece(piece) && StandsAt(s, p, PieceText(piece))
    ensures Level(s, tag, p, p + |PieceText(piece)|)
    decreases piece
  {
    hide OpensAt, ClosesAt, Depth, Level;
    NamesAreTags(tag);
    match piece
    case Prose(text) =>
      PlainIsSilent(s, tag, p, text);
      SilentIsLevel(s, tag, p, p + |text|);
    case Block(t, attrs, inside) =>
      var text := PiecesText(inside);
      BlockParts(s, p, t, attrs, text);
      PiecesAreLevel(s, tag, p + |Opener(t, attrs)|, inside);
      if t == tag {
        OwnBlockIsLevel(s, tag, p, attrs, text);
      } else {
        OtherBlockIsLevel(s, tag, p, t, attrs, text);
      }
  }

  lemma OtherBlockIsLevel(s: string, tag: string, p: nat, other: string, attrs: string, inside: string)
    requires IsName(tag) && IsName(other) && tag != other && '<' !in attrs && (attrs != "" ==> IsBoundary(attrs[0]))
    requires StandsAt(s, p, Opener(other, attrs) + (inside + CloseTag(other)))
    requires Level(s, tag, p + |Opener(other, attrs)|, p + |Opener(other, attrs)| + |inside|)
    ensures Level(s, tag, p, p + |Opener(other, attrs) + (inside + CloseTag(other))|)
  {
    BlockParts(s, p, other, attrs, inside);
    hide OpensAt, ClosesAt, Depth, Level, StandsAt, IsName, Silent;
    var i, e := p + |Opener(other, attrs)|, p + |Opener(other, attrs) + (inside + CloseTag(other))|;
    OtherOpenerIsSilent(s, tag, p, other, attrs);
    OtherCloserIsSilent(s, tag, i + |inside|, other);
    SilentAround(s, tag, p, i, i + |inside|, e);
  }

  lemma SilentAround(s: string, tag: string, p: nat, i: nat, c: nat, e: nat)
    requires p <= i <= c <= e && Silent(s, tag, p, i) && Level(s, tag, i, c) && Silent(s, tag, c, e)
    ensures Level(s, tag, p, e)
  {
    hide Level, Silent;
    SilentIsLevel(s, tag, p, i);
    SilentIsLevel(s, tag, c, e);
    LevelChain(s, tag, p, i, c);
    LevelChain(s, tag, p, c, e);
  }

  lemma OwnBlockIsLevel(s: string, tag: string, p: nat, attrs: string, inside: string)
    requires IsTag(tag) && '<' !in attrs && (attrs != "" ==> IsBoundary(attrs[0]))
    requires StandsAt(s, p, Opener(tag, attrs) + (inside + CloseTag(tag)))
    requires Level(s, tag, p + |Opener(tag, attrs)|, p + |Opener(tag, attrs)| + |inside|)
    ensures Level(s, tag, p, p + |Opener(tag, attrs) + (inside + CloseTag(tag))|)
  {
    var e := p + |Opener(tag, attrs) + (inside + CloseTag(tag))|;
    hide OpensAt, ClosesAt, Depth, StandsAt, Opener, OpenTag, CloseTag;
    forall a: nat, k: nat | a <= p <= k <= e
      ensures Depth(s, tag, a, k) >= Depth(s, tag, a, p) && Depth(s, tag, a, e) == Depth(s, tag, a, p)
    {
      BlockDepth(s, tag, p, attrs, inside, a, k);
      CloserIsLong(tag);
      BlockDepth(s, tag, p, attrs, inside, a, e);
    }
  }

  lemma CloserIsLong(tag: string)
    ensures |CloseTag(tag)| > |OpenTag(tag)| > 0
  {
  }

  lemma {:induction false} PiecesAreLevel(s: string, tag: string, p: nat, pieces: seq<Piece>)
    requires IsName(tag) && ArePieces(pieces) && StandsAt(s, p, PiecesText(pieces))
    ensures Level(s, tag, p, p + |PiecesText(pieces)|)
    decreases pieces
  {
    hide OpensAt, ClosesAt, Depth, Level;
    if pieces == [] {
      SilentIsLevel(s, tag, p, p);
    } else {
      var head, tail := PieceText(pieces[0]), PiecesText(pieces[1..]);
      StandsSplit(s, p, head, tail);
      PieceIsLevel(s, tag, p, pieces[0]);
      PiecesAreLevel(s, tag, p + |head|, pieces[1..]);
      LevelChain(s, tag, p, p + |head|, p + |head| + |tail|);
    }
  }

  /** A block of well-nested pieces balances exactly at its own end. */
  lemma BlockIsBalanced(s: string, p: nat, tag: string, attrs: string, inside: seq<Piece>)
    requires IsPiece(Block(tag, attrs, inside)) && StandsAt(s, p, PieceText(Block(tag, attrs, inside)))
    ensures Balanced(s, tag, p, p + |PieceText(Block(tag, attrs, inside))|)
  {
    hide OpensAt, ClosesAt, Depth, Level;
    NamesAreTags(tag);
    var text := PiecesText(inside);
    BlockParts(s, p, tag, attrs, text);
    var i := p + |Opener(tag, attrs)|;
    var c := i + |text|;
    PiecesAreLevel(s, tag, i, inside);
    forall q | p < q <= c ensures Depth(s, tag, p, q) > 0 {
      BlockDepth(s, tag, p, attrs, text, p, q);
      NoDepthYet(s, tag, p);
    }
    BlockDepth(s, tag, p, attrs, text, p, c + 1);
    NoDepthYet(s, tag, p);
    OpenerIsLong(tag, attrs);
  }

  lemma NoDepthYet(s: string, tag: string, p: nat)
    ensures Depth(s, tag, p, p) == 0
  {
  }

  lemma OpenerIsLong(tag: string, attrs: string)
    ensures |Opener(tag, attrs)| > 0
  {
  }

  // ---- what stripping leaves ----

  /** Cutting from `p` on leaves `out`. */
  ghost predicate StripsFrom(s: string, tag: string, p: nat, out: string) {
    exists cuts: seq<(nat, nat)> {:trigger AreCuts(s, tag, p, cuts)} :: AreCuts(s, tag, p, cuts) && out == Without(s, p, cuts)
  }

  lemma StripsEnd(s: string, tag: string)
    ensures StripsFrom(s, tag, |s|, "")
  {
    forall k: nat | |s| <= k ensures !OpensAt(s, tag, k) {
      NoTokenWithout(s, tag, k);
    }
    assert IsFirstOpen(s, tag, |s|, None);
    assert AreCuts(s, tag, |s|, []) && Without(s, |s|, []) == "";
  }

  lemma StripsSilent(s: string, tag: string, p: nat, text: string, out: string)
    requires StandsAt(s, p, text) && Silent(s, tag, p, p + |text|) && StripsFrom(s, tag, p + |text|, out)
    ensures StripsFrom(s, tag, p, text + out)
  {
    hide OpensAt, ClosesAt, Balanced, Unbalanced;
    var q := p + |text|;
    var cuts: seq<(nat, nat)> :| AreCuts(s, tag, q, cuts) && out == Without(s, q, cuts);
    if cuts == [] {
      var r :| IsFirstOpen(s, tag, q, r) && (r.Some? ==> Unbalanced(s, tag, r.value));
      FirstOpenEarlier(s, tag, p, q, r);
      assert s[p..] == s[p..q] + s[q..];
    } else {
      FirstOpenAhead(s, tag, q, cuts[0].0);
      FirstOpenEarlier(s, tag, p, q, Some(cuts[0].0));
      BalancedBounds(s, tag, cuts[0].0, cuts[0].1);
      assert s[p..cuts[0].0] == s[p..q] + s[q..cuts[0].0];
      ConcatAssoc(s[p..q], s[q..cuts[0].0], Without(s, cuts[0].1, cuts[1..]));
    }
    assert AreCuts(s, tag, p, cuts) && text + out == Without(s, p, cuts);
  }

  lemma FirstOpenEarlier(s: string, tag: string, p: nat, q: nat, r: Option<nat>)
    requires p <= q && Silent(s, tag, p, q) && IsFirstOpen(s, tag, q, r)
    ensures IsFirstOpen(s, tag, p, r)
  {
    hide OpensAt, ClosesAt;
  }

  lemma StripsBlock(s: string, p: nat, tag: string, attrs: string, inside: seq<Piece>, out: string)
    requires IsPiece(Block(tag, attrs, inside)) && StandsAt(s, p, PieceText(Block(tag, attrs, inside)))
    requires StripsFrom(s, tag, p + |PieceText(Block(tag, attrs, inside))|, out)
    ensures StripsFrom(s, tag, p, out)
  {
    hide ClosesAt, Depth, StaysOpen, Without;
    var e := p + |PieceText(Block(tag, attrs, inside))|;
    BlockIsBalanced(s, p, tag, attrs, inside);
    var later: seq<(nat, nat)> :| AreCuts(s, tag, e, later) && out == Without(s, e, later);
    hide OpensAt;
    BlockIsNext(s, tag, p, e, later);
  }

  lemma BlockIsNext(s: string, tag: string, p: nat, e: nat, later: seq<(nat, nat)>)
    requires Balanced(s, tag, p, e) && AreCuts(s, tag, e, later)
    ensures StripsFrom(s, tag, p, Without(s, e, later))
  {
    hide OpensAt, ClosesAt, Depth, StaysOpen;
    assert IsFirstOpen(s, tag, p, Some(p));
    var cuts := [(p, e)] + later;
    assert cuts[1..] == later;
    assert AreCuts(s, tag, p, cuts);
    assert Without(s, p, cuts) == s[p..p] + Without(s, e, later);
  }

  lemma {:induction false} TextOfAll(a: seq<Piece>, b: seq<Piece>)
    ensures PiecesText(a + b) == PiecesText(a) + PiecesText(b)
  {
    if a == [] {
      assert a + b == b;
    } else {
      assert (a + b)[1..] == a[1..] + b && (a + b)[0] == a[0];
      TextOfAll(a[1..], b);
      ConcatAssoc(PieceText(a[0]), PiecesText(a[1..]), PiecesText(b));
    }
  }

  lemma {:induction false} StripsPieces(s: string, tag: string, p: nat, pieces: seq<Piece>, out: string)
    requires IsName(tag) && ArePieces(pieces) && StandsAt(s, p, PiecesText(pieces))
    requires StripsFrom(s, tag, p + |PiecesText(pieces)|, out)
    ensures StripsFrom(s, tag, p, PiecesText(Pruned(tag, pieces)) + out)
    decreases pieces
  {
    hide StripsFrom, OpensAt, ClosesAt;
    if pieces == [] {
      assert PiecesText(Pruned(tag, pieces)) + out == out;
    } else {
      var head, tail := PieceText(pieces[0]), PiecesText(pieces[1..]);
      StandsSplit(s, p, head, tail);
      StripsPieces(s, tag, p + |head|, pieces[1..], out);
      var rest := PiecesText(Pruned(tag, pieces[1..]));
      StripsPiece(s, tag, p, pieces[0], rest + out);
      TextOfAll(PrunedOne(tag, pieces[0]), Pruned(tag, pieces[1..]));
      ConcatAssoc(PiecesText(PrunedOne(tag, pieces[0])), rest, out);
    }
  }

  lemma TextOfOne(piece: Piece)
    ensures PiecesText([piece]) == PieceText(piece)
  {
    assert PiecesText([piece][1..]) == "";
  }

  lemma {:induction false} StripsPiece(s: string, tag: string, p: nat, piece: Piece, out: string)
    requires IsName(tag) && IsPiece(piece) && StandsAt(s, p, PieceText(piece))
    requires StripsFrom(s, tag, p + |PieceText(piece)|, out)
    ensures StripsFrom(s, tag, p, PiecesText(PrunedOne(tag, piece)) + out)
    decreases piece
  {
    hide StripsFrom, OpensAt, ClosesAt;
    match piece
    case Prose(text) =>
      TextOfOne(piece);
      PlainIsSilent(s, tag, p, text);
      StripsSilent(s, tag, p, text, out);
    case Block(t, attrs, inside) =>
      if t == tag {
        StripsBlock(s, p, tag, attrs, inside, out);
        assert PiecesText(PrunedOne(tag, piece)) + out == out;
      } else {
        var opener, text, closer := Opener(t, attrs), PiecesText(inside), CloseTag(t);
        var kept := PiecesText(Pruned(tag, inside));
        BlockParts(s, p, t, attrs, text);
        OtherCloserIsSilent(s, tag, p + |opener| + |text|, t);
        StripsSilent(s, tag, p + |opener| + |text|, closer, out);
        StripsPieces(s, tag, p + |opener|, inside, closer + out);
        OtherOpenerIsSilent(s, tag, p, t, attrs);
        StripsSilent(s, tag, p, opener, kept + (closer + out));
        TextOfOne(Block(t, attrs, Pruned(tag, inside)));
        ConcatAssoc(opener, kept + closer, out);
        ConcatAssoc(kept, closer, out);
      }
  }

  /** Stripping a tag takes exactly its blocks out, wherever they stand; blocks of other tags,
      look-alikes included, stay with what is left inside them. */
  lemma MarkupIsStripped(tag: string, pieces: seq<Piece>)
    requires IsName(tag) && ArePieces(pieces)
    ensures StripsTo(PiecesText(pieces), tag, PiecesText(Pruned(tag, pieces)))
  {
    hide AreCuts, Without;
    var s, out := PiecesText(pieces), PiecesText(Pruned(tag, pieces));
    assert StandsAt(s, 0, s);
    StripsEnd(s, tag);
    StripsPieces(s, tag, 0, pieces, "");
    assert out + "" == out;
  }

  // ---- all of the tags ----

  /** What stands outside of every block. */
  function ProseOf(pieces: seq<Piece>): string {
    if pieces == [] then ""
    else (if pieces[0].Prose? then pieces[0].text else "") + ProseOf(pieces[1..])
  }

  /** The outermost blocks have one of the tags; inside anything goes. */
  predicate OutermostAre(tags: seq<string>, pieces: seq<Piece>) {
    forall k | 0 <= k < |pieces| && pieces[k].Block? :: pieces[k].tag in tags
  }

  lemma {:induction false} PruningKeepsPieces(tag: string, pieces: seq<Piece>)
    requires ArePieces(pieces)
    ensures ArePieces(Pruned(tag, pieces))
    decreases pieces
  {
    if pieces != [] {
      PruningKeepsPieces(tag, pieces[1..]);
      if pieces[0].Block? {
        PruningKeepsPieces(tag, pieces[0].inside);
      }
      if PrunedOne(tag, pieces[0]) != [] {
        assert Pruned(tag, pieces)[1..] == Pruned(tag, pieces[1..]);
      } else {
        assert Pruned(tag, pieces) == Pruned(tag, pieces[1..]);
      }
    }
  }

  lemma {:induction false} PruningKeepsProse(tag: string, tags: seq<string>, pieces: seq<Piece>)
    requires OutermostAre([tag] + tags, pieces)
    ensures ProseOf(Pruned(tag, pieces)) == ProseOf(pieces) && OutermostAre(tags, Pruned(tag, pieces))
    decreases |pieces|
  {
    if pieces != [] {
      PruningKeepsProse(tag, tags, pieces[1..]);
      var one, rest := PrunedOne(tag, pieces[0]), Pruned(tag, pieces[1..]);
      if one == [] {
        assert Pruned(tag, pieces) == rest;
      } else {
        assert Pruned(tag, pieces)[1..] == rest && |one| == 1;
      }
    }
  }

  lemma {:induction false} ProseAlone(pieces: seq<Piece>)
    requires OutermostAre([], pieces)
    ensures PiecesText(pieces) == ProseOf(pieces)
  {
    if pieces != [] {
      ProseAlone(pieces[1..]);
    }
  }

  lemma {:induction false} AllMarkupIsStripped(tags: seq<string>, pieces: seq<Piece>)
    requires ArePieces(pieces) && OutermostAre(tags, pieces) && forall tag | tag in tags :: IsName(tag)
    ensures StripsAll(PiecesText(pieces), tags, ProseOf(pieces))
    decreases |tags|
  {
    hide StripsTo;
    if tags == [] {
      ProseAlone(pieces);
    } else {
      assert tags == [tags[0]] + tags[1..];
      MarkupIsStripped(tags[0], pieces);
      PruningKeepsPieces(tags[0], pieces);
      PruningKeepsProse(tags[0], tags[1..], pieces);
      AllMarkupIsStripped(tags[1..], Pruned(tags[0], pieces));
    }
  }

  /** Of prose with leaked calls in it, in any of the four spellings and nested as they may be,
      exactly the prose is left: whatever the stripping returns is that. */
  lemma LeakedCallsAreStripped(pieces: seq<Piece>, out: string)
    requires ArePieces(pieces) && OutermostAre(["tool_calls", "tool_call", "function_calls", "invoke"], pieces)
    ensures StripsAll(PiecesText(pieces), TAGS, out) <==> out == ProseOf(pieces)
  {
    hide StripsAll;
    var tags := ["tool_calls", "tool_call", "function_calls", "invoke"];
    assert tags == TAGS;
    AllMarkupIsStripped(tags, pieces);
    if StripsAll(PiecesText(pieces), TAGS, out) {
      StripsAllOnce(PiecesText(pieces), TAGS, out, ProseOf(pieces));
    }
  }
}

/** Strings as the program sees them: Rust's `trim`, `lines`, `split`, `join`, byte
    lengths and decimal printing, each with the laws the other modules rest on. */
module Text {

  datatype Option<+T> = None | Some(value: T)

  type Byte = b: int | 0 <= b < 256

  const NL: Byte := 10

  /** Unicode White_Space, the set behind `str::trim` and `split_whitespace`. */
  predicate IsWhitespace(c: char) {
    var k := c as int;
    9 <= k <= 13 || k == 0x20 || k == 0x85 || k == 0xA0 || k == 0x1680 || 0x2000 <= k <= 0x200A
    || k == 0x2028 || k == 0x2029 || k == 0x202F || k == 0x205F || k == 0x3000
  }

  function TrimStart(s: string): (r: string) {
    if s != "" && IsWhitespace(s[0]) then TrimStart(s[1..]) else s
  }

  function TrimEnd(s: string): (r: string) {
    if s != "" && IsWhitespace(s[|s| - 1]) then TrimEnd(s[..|s| - 1]) else s
  }

  /** `str::trim`. */
  function Trim(s: string): string {
    TrimEnd(TrimStart(s))
  }

  lemma {:induction false} TrimStartSpec(s: string)
    ensures var r := TrimStart(s);
      && |r| <= |s| && r == s[|s| - |r|..]
      && (r != "" ==> !IsWhitespace(r[0]))
      && (forall k :: 0 <= k < |s| - |r| ==> IsWhitespace(s[k]))
  {
    if s != "" && IsWhitespace(s[0]) {
      TrimStartSpec(s[1..]);
      var r := TrimStart(s);
      forall k | 0 <= k < |s| - |r| ensures IsWhitespace(s[k]) {
        if k > 0 { assert s[k] == s[1..][k - 1]; }
      }
    }
  }

  lemma {:induction false} TrimEndSpec(s: string)
    ensures var r := TrimEnd(s);
      && |r| <= |s| && r == s[..|r|]
      && (r != "" ==> !IsWhitespace(r[|r| - 1]))
      && (forall k :: |r| <= k < |s| ==> IsWhitespace(s[k]))
  {
    if s != "" && IsWhitespace(s[|s| - 1]) { TrimEndSpec(s[..|s| - 1]); }
  }

  /** Trimming leaves a piece of the text with whitespace on neither end, and nothing
      but whitespace is cut. */
  lemma TrimSpec(s: string) returns (a: nat, b: nat)
    ensures a <= b <= |s| && Trim(s) == s[a..b]
    ensures a < b ==> !IsWhitespace(s[a]) && !IsWhitespace(s[b - 1])
    ensures forall k :: 0 <= k < a || b <= k < |s| ==> IsWhitespace(s[k])
  {
    var r := TrimStart(s);
    TrimStartSpec(s);
    TrimEndSpec(r);
    a, b := |s| - |r|, |s| - |r| + |Trim(s)|;
    forall k | b <= k < |s| ensures IsWhitespace(s[k]) {
      assert s[k] == r[k - a];
    }
  }

  predicate EndsWith(s: string, suffix: string) {
    |suffix| <= |s| && s[|s| - |suffix|..] == suffix
  }

  predicate OccursAt(s: string, part: string, i: nat) {
    i + |part| <= |s| && s[i..i + |part|] == part
  }

  predicate Contains(s: string, part: string) {
    exists i: nat | i <= |s| :: OccursAt(s, part, i)
  }

  /** `strip_suffix('\r')`, keeping the text when there is none. */
  function StripCr(s: string): (r: string)
    ensures r == s || s == r + "\r"
  {
    if s != "" && s[|s| - 1] == '\r' then s[..|s| - 1] else s
  }

  /** Position of the first `c`. */
  function IndexOf<T(==)>(s: seq<T>, c: T): (i: nat)
    requires c in s
    ensures i < |s| && s[i] == c && c !in s[..i]
  {
    if s[0] == c then 0 else 1 + IndexOf(s[1..], c)
  }

  lemma {:induction false} IndexOfAt<T>(a: seq<T>, c: T, b: seq<T>)
    requires c !in a
    ensures IndexOf(a + [c] + b, c) == |a|
  {
    var s := a + [c] + b;
    assert s[|a|] == c;
    assert s[..|a|] == a;
    var i := IndexOf(s, c);
  }

  /** `str::split(c)`: one more piece than there are separators. */
  function Split(s: string, c: char): (r: seq<string>)
    ensures r != []
    ensures forall p :: p in r ==> c !in p
  {
    if c in s then var i := IndexOf(s, c); [s[..i]] + Split(s[i + 1..], c) else [s]
  }

  function Join(parts: seq<string>, sep: string): string {
    if parts == [] then ""
    else if |parts| == 1 then parts[0]
    else parts[0] + sep + Join(parts[1..], sep)
  }

  lemma {:induction false} SplitOfJoin(parts: seq<string>, c: char)
    requires parts != [] && forall p :: p in parts ==> c !in p
    ensures Split(Join(parts, [c]), c) == parts
  {
    if |parts| > 1 {
      var rest := Join(parts[1..], [c]);
      var s := parts[0] + [c] + rest;
      IndexOfAt(parts[0], c, rest);
      assert s[|parts[0]|] == c;
      assert s[..|parts[0]|] == parts[0] && s[|parts[0]| + 1..] == rest;
      SplitOfJoin(parts[1..], c);
    }
  }

  lemma {:induction false} JoinOfSplit(s: string, c: char)
    ensures Join(Split(s, c), [c]) == s
  {
    if c in s {
      var i := IndexOf(s, c);
      JoinOfSplit(s[i + 1..], c);
      assert s == s[..i] + [c] + s[i + 1..];
    }
  }

  /** `str::lines`: pieces ended by "\n" or "\r\n"; an unended last piece is kept as it is. */
  function Lines(s: string): (r: seq<string>)
    ensures forall l :: l in r ==> '\n' !in l
  {
    if s == "" then []
    else if '\n' in s then
      var i := IndexOf(s, '\n');
      [StripCr(s[..i])] + Lines(s[i + 1..])
    else [s]
  }

  /** One ended line in front of a text becomes its first line. */
  lemma LinesCons(line: string, sep: string, rest: string)
    requires '\n' !in line
    requires sep == "\r\n" || (sep == "\n" && (line == "" || line[|line| - 1] != '\r'))
    ensures Lines(line + sep + rest) == [line] + Lines(rest)
  {
    var body := if sep == "\r\n" then line + "\r" else line;
    var s := line + sep + rest;
    assert s == body + ['\n'] + rest;
    hide Lines, StripCr;
    IndexOfAt(body, '\n', rest);
    assert s[|body|] == '\n';
    LinesStep(s);
    assert s[..|body|] == body && s[|body| + 1..] == rest;
    StripCrOf(line, body);
  }

  lemma StripCrOf(line: string, body: string)
    requires body == line + "\r" || (body == line && (line == "" || line[|line| - 1] != '\r'))
    ensures StripCr(body) == line
  {
  }

  lemma LinesStep(s: string)
    requires '\n' in s
    ensures var i := IndexOf(s, '\n'); Lines(s) == [StripCr(s[..i])] + Lines(s[i + 1..])
  {
  }

  /** `line` stands between `a` and `b`, bounded by line ends on both sides. */
  predicate Stands(s: string, a: string, line: string, b: string) {
    s == a + line + b && (a != "" ==> '\n' in a) && (b != "" ==> '\n' in b)
  }

  lemma StandsLater(s: string, i: nat, a: string, line: string, b: string)
    requires i < |s| && s[i] == '\n' && Stands(s[i + 1..], a, line, b)
    ensures Stands(s, s[..i + 1] + a, line, b)
  {
    assert (s[..i + 1] + a)[i] == '\n';
    assert s == s[..i + 1] + (a + line + b);
  }

  lemma FirstLineStands(s: string) returns (b: string)
    requires Lines(s) != []
    ensures Stands(s, "", Lines(s)[0], b)
  {
    if '\n' in s {
      var i := IndexOf(s, '\n');
      var line := StripCr(s[..i]);
      b := s[|line|..];
      assert b[i - |line|] == '\n';
    } else {
      b := "";
    }
  }

  lemma LaterLine(s: string, k: nat)
    requires 0 < k < |Lines(s)|
    ensures '\n' in s
    ensures var rest := s[IndexOf(s, '\n') + 1..]; k - 1 < |Lines(rest)| && Lines(s)[k] == Lines(rest)[k - 1]
  {
    LinesStep(s);
  }

  /** A line of a text occurs in it, bounded by line ends on both sides. */
  lemma {:induction false} LineOccurs(s: string, k: nat) returns (a: string, b: string)
    requires k < |Lines(s)|
    ensures Stands(s, a, Lines(s)[k], b)
  {
    hide Stands, Lines, IndexOf;
    if k == 0 {
      b := FirstLineStands(s);
      a := "";
    } else {
      LaterLine(s, k);
      var i := IndexOf(s, '\n');
      a, b := LineOccurs(s[i + 1..], k - 1);
      StandsLater(s, i, a, Lines(s)[k], b);
      a := s[..i + 1] + a;
    }
  }

  /** The chunks of a byte stream, joined. */
  function Concat(chunks: seq<seq<Byte>>): seq<Byte> {
    if chunks == [] then [] else chunks[0] + Concat(chunks[1..])
  }

  lemma ConcatAssoc<T>(a: seq<T>, b: seq<T>, c: seq<T>)
    ensures (a + b) + c == a + (b + c)
  {
  }

  /** `part` stands somewhere in the text. */
  ghost predicate Holds(s: string, part: string) {
    exists a, b :: s == a + part + b
  }

  lemma HoldsAround(a: string, part: string, b: string)
    ensures Holds(a + part + b, part)
  {
  }

  lemma HoldsWithin(s: string, part: string, small: string)
    requires Holds(s, part) && Holds(part, small)
    ensures Holds(s, small)
  {
    var a, b :| s == a + part + b;
    var x, y :| part == x + small + y;
    assert s == (a + x) + small + (y + b);
  }

  /** UTF-8 length of one character, and `str::len`. */
  function Utf8Bytes(c: char): (n: nat)
    ensures 1 <= n <= 4
  {
    var k := c as int;
    if k < 0x80 then 1 else if k < 0x800 then 2 else if k < 0x10000 then 3 else 4
  }

  function Utf8Len(s: string): (n: nat)
    ensures |s| <= n
  {
    if s == "" then 0 else Utf8Bytes(s[0]) + Utf8Len(s[1..])
  }

  lemma {:induction false} Utf8LenConcat(a: string, b: string)
    ensures Utf8Len(a + b) == Utf8Len(a) + Utf8Len(b)
  {
    if a == "" {
      assert a + b == b;
    } else {
      Utf8LenConcat(a[1..], b);
      assert (a + b)[1..] == a[1..] + b;
    }
  }

  predicate IsAscii(s: string) {
    forall k | 0 <= k < |s| :: s[k] as int < 0x80
  }

  /** UTF-8, one to four bytes a character. */
  function Utf8Char(c: char): (bytes: seq<Byte>)
    ensures |bytes| == Utf8Bytes(c)
    ensures c != '\n' ==> NL !in bytes
  {
    var k := c as int;
    if k < 0x80 then [k]
    else if k < 0x800 then [0xC0 + k / 0x40, 0x80 + k % 0x40]
    else if k < 0x10000 then [0xE0 + k / 0x1000, 0x80 + k / 0x40 % 0x40, 0x80 + k % 0x40]
    else [0xF0 + k / 0x40000, 0x80 + k / 0x1000 % 0x40, 0x80 + k / 0x40 % 0x40, 0x80 + k % 0x40]
  }

  function Utf8(s: string): (bytes: seq<Byte>)
    ensures |bytes| == Utf8Len(s)
    ensures '\n' !in s ==> NL !in bytes
  {
    if s == "" then [] else Utf8Char(s[0]) + Utf8(s[1..])
  }

  lemma {:induction false} Utf8Concat(a: string, b: string)
    ensures Utf8(a + b) == Utf8(a) + Utf8(b)
  {
    if a == "" {
      assert a + b == b;
    } else {
      hide Utf8Char;
      Utf8Concat(a[1..], b);
      assert (a + b)[1..] == a[1..] + b;
      ConcatAssoc(Utf8Char(a[0]), Utf8(a[1..]), Utf8(b));
    }
  }

  predicate IsDigit(c: char) {
    '0' <= c <= '9'
  }

  function Digit(d: nat): (c: char)
    requires d < 10
    ensures IsDigit(c) && c as int - '0' as int == d
  {
    ('0' as int + d) as char
  }

  /** `format!("{n}")`. */
  function Decimal(n: nat): (s: string)
    ensures s != "" && forall k :: 0 <= k < |s| ==> IsDigit(s[k])
  {
    if n < 10 then [Digit(n)] else Decimal(n / 10) + [Digit(n % 10)]
  }

  /** The value of a run of digits. */
  function DigitsValue(s: string): nat
    requires forall k :: 0 <= k < |s| ==> IsDigit(s[k])
  {
    if s == "" then 0 else
      assert IsDigit(s[|s| - 1]);
      10 * DigitsValue(s[..|s| - 1]) + (s[|s| - 1] as int - '0' as int)
  }

  lemma {:induction false} DecimalValue(n: nat)
    ensures DigitsValue(Decimal(n)) == n
  {
    var s := Decimal(n);
    if n < 10 {
      assert s[..|s| - 1] == "";
    } else {
      DecimalValue(n / 10);
      assert s[..|s| - 1] == Decimal(n / 10);
    }
  }

  /** A decimal is short: at most one digit per hundred beyond the first two. */
  lemma {:induction false} DecimalIsShort(n: nat)
    ensures |Decimal(n)| <= n / 100 + 2
  {
    if n >= 100 { DecimalIsShort(n / 10); }
  }
}

/** Content-Length framing of JSON-RPC messages: what is written to a language server's
    stdin, and the loop that reads frames off its stdout. */
module LspFraming {
  import opened Text

  const LENGTH := "Content-Length:"
  const MAX_USIZE := 0xFFFF_FFFF_FFFF_FFFF

  /** UTF-8 decoding of a line; `None` when it is not valid. */
  type Decoder = seq<Byte> -> Option<string>

  function Ascii(s: string): (b: seq<Byte>)
    requires IsAscii(s)
    ensures |b| == |s| && forall k :: 0 <= k < |b| ==> b[k] == s[k] as int
  {
    seq(|s|, k requires 0 <= k < |s| => s[k] as int)
  }

  /** ASCII text decodes to itself, as in any UTF-8 decoder. */
  ghost predicate DecodesAscii(decode: Decoder) {
    forall s | IsAscii(s) :: decode(Ascii(s)) == Some(s)
  }

  // ---- writing ----

  function Header(n: nat): string {
    "Content-Length: " + Decimal(n) + "\r\n\r\n"
  }

  lemma HeaderIsAscii(n: nat)
    ensures IsAscii(Header(n))
  {
    var d := Decimal(n);
    assert forall k | 0 <= k < |d| :: IsDigit(d[k]);
  }

  function Frame(body: seq<Byte>): seq<Byte> {
    HeaderIsAscii(|body|);
    Ascii(Header(|body|)) + body
  }

  function Stream(bodies: seq<seq<Byte>>): seq<Byte> {
    if bodies == [] then [] else Frame(bodies[0]) + Stream(bodies[1..])
  }

  lemma {:induction false} StreamSnoc(bodies: seq<seq<Byte>>, body: seq<Byte>)
    ensures Stream(bodies + [body]) == Stream(bodies) + Frame(body)
    decreases |bodies|
  {
    hide Frame;
    if bodies == [] {
      assert Stream([body]) == Frame(body) + [];
      assert [] + [body] == [body] && Frame(body) + [] == Frame(body) == [] + Frame(body);
    } else {
      assert (bodies + [body])[1..] == bodies[1..] + [body];
      StreamSnoc(bodies[1..], body);
      ConcatAssoc(Frame(bodies[0]), Stream(bodies[1..]), Frame(body));
    }
  }

  class LspServer {
    var stdin: seq<Byte>

    constructor ()
      ensures stdin == []
    {
      stdin := [];
    }

    method Write(body: seq<Byte>)
      modifies this
      ensures stdin == old(stdin) + Frame(body)
      ensures forall sent :: old(stdin) == Stream(sent) ==> stdin == Stream(sent + [body])
    {
      HeaderIsAscii(|body|);
      ConcatAssoc(stdin, Ascii(Header(|body|)), body);
      stdin := stdin + Ascii(Header(|body|)) + body;
      forall sent | old(stdin) == Stream(sent) ensures stdin == Stream(sent + [body]) {
        StreamSnoc(sent, body);
      }
    }
  }

  // ---- reading ----

  /** `str::parse::<usize>`: digits, an optional plus in front, no overflow. */
  function ParseUsize(s: string): (r: Option<nat>) {
    var digits := if s != "" && s[0] == '+' then s[1..] else s;
    if digits == "" || exists k | 0 <= k < |digits| :: !IsDigit(digits[k]) then None
    else if DigitsValue(digits) > MAX_USIZE then None
    else Some(DigitsValue(digits))
  }

  /** Length of the next line, its newline included if it has one. */
  function LineEnd(bytes: seq<Byte>): (n: nat)
    ensures n <= |bytes| && (bytes != [] ==> 0 < n)
  {
    if NL in bytes then IndexOf(bytes, NL) + 1 else |bytes|
  }

  datatype Headers = End | Headers(len: nat, rest: seq<Byte>)

  function HeaderLength(line: string, len: nat): nat {
    if LENGTH <= line then
      match ParseUsize(Trim(line[|LENGTH|..])) case Some(n) => n case None => 0
    else len
  }

  /** Header lines up to a blank one; the stream may end, or turn out not to be text, first. */
  function ReadHeaders(decode: Decoder, bytes: seq<Byte>, len: nat): (h: Headers)
    ensures h.Headers? ==> |h.rest| < |bytes|
    decreases |bytes|
  {
    if bytes == [] then End else
    var n := LineEnd(bytes);
    match decode(bytes[..n])
    case None => End
    case Some(text) =>
      var line := TrimEnd(text);
      if line == "" then Headers(len, bytes[n..]) else ReadHeaders(decode, bytes[n..], HeaderLength(line, len))
  }

  /** The bodies forwarded from a byte stream. */
  function Received(decode: Decoder, isJson: seq<Byte> -> bool, bytes: seq<Byte>): seq<seq<Byte>>
    decreases |bytes|
  {
    match ReadHeaders(decode, bytes, 0)
    case End => []
    case Headers(len, rest) =>
      if len == 0 then Received(decode, isJson, rest)
      else if |rest| < len || !isJson(rest[..len]) then []
      else [rest[..len]] + Received(decode, isJson, rest[len..])
  }

  method ReadHeaderLines(decode: Decoder, stream: seq<Byte>) returns (h: Headers)
    ensures h == ReadHeaders(decode, stream, 0)
  {
    var bytes, len: nat := stream, 0;
    while true
      invariant ReadHeaders(decode, bytes, len) == ReadHeaders(decode, stream, 0)
      decreases |bytes|
    {
      if bytes == [] { return End; }
      var n := LineEnd(bytes);
      var text := decode(bytes[..n]);
      if text.None? { return End; }
      bytes := bytes[n..];
      var trimmed := TrimEnd(text.value);
      if trimmed == "" { return Headers(len, bytes); }
      if LENGTH <= trimmed {
        var parsed := ParseUsize(Trim(trimmed[|LENGTH|..]));
        len := if parsed.Some? then parsed.value else 0;
      }
    }
  }

  method ReadLoop(decode: Decoder, isJson: seq<Byte> -> bool, stream: seq<Byte>) returns (sent: seq<seq<Byte>>)
    ensures sent == Received(decode, isJson, stream)
  {
    hide ReadHeaders;
    var bytes := stream;
    sent := [];
    assert sent + Received(decode, isJson, bytes) == Received(decode, isJson, bytes);
    while true
      invariant sent + Received(decode, isJson, bytes) == Received(decode, isJson, stream)
      decreases |bytes|
    {
      var h := ReadHeaderLines(decode, bytes);
      if h.End? { return; }
      if h.len == 0 {
        bytes := h.rest;
      } else {
        if |h.rest| < h.len { return; }
        var body := h.rest[..h.len];
        if !isJson(body) { return; }
        ConcatAssoc(sent, [body], Received(decode, isJson, h.rest[h.len..]));
        sent := sent + [body];
        bytes := h.rest[h.len..];
      }
    }
  }

  // ---- the round trip, whole and truncated ----

  lemma {:induction false} TrimEndOf(s: string, blanks: string)
    requires s != "" && !IsWhitespace(s[|s| - 1])
    requires forall k | 0 <= k < |blanks| :: IsWhitespace(blanks[k])
    ensures TrimEnd(s + blanks) == s
  {
    if blanks == "" {
      assert s + blanks == s;
    } else {
      var t := s + blanks;
      assert t[..|t| - 1] == s + blanks[..|blanks| - 1];
      TrimEndOf(s, blanks[..|blanks| - 1]);
    }
  }

  lemma ParseOfDecimal(n: nat)
    requires n <= MAX_USIZE
    ensures ParseUsize(Trim(" " + Decimal(n))) == Some(n)
  {
    var d := Decimal(n);
    assert IsDigit(d[0]) && IsDigit(d[|d| - 1]);
    DecimalValue(n);
    assert (" " + d)[1..] == d;
    assert TrimStart(d) == d && TrimEnd(d) == d;
  }

  function FirstLine(n: nat): string {
    "Content-Length: " + Decimal(n)
  }

  lemma LengthLine(n: nat, len: nat)
    requires n <= MAX_USIZE
    ensures TrimEnd(FirstLine(n) + "\r\n") == FirstLine(n) != ""
    ensures HeaderLength(FirstLine(n), len) == n
  {
    hide Trim, TrimEnd, ParseUsize;
    var d := Decimal(n);
    assert IsDigit(d[|d| - 1]);
    TrimEndOf(FirstLine(n), "\r\n");
    assert FirstLine(n)[|LENGTH|..] == " " + d;
    ParseOfDecimal(n);
  }

  /** A line standing in front of a stream. */
  lemma LineInFront(line: string, rest: seq<Byte>)
    requires IsAscii(line) && line != "" && line[|line| - 1] == '\n' && '\n' !in line[..|line| - 1]
    ensures var bytes := Ascii(line) + rest;
      LineEnd(bytes) == |line| && bytes[..|line|] == Ascii(line) && bytes[|line|..] == rest
  {
    var bytes := Ascii(line) + rest;
    var body := Ascii(line)[..|line| - 1];
    assert NL !in body by {
      forall k | 0 <= k < |body| ensures body[k] != NL { assert line[k] == line[..|line| - 1][k]; }
    }
    assert bytes == body + [NL] + rest;
    IndexOfAt(body, NL, rest);
    assert bytes[|line| - 1] == NL;
  }

  lemma FirstLineFacts(n: nat)
    ensures var l := FirstLine(n) + "\r\n"; IsAscii(l) && l[|l| - 1] == '\n' && '\n' !in l[..|l| - 1]
    ensures Header(n) == FirstLine(n) + "\r\n" + "\r\n"
  {
    var d := Decimal(n);
    assert forall k | 0 <= k < |d| :: IsDigit(d[k]);
    assert FirstLine(n) + "\r\n" == FirstLine(n) + "\r" + "\n";
  }

  lemma AsciiConcat(a: string, b: string)
    requires IsAscii(a) && IsAscii(b)
    ensures IsAscii(a + b) && Ascii(a + b) == Ascii(a) + Ascii(b)
  {
  }

  lemma BlankLine()
    ensures TrimEnd("\r\n") == "" && TrimEnd("\r") == "" && IsAscii("\r\n") && IsAscii("\r")
  {
    assert "\r\n"[..1] == "\r" && "\r"[..0] == "";
  }

  lemma FirstLineOfFrame(decode: Decoder, n: nat, rest: seq<Byte>, len: nat)
    requires DecodesAscii(decode) && n <= MAX_USIZE && IsAscii(FirstLine(n) + "\r\n")
    ensures ReadHeaders(decode, Ascii(FirstLine(n) + "\r\n") + rest, len) == ReadHeaders(decode, rest, n)
  {
    hide TrimEnd, HeaderLength, Ascii, LineEnd;
    var first := FirstLine(n) + "\r\n";
    FirstLineFacts(n);
    LengthLine(n, len);
    LineInFront(first, rest);
    assert decode(Ascii(first)) == Some(first);
  }

  lemma BlankLineRead(decode: Decoder, rest: seq<Byte>, len: nat)
    requires DecodesAscii(decode)
    ensures IsAscii("\r\n") && ReadHeaders(decode, Ascii("\r\n") + rest, len) == Headers(len, rest)
  {
    hide TrimEnd, HeaderLength, Ascii, LineEnd;
    BlankLine();
    LineInFront("\r\n", rest);
    assert decode(Ascii("\r\n")) == Some("\r\n");
  }

  lemma HeadersOfFrame(decode: Decoder, n: nat, rest: seq<Byte>)
    requires DecodesAscii(decode) && n <= MAX_USIZE && IsAscii(Header(n))
    ensures ReadHeaders(decode, Ascii(Header(n)) + rest, 0) == Headers(n, rest)
  {
    hide TrimEnd, HeaderLength, Ascii, LineEnd;
    var first := FirstLine(n) + "\r\n";
    FirstLineFacts(n);
    BlankLine();
    AsciiConcat(first, "\r\n");
    ConcatAssoc(Ascii(first), Ascii("\r\n"), rest);
    FirstLineOfFrame(decode, n, Ascii("\r\n") + rest, 0);
    BlankLineRead(decode, rest, n);
  }

  /** Bodies the reader can deliver: not empty, of a length `usize` holds, and JSON. */
  predicate Deliverable(isJson: seq<Byte> -> bool, body: seq<Byte>) {
    body != [] && |body| <= MAX_USIZE && isJson(body)
  }

  predicate AllDeliverable(isJson: seq<Byte> -> bool, bodies: seq<seq<Byte>>) {
    forall i | 0 <= i < |bodies| :: Deliverable(isJson, bodies[i])
  }

  lemma FrameInFront(decode: Decoder, isJson: seq<Byte> -> bool, body: seq<Byte>, rest: seq<Byte>)
    requires DecodesAscii(decode) && Deliverable(isJson, body)
    ensures Received(decode, isJson, Frame(body) + rest) == [body] + Received(decode, isJson, rest)
  {
    hide ReadHeaders, Header, Ascii, DecodesAscii;
    HeaderIsAscii(|body|);
    ConcatAssoc(Ascii(Header(|body|)), body, rest);
    HeadersOfFrame(decode, |body|, body + rest);
    assert (body + rest)[..|body|] == body && (body + rest)[|body|..] == rest;
  }

  /** A stream that ends inside a line ends the headers, or the blank line was just short of its newline. */
  lemma NoNewlineEndsHeaders(decode: Decoder, bytes: seq<Byte>, len: nat)
    requires NL !in bytes
    ensures ReadHeaders(decode, bytes, len) in {End, Headers(len, [])}
  {
    assert bytes[|bytes|..] == [];
  }

  /** A stream cut inside its first frame yields nothing. */
  lemma CutFrame(decode: Decoder, isJson: seq<Byte> -> bool, body: seq<Byte>, n: nat)
    requires DecodesAscii(decode) && Deliverable(isJson, body) && n < |Frame(body)|
    ensures Received(decode, isJson, Frame(body)[..n]) == []
  {
    hide Ascii, DecodesAscii, ReadHeaders;
    var len := |body|;
    var first, blank := Ascii(FirstLine(len) + "\r\n"), Ascii("\r\n");
    FirstLineFacts(len);
    BlankLine();
    HeaderIsAscii(len);
    AsciiConcat(FirstLine(len) + "\r\n", "\r\n");
    assert Frame(body) == first + (blank + body);
    var cut := Frame(body)[..n];
    if n < |first| {
      assert cut == first[..n];
      CutHasNoNewline(FirstLine(len) + "\r\n", n);
      NoNewlineEndsHeaders(decode, cut, 0);
    } else {
      var q := (blank + body)[..n - |first|];
      assert cut == first + q;
      FirstLineOfFrame(decode, len, q, 0);
      CutBehindFirstLine(decode, body, n - |first|);
    }
  }

  lemma CutBehindFirstLine(decode: Decoder, body: seq<Byte>, n: nat)
    requires DecodesAscii(decode) && n < |body| + 2 && body != [] && IsAscii("\r\n")
    ensures var h := ReadHeaders(decode, (Ascii("\r\n") + body)[..n], |body|);
      h.Headers? ==> h.len == |body| && |h.rest| < |body|
  {
    hide Ascii, DecodesAscii, ReadHeaders;
    var blank := Ascii("\r\n");
    var q := (blank + body)[..n];
    if n < 2 {
      assert q == blank[..n];
      CutHasNoNewline("\r\n", n);
      NoNewlineEndsHeaders(decode, q, |body|);
    } else {
      assert q == blank + body[..n - 2];
      BlankLineRead(decode, body[..n - 2], |body|);
    }
  }

  lemma CutHasNoNewline(line: string, n: nat)
    requires IsAscii(line) && n < |line| && '\n' !in line[..|line| - 1]
    ensures NL !in Ascii(line)[..n]
  {
    forall k | 0 <= k < n ensures Ascii(line)[..n][k] != NL { assert line[k] == line[..|line| - 1][k]; }
  }

  /** How many frames lie wholly in the first `n` bytes. */
  function WholeFrames(bodies: seq<seq<Byte>>, n: nat): (k: nat)
    ensures k <= |bodies|
    ensures |Stream(bodies[..k])| <= n
    ensures k < |bodies| ==> n < |Stream(bodies[..k + 1])|
  {
    if bodies == [] then 0
    else if n < |Frame(bodies[0])| then
      assert bodies[..1][1..] == [];
      0
    else
      var k := WholeFrames(bodies[1..], n - |Frame(bodies[0])|);
      assert bodies[..k + 1][1..] == bodies[1..][..k];
      assert k + 1 < |bodies| ==> bodies[..k + 2][1..] == bodies[1..][..k + 1];
      k + 1
  }

  /** A stream cut after any number of bytes yields exactly the bodies whose frames it still
      holds whole. */
  lemma {:induction false} CutStream(decode: Decoder, isJson: seq<Byte> -> bool, bodies: seq<seq<Byte>>, n: nat)
    requires DecodesAscii(decode) && AllDeliverable(isJson, bodies) && n <= |Stream(bodies)|
    ensures Received(decode, isJson, Stream(bodies)[..n]) == bodies[..WholeFrames(bodies, n)]
    decreases |bodies|
  {
    hide ReadHeaders, Frame, DecodesAscii;
    var bytes := Stream(bodies);
    if bodies == [] {
      assert bytes[..n] == [];
      NoNewlineEndsHeaders(decode, [], 0);
    } else {
      var frame, rest := Frame(bodies[0]), bodies[1..];
      if n < |frame| {
        assert bytes[..n] == frame[..n];
        CutFrame(decode, isJson, bodies[0], n);
      } else {
        CutStream(decode, isJson, rest, n - |frame|);
        assert bytes[..n] == frame + Stream(rest)[..n - |frame|];
        FrameInFront(decode, isJson, bodies[0], Stream(rest)[..n - |frame|]);
        var k := WholeFrames(rest, n - |frame|);
        assert [bodies[0]] + rest[..k] == bodies[..k + 1];
      }
    }
  }

  /** Every list of bodies written is the list read back. */
  lemma {:induction false} WrittenBodiesAreReceived(decode: Decoder, isJson: seq<Byte> -> bool, bodies: seq<seq<Byte>>)
    requires DecodesAscii(decode) && AllDeliverable(isJson, bodies)
    ensures Received(decode, isJson, Stream(bodies)) == bodies
    decreases |bodies|
  {
    hide ReadHeaders, Frame, DecodesAscii;
    if bodies == [] {
      NoNewlineEndsHeaders(decode, [], 0);
    } else {
      WrittenBodiesAreReceived(decode, isJson, bodies[1..]);
      FrameInFront(decode, isJson, bodies[0], Stream(bodies[1..]));
    }
  }

  // ---- further header fields ----

  /** A header line that is no blank line and gives no length. */
  predicate IsOtherHeader(line: string) {
    IsAscii(line) && '\n' !in line && TrimEnd(line + "\r\n") != "" && !(LENGTH <= TrimEnd(line + "\r\n"))
  }

  function HeaderLines(headers: seq<string>): string {
    if headers == [] then "" else headers[0] + "\r\n" + HeaderLines(headers[1..])
  }

  lemma {:induction false} HeaderLinesAreAscii(headers: seq<string>)
    requires forall h | h in headers :: IsOtherHeader(h)
    ensures IsAscii(HeaderLines(headers))
  {
    if headers != [] {
      assert headers[0] in headers && forall h | h in headers[1..] :: h in headers;
      HeaderLinesAreAscii(headers[1..]);
    }
  }

  /** A frame with other header fields in front of the length and behind it. */
  function FrameAmong(before: seq<string>, body: seq<Byte>, after: seq<string>): (frame: seq<Byte>)
    requires (forall h | h in before :: IsOtherHeader(h)) && forall h | h in after :: IsOtherHeader(h)
  {
    HeaderLinesAreAscii(before);
    HeaderLinesAreAscii(after);
    FirstLineFacts(|body|);
    Ascii(HeaderLines(before)) + (Ascii(FirstLine(|body|) + "\r\n") + (Ascii(HeaderLines(after)) + (Ascii("\r\n") + body)))
  }

  lemma OtherHeaderSkipped(decode: Decoder, line: string, rest: seq<Byte>, len: nat)
    requires DecodesAscii(decode) && IsOtherHeader(line)
    ensures IsAscii(line + "\r\n")
    ensures ReadHeaders(decode, Ascii(line + "\r\n") + rest, len) == ReadHeaders(decode, rest, len)
  {
    hide TrimEnd, Ascii, LineEnd;
    var ended := line + "\r\n";
    assert ended == line + "\r" + "\n";
    assert ended[..|ended| - 1] == line + "\r";
    LineInFront(ended, rest);
    assert decode(Ascii(ended)) == Some(ended);
  }

  lemma {:induction false} OtherHeadersSkipped(decode: Decoder, headers: seq<string>, rest: seq<Byte>, len: nat)
    requires DecodesAscii(decode) && forall h | h in headers :: IsOtherHeader(h)
    ensures IsAscii(HeaderLines(headers))
    ensures ReadHeaders(decode, Ascii(HeaderLines(headers)) + rest, len) == ReadHeaders(decode, rest, len)
    decreases |headers|
  {
    hide Ascii, ReadHeaders, IsOtherHeader;
    HeaderLinesAreAscii(headers);
    if headers == [] {
      NoAscii(rest);
    } else {
      var first, later := headers[0] + "\r\n", HeaderLines(headers[1..]);
      HeaderLinesAreAscii(headers[1..]);
      OtherHeaderSkipped(decode, headers[0], Ascii(later) + rest, len);
      OtherHeadersSkipped(decode, headers[1..], rest, len);
      AsciiConcat(first, later);
      ConcatAssoc(Ascii(first), Ascii(later), rest);
    }
  }

  lemma NoAscii(rest: seq<Byte>)
    ensures Ascii("") + rest == rest
  {
  }

  /** Other header fields do not disturb the reader, wherever they stand. */
  lemma OtherHeadersDoNotMatter(decode: Decoder, isJson: seq<Byte> -> bool,
                                before: seq<string>, body: seq<Byte>, after: seq<string>, rest: seq<Byte>)
    requires DecodesAscii(decode) && Deliverable(isJson, body)
    requires (forall h | h in before :: IsOtherHeader(h)) && forall h | h in after :: IsOtherHeader(h)
    ensures Received(decode, isJson, FrameAmong(before, body, after) + rest) == [body] + Received(decode, isJson, rest)
  {
    hide Ascii, ReadHeaders, IsOtherHeader, DecodesAscii, FirstLine, HeaderLines;
    HeaderLinesAreAscii(before);
    HeaderLinesAreAscii(after);
    FirstLineFacts(|body|);
    BlankLine();
    var b, f, a, e := Ascii(HeaderLines(before)), Ascii(FirstLine(|body|) + "\r\n"), Ascii(HeaderLines(after)), Ascii("\r\n");
    assert b + (f + (a + (e + body))) + rest == b + (f + (a + (e + (body + rest))));
    OtherHeadersSkipped(decode, before, f + (a + (e + (body + rest))), 0);
    FirstLineOfFrame(decode, |body|, a + (e + (body + rest)), 0);
    OtherHeadersSkipped(decode, after, e + (body + rest), |body|);
    BlankLineRead(decode, body + rest, |body|);
    assert (body + rest)[..|body|] == body && (body + rest)[|body|..] == rest;
  }
}

/** Reading newline-terminated messages of bounded size from an MCP server's stdout. */
module StdioLines {
  import opened Text

  datatype Outcome = Line(text: seq<Byte>) | Eof | TooLong

  ghost predicate NonEmpty(chunks: seq<seq<Byte>>) {
    forall i | 0 <= i < |chunks| :: chunks[i] != []
  }

  /** The pending chunks after `n` bytes of the first are consumed. */
  function Consumed(chunks: seq<seq<Byte>>, n: nat): seq<seq<Byte>>
    requires chunks != [] && n <= |chunks[0]|
  {
    if n == |chunks[0]| then chunks[1..] else [chunks[0][n..]] + chunks[1..]
  }

  /** Outcome of reading on with `line` gathered so far, and the chunks left. Only a chunk
      without a newline is held against the limit. */
  function NextLine(chunks: seq<seq<Byte>>, line: seq<Byte>, max: nat): (Outcome, seq<seq<Byte>>)
    decreases |chunks|
  {
    if chunks == [] then (if line == [] then Eof else Line(line), [])
    else if NL in chunks[0] then
      var nl := IndexOf(chunks[0], NL);
      (Line(line + chunks[0][..nl]), Consumed(chunks, nl + 1))
    else if |line| + |chunks[0]| > max then (TooLong, chunks)
    else NextLine(chunks[1..], line + chunks[0], max)
  }

  class BufReader {
    /** What `fill_buf` will return, call by call. */
    var pending: seq<seq<Byte>>

    constructor (chunks: seq<seq<Byte>>)
      ensures pending == chunks
    {
      pending := chunks;
    }

    method ReadLineBounded(max: nat) returns (r: Outcome)
      modifies this
      ensures (r, pending) == NextLine(old(pending), [], max)
    {
      hide Consumed;
      var line: seq<Byte> := [];
      while true
        invariant NextLine(pending, line, max) == NextLine(old(pending), [], max)
        decreases |pending|
      {
        if pending == [] { return if line == [] then Eof else Line(line); }
        var buf := pending[0];
        if NL in buf {
          var nl := IndexOf(buf, NL);
          line := line + buf[..nl];
          pending := Consumed(pending, nl + 1);
          return Line(line);
        }
        if |line| + |buf| > max { return TooLong; }
        line := line + buf;
        pending := pending[1..];
      }
    }
  }

  /** The lines of a byte string; the last need not end in a newline. */
  function ByteLines(bytes: seq<Byte>): seq<seq<Byte>>
    decreases |bytes|
  {
    if bytes == [] then []
    else if NL in bytes then
      var i := IndexOf(bytes, NL);
      [bytes[..i]] + ByteLines(bytes[i + 1..])
    else [bytes]
  }

  lemma ConcatOne(chunk: seq<Byte>, chunks: seq<seq<Byte>>)
    ensures Concat([chunk] + chunks) == chunk + Concat(chunks)
  {
    assert ([chunk] + chunks)[1..] == chunks;
  }

  lemma FirstByteLine(text: seq<Byte>, rest: seq<Byte>)
    requires NL !in text
    ensures ByteLines(text + [NL] + rest) == [text] + ByteLines(rest)
  {
    var bytes := text + [NL] + rest;
    IndexOfAt(text, NL, rest);
    assert bytes[|text|] == NL && bytes[..|text|] == text && bytes[|text| + 1..] == rest;
  }

  lemma NewlineInChunk(line: seq<Byte>, chunk: seq<Byte>, rest: seq<Byte>)
    requires NL !in line && NL in chunk
    ensures var nl, bytes := IndexOf(chunk, NL), line + (chunk + rest);
      ByteLines(bytes) == [line + chunk[..nl]] + ByteLines(chunk[nl + 1..] + rest) && bytes != []
  {
    var nl := IndexOf(chunk, NL);
    var text, after := line + chunk[..nl], chunk[nl + 1..] + rest;
    assert line + (chunk + rest) == text + [NL] + after;
    FirstByteLine(text, after);
  }

  /** What a read owes: the first line of the bytes, and all the bytes after it still to come. */
  ghost predicate ReadsFirstLine(bytes: seq<Byte>, r: Outcome, rest: seq<seq<Byte>>) {
    && NonEmpty(rest)
    && (r.Eof? <==> bytes == [])
    && (r.Line? ==> [r.text] + ByteLines(Concat(rest)) == ByteLines(bytes) && |Concat(rest)| < |bytes|)
  }

  lemma ConcatConsumed(chunks: seq<seq<Byte>>, n: nat)
    requires NonEmpty(chunks) && chunks != [] && n <= |chunks[0]|
    ensures Concat(chunks) == chunks[0] + Concat(chunks[1..])
    ensures Concat(Consumed(chunks, n)) == chunks[0][n..] + Concat(chunks[1..]) && NonEmpty(Consumed(chunks, n))
  {
    ConcatOne(chunks[0][n..], chunks[1..]);
    assert n == |chunks[0]| ==> chunks[0][n..] + Concat(chunks[1..]) == Concat(chunks[1..]);
  }

  lemma LineEndsInChunk(line: seq<Byte>, chunks: seq<seq<Byte>>)
    requires NonEmpty(chunks) && chunks != [] && NL !in line && NL in chunks[0]
    ensures var nl := IndexOf(chunks[0], NL);
      ReadsFirstLine(line + Concat(chunks), Line(line + chunks[0][..nl]), Consumed(chunks, nl + 1))
  {
    hide Concat, Consumed, NonEmpty, ByteLines, IndexOf, ReadsFirstLine;
    var nl := IndexOf(chunks[0], NL);
    ConcatConsumed(chunks, nl + 1);
    NewlineInChunk(line, chunks[0], Concat(chunks[1..]));
    LineIsRead(line + Concat(chunks), line + chunks[0][..nl], Consumed(chunks, nl + 1));
  }

  lemma LineIsRead(bytes: seq<Byte>, text: seq<Byte>, rest: seq<seq<Byte>>)
    requires NonEmpty(rest) && bytes != [] && |Concat(rest)| < |bytes|
    requires ByteLines(bytes) == [text] + ByteLines(Concat(rest))
    ensures ReadsFirstLine(bytes, Line(text), rest)
  {
  }

  lemma LastLineEnds(line: seq<Byte>)
    requires NL !in line
    ensures ReadsFirstLine(line + Concat([]), if line == [] then Eof else Line(line), [])
  {
    assert line + Concat([]) == line;
  }

  /** Every read that is not refused takes exactly one line off the bytes. */
  lemma {:induction false} LineReadIsFirstLine(chunks: seq<seq<Byte>>, line: seq<Byte>, max: nat)
    requires NonEmpty(chunks) && NL !in line
    ensures var (r, rest) := NextLine(chunks, line, max); ReadsFirstLine(line + Concat(chunks), r, rest) || r.TooLong?
    ensures NextLine(chunks, line, max).0.TooLong? ==> line + Concat(chunks) != []
    decreases |chunks|
  {
    hide ReadsFirstLine, Consumed, NonEmpty;
    if chunks == [] {
      LastLineEnds(line);
    } else if NL in chunks[0] {
      LineEndsInChunk(line, chunks);
    } else {
      FirstNonEmpty(chunks);
      ConcatAssoc(line, chunks[0], Concat(chunks[1..]));
      if |line| + |chunks[0]| <= max { LineReadIsFirstLine(chunks[1..], line + chunks[0], max); }
    }
  }

  lemma FirstNonEmpty(chunks: seq<seq<Byte>>)
    requires NonEmpty(chunks) && chunks != []
    ensures chunks[0] != [] && NonEmpty(chunks[1..])
  {
  }

  /** `k` whole chunks without a newline that, with `line` before them, pass the limit. */
  ghost predicate Overrun(chunks: seq<seq<Byte>>, line: seq<Byte>, max: nat, k: nat) {
    0 < k <= |chunks| && NL !in Concat(chunks[..k]) && |line| + |Concat(chunks[..k])| > max
  }

  lemma OverrunStep(chunks: seq<seq<Byte>>, line: seq<Byte>, max: nat, k: nat)
    requires 0 < k <= |chunks| && NL !in chunks[0]
    ensures Overrun(chunks, line, max, k) <==>
      if k == 1 then |line| + |chunks[0]| > max else Overrun(chunks[1..], line + chunks[0], max, k - 1)
  {
    ConcatOne(chunks[0], chunks[1..][..k - 1]);
    assert chunks[..k] == [chunks[0]] + chunks[1..][..k - 1];
  }

  lemma NoOverrunPastNewline(chunks: seq<seq<Byte>>, line: seq<Byte>, max: nat, k: nat)
    requires chunks != [] && NL in chunks[0]
    ensures !Overrun(chunks, line, max, k)
  {
    if 0 < k <= |chunks| {
      ConcatOne(chunks[0], chunks[1..][..k - 1]);
      assert chunks[..k] == [chunks[0]] + chunks[1..][..k - 1];
    }
  }

  /** A line is refused exactly when whole chunks in front of its newline pass the limit: its
      length alone does not decide. */
  lemma {:induction false} RefusedIff(chunks: seq<seq<Byte>>, line: seq<Byte>, max: nat)
    ensures NextLine(chunks, line, max).0.TooLong? <==> exists k: nat :: Overrun(chunks, line, max, k)
    decreases |chunks|
  {
    hide Overrun;
    if chunks == [] {
      forall k: nat ensures !Overrun(chunks, line, max, k) { NoneOverrun(line, max, k); }
    } else if NL in chunks[0] {
      forall k: nat ensures !Overrun(chunks, line, max, k) { NoOverrunPastNewline(chunks, line, max, k); }
    } else if |line| + |chunks[0]| > max {
      OverrunStep(chunks, line, max, 1);
    } else {
      RefusedIff(chunks[1..], line + chunks[0], max);
      forall k: nat ensures Overrun(chunks, line, max, k) ==> k > 1 && Overrun(chunks[1..], line + chunks[0], max, k - 1) {
        OverrunIsPositive(chunks, line, max, k);
        if 0 < k <= |chunks| { OverrunStep(chunks, line, max, k); }
      }
      if k: nat :| Overrun(chunks[1..], line + chunks[0], max, k) {
        OverrunIsPositive(chunks[1..], line + chunks[0], max, k);
        OverrunStep(chunks, line, max, k + 1);
      }
    }
  }

  lemma NoneOverrun(line: seq<Byte>, max: nat, k: nat)
    ensures !Overrun([], line, max, k)
  {
  }

  lemma OverrunIsPositive(chunks: seq<seq<Byte>>, line: seq<Byte>, max: nat, k: nat)
    ensures Overrun(chunks, line, max, k) ==> 0 < k <= |chunks|
  {
  }

  /** Only a line longer than the limit is ever refused. */
  lemma {:induction false} RefusedLineIsLong(chunks: seq<seq<Byte>>, line: seq<Byte>, max: nat)
    requires NL !in line && NextLine(chunks, line, max).0.TooLong?
    ensures var lines := ByteLines(line + Concat(chunks)); exists l | l in lines :: |l| > max
    decreases |chunks|
  {
    var tail := Concat(chunks[1..]);
    ConcatAssoc(line, chunks[0], tail);
    if |line| + |chunks[0]| > max {
      var start := line + chunks[0];
      var bytes := start + tail;
      assert bytes[..|start|] == start;
      if NL in bytes {
        assert IndexOf(bytes, NL) >= |start| by {
          assert forall i | 0 <= i < |start| :: bytes[i] == start[i];
        }
      }
      var lines := ByteLines(bytes);
      assert lines[0] in lines && |lines[0]| >= |start|;
    } else {
      RefusedLineIsLong(chunks[1..], line + chunks[0], max);
    }
  }

  // ---- how long an accepted line can be ----

  /** What a reader with a buffer of `cap` bytes can hand out. */
  ghost predicate Buffered(chunks: seq<seq<Byte>>, cap: nat) {
    forall i | 0 <= i < |chunks| :: 0 < |chunks[i]| <= cap
  }

  /** With a buffer of `cap` bytes an accepted line is shorter than the limit plus the buffer,
      and within the limit if no newline ends it. */
  lemma {:induction false} AcceptedIsBounded(chunks: seq<seq<Byte>>, line: seq<Byte>, max: nat, cap: nat)
    requires Buffered(chunks, cap) && |line| <= max
    ensures var (r, _) := NextLine(chunks, line, max);
      r.Line? ==> |r.text| <= max || (|r.text| < max + cap && exists i | 0 <= i < |chunks| :: NL in chunks[i])
    decreases |chunks|
  {
    hide Consumed;
    if chunks != [] && NL !in chunks[0] && |line| + |chunks[0]| <= max {
      AcceptedIsBounded(chunks[1..], line + chunks[0], max, cap);
      assert forall i | 0 <= i < |chunks| - 1 :: chunks[1..][i] == chunks[i + 1];
    }
  }

  /** `bytes` cut into buffers, as full as they go. */
  function Pieces(bytes: seq<Byte>, cap: nat): (chunks: seq<seq<Byte>>)
    requires cap > 0
    ensures Buffered(chunks, cap)
    decreases |bytes|
  {
    if bytes == [] then [] else if |bytes| <= cap then [bytes] else [bytes[..cap]] + Pieces(bytes[cap..], cap)
  }

  /** Bytes without a newline and within the limit are gathered, however they are cut. */
  lemma {:induction false} PiecesAreGathered(bytes: seq<Byte>, cap: nat, rest: seq<seq<Byte>>, line: seq<Byte>, max: nat)
    requires cap > 0 && NL !in bytes
    ensures Concat(Pieces(bytes, cap) + rest) == bytes + Concat(rest)
    ensures |line| + |bytes| <= max ==>
      NextLine(Pieces(bytes, cap) + rest, line, max) == NextLine(rest, line + bytes, max)
    ensures |line| + |bytes| > max ==> bytes == [] || NextLine(Pieces(bytes, cap) + rest, line, max).0.TooLong?
    decreases |bytes|
  {
    if bytes == [] {
      assert [] + rest == rest && line + [] == line && [] + Concat(rest) == Concat(rest);
    } else {
      var first := if |bytes| <= cap then bytes else bytes[..cap];
      var more := bytes[|first|..];
      assert Pieces(bytes, cap) + rest == [first] + (Pieces(more, cap) + rest);
      assert bytes == first + more;
      FirstPiece(first, Pieces(more, cap) + rest, line, max);
      if |line| + |first| <= max { PiecesAreGathered(more, cap, rest, line + first, max); }
      else { PiecesAreGathered(more, cap, rest, [], 0); }
      ConcatAssoc(first, more, Concat(rest));
      ConcatAssoc(line, first, more);
    }
  }

  lemma FirstPiece(first: seq<Byte>, rest: seq<seq<Byte>>, line: seq<Byte>, max: nat)
    requires NL !in first
    ensures Concat([first] + rest) == first + Concat(rest)
    ensures NextLine([first] + rest, line, max) ==
      if |line| + |first| > max then (TooLong, [first] + rest) else NextLine(rest, line + first, max)
  {
    assert ([first] + rest)[1..] == rest;
  }

  /** The ways a line and what comes after it can arrive through a buffer of `cap` bytes. */
  ghost predicate Arrives(text: seq<Byte>, after: seq<Byte>, cap: nat, chunks: seq<seq<Byte>>) {
    Buffered(chunks, cap) && Concat(chunks) == text + [NL] + after
  }

  /** The fate of an overlong line read through a buffer of `cap` bytes. From `max + cap` bytes
      on it is refused however it arrives. Below that it depends: it is let through when its
      last bytes share a buffer with the newline, and refused when the newline comes alone. */
  lemma OverlongLineFate(text: seq<Byte>, after: seq<Byte>, max: nat, cap: nat)
    requires NL !in text && |text| > max && cap > 0
    ensures exists chunks :: Arrives(text, after, cap, chunks) && NextLine(chunks, [], max).0.TooLong?
    ensures (exists chunks :: Arrives(text, after, cap, chunks) && NextLine(chunks, [], max).0 == Line(text))
      <==> |text| < max + cap
    ensures forall chunks | Arrives(text, after, cap, chunks) :: NextLine(chunks, [], max).0 in {TooLong, Line(text)}
  {
    hide Arrives, NextLine;
    var refused := Refused(text, after, max, cap);
    if |text| < max + cap { var accepted := LetThrough(text, after, max, cap); }
    forall chunks | Arrives(text, after, cap, chunks)
      ensures NextLine(chunks, [], max).0 in {TooLong, Line(text)}
      ensures |text| >= max + cap ==> NextLine(chunks, [], max).0.TooLong?
    {
      OneLineIsRead(text, after, max, cap, chunks);
    }
  }

  lemma ReadIsTheLine(text: seq<Byte>, after: seq<Byte>, r: Outcome, rest: seq<seq<Byte>>)
    requires NL !in text && ReadsFirstLine(text + [NL] + after, r, rest)
    ensures r in {TooLong, Line(text)}
  {
    hide Concat, NonEmpty, ByteLines;
    FirstByteLine(text, after);
    assert (text + [NL] + after)[|text|] == NL;
    if r.Line? {
      assert ([r.text] + ByteLines(Concat(rest)))[0] == r.text && ([text] + ByteLines(after))[0] == text;
    }
  }

  lemma OneLineIsRead(text: seq<Byte>, after: seq<Byte>, max: nat, cap: nat, chunks: seq<seq<Byte>>)
    requires NL !in text && Arrives(text, after, cap, chunks)
    ensures NextLine(chunks, [], max).0 in {TooLong, Line(text)}
    ensures |text| >= max + cap > max ==> NextLine(chunks, [], max).0.TooLong?
  {
    assert NonEmpty(chunks);
    assert [] + Concat(chunks) == text + [NL] + after;
    hide NextLine, Concat, Consumed, Buffered, NonEmpty, ReadsFirstLine;
    AcceptedIsBounded(chunks, [], max, cap);
    LineReadIsFirstLine(chunks, [], max);
    var (r, rest) := NextLine(chunks, [], max);
    if !r.TooLong? { ReadIsTheLine(text, after, r, rest); }
  }

  lemma {:induction false} ConcatPieces(bytes: seq<Byte>, cap: nat)
    requires cap > 0
    ensures Concat(Pieces(bytes, cap)) == bytes
    decreases |bytes|
  {
    if |bytes| > cap {
      ConcatPieces(bytes[cap..], cap);
      ConcatOne(bytes[..cap], Pieces(bytes[cap..], cap));
    } else {
      assert bytes + [] == bytes;
    }
  }

  lemma BufferedConcat(a: seq<seq<Byte>>, b: seq<seq<Byte>>, cap: nat)
    requires Buffered(a, cap) && Buffered(b, cap)
    ensures Buffered(a + b, cap)
  {
  }

  lemma LetThrough(text: seq<Byte>, after: seq<Byte>, max: nat, cap: nat) returns (chunks: seq<seq<Byte>>)
    requires NL !in text && max < |text| < max + cap
    ensures Arrives(text, after, cap, chunks) && NextLine(chunks, [], max).0 == Line(text)
  {
    var head, last, tail := text[..max], text[max..], Pieces(after, cap);
    var rest := [last + [NL]] + tail;
    chunks := Pieces(head, cap) + rest;
    ConcatPieces(after, cap);
    BufferedConcat([last + [NL]], tail, cap);
    BufferedConcat(Pieces(head, cap), rest, cap);
    PiecesAreGathered(head, cap, rest, [], max);
    ConcatOne(last + [NL], tail);
    EndsInFirst(last, tail, head, max);
    assert [] + head == head && head + last == text;
    assert head + (last + [NL] + after) == text + [NL] + after;
  }

  lemma EndsInFirst(last: seq<Byte>, tail: seq<seq<Byte>>, line: seq<Byte>, max: nat)
    requires NL !in last
    ensures NextLine([last + [NL]] + tail, line, max).0 == Line(line + last)
  {
    IndexOfAt(last, NL, []);
    assert last + [NL] + [] == last + [NL] && (last + [NL])[|last|] == NL && (last + [NL])[..|last|] == last;
  }

  lemma Refused(text: seq<Byte>, after: seq<Byte>, max: nat, cap: nat) returns (chunks: seq<seq<Byte>>)
    requires NL !in text && |text| > max && cap > 0
    ensures Arrives(text, after, cap, chunks) && NextLine(chunks, [], max).0.TooLong?
  {
    var tail := Pieces(after, cap);
    chunks := Pieces(text, cap) + ([[NL]] + tail);
    ConcatPieces(after, cap);
    BufferedConcat([[NL]], tail, cap);
    BufferedConcat(Pieces(text, cap), [[NL]] + tail, cap);
    PiecesAreGathered(text, cap, [[NL]] + tail, [], max);
    ConcatOne([NL], tail);
    ConcatAssoc(text, [NL], after);
  }

  /** Lines read one after the other, until the end or a refusal. */
  function ReadAll(chunks: seq<seq<Byte>>, max: nat): seq<seq<Byte>>
    requires NonEmpty(chunks)
    decreases |Concat(chunks)|
  {
    LineReadIsFirstLine(chunks, [], max);
    assert [] + Concat(chunks) == Concat(chunks);
    var (r, rest) := NextLine(chunks, [], max);
    if r.Line? then [r.text] + ReadAll(rest, max) else []
  }

  /** With every line within the limit, the lines read are those of the bytes, whatever the chunks. */
  lemma {:induction false} ReadsEveryLine(chunks: seq<seq<Byte>>, max: nat)
    requires NonEmpty(chunks)
    requires forall l | l in ByteLines(Concat(chunks)) :: |l| <= max
    ensures ReadAll(chunks, max) == ByteLines(Concat(chunks))
    decreases |Concat(chunks)|
  {
    hide NextLine, Concat;
    LineReadIsFirstLine(chunks, [], max);
    assert [] + Concat(chunks) == Concat(chunks);
    var (r, rest) := NextLine(chunks, [], max);
    if r.TooLong? {
      RefusedLineIsLong(chunks, [], max);
    } else if r.Line? {
      forall l | l in ByteLines(Concat(rest)) ensures |l| <= max {
        assert l in [r.text] + ByteLines(Concat(rest));
      }
      ReadsEveryLine(rest, max);
    }
  }
}

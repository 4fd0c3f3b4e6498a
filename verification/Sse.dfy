/** Reading a JSON-RPC reply from a `text/event-stream` body that arrives in chunks. */
module Sse {
  import opened Text

  const DATA := "data:"
  const MAX_SKIPPED := 256
  const MAX_BODY := 16 * 1024 * 1024

  /** The JSON-RPC result an event payload carries for the awaited id, if it is that reply. */
  type Matcher<!R> = string -> Option<R>

  /** Lossy UTF-8 decoding of one line. */
  type Decoder = seq<Byte> -> string

  datatype Verdict<+R> = Answer(result: R) | TooManySkipped | Closed | TooLarge

  /** Payload gathered for the current event, and unrelated events seen. */
  datatype State = State(data: string, skipped: nat)

  const START := State("", 0)

  datatype Progress<+R> = Done(verdict: Verdict<R>) | More(state: State)

  function TrimEndChar(s: string, c: char): string {
    if s != "" && s[|s| - 1] == c then TrimEndChar(s[..|s| - 1], c) else s
  }

  function LineText(decode: Decoder, line: seq<Byte>): string {
    TrimEndChar(TrimEndChar(decode(line), '\n'), '\r')
  }

  /** Judge the gathered payload: the reply, one skip too many, or keep reading. */
  function TakeEvent<R>(find: Matcher<R>, st: State): Progress<R> {
    var payload := Trim(st.data);
    if payload == "" then More(State("", st.skipped))
    else if find(payload).Some? then Done(Answer(find(payload).value))
    else if st.skipped + 1 >= MAX_SKIPPED then Done(TooManySkipped)
    else More(State("", st.skipped + 1))
  }

  /** A further `data:` value; a single space after the colon is not part of it. */
  function AddData(data: string, line: string): string
    requires DATA <= line
  {
    var rest := line[|DATA|..];
    var value := if " " <= rest then rest[1..] else rest;
    (if data == "" then "" else data + "\n") + value
  }

  function TakeLine<R>(find: Matcher<R>, st: State, line: string): Progress<R> {
    if line == "" then TakeEvent(find, st)
    else if DATA <= line then More(st.(data := AddData(st.data, line)))
    else More(st)
  }

  /** All complete lines of `bytes`, first to last; what follows the last newline is not looked at. */
  function Scan<R>(decode: Decoder, find: Matcher<R>, st: State, bytes: seq<Byte>): Progress<R>
    decreases |bytes|
  {
    if NL !in bytes then More(st) else
      var i := IndexOf(bytes, NL);
      match TakeLine(find, st, LineText(decode, bytes[..i + 1]))
      case Done(v) => Done(v)
      case More(next) => Scan(decode, find, next, bytes[i + 1..])
  }

  /** The end of the stream: a last event needs no closing blank line. */
  function Finish<R>(find: Matcher<R>, st: State): Verdict<R> {
    match TakeEvent(find, st)
    case Done(v) => v
    case More(_) => Closed
  }

  /** One pass over a whole body. */
  function ReadWhole<R>(decode: Decoder, find: Matcher<R>, body: seq<Byte>): Verdict<R> {
    match Scan(decode, find, START, body)
    case Done(v) => v
    case More(st) => Finish(find, st)
  }

  /** How many chunks arrive before the total passes the cap. */
  function WithinCap(chunks: seq<seq<Byte>>, total: nat): (k: nat)
    ensures k <= |chunks|
    ensures total + |Concat(chunks[..k])| <= MAX_BODY || k == 0
    ensures total + |Concat(chunks)| <= MAX_BODY ==> k == |chunks|
  {
    if chunks == [] || total + |chunks[0]| > MAX_BODY then 0
    else
      var k := WithinCap(chunks[1..], total + |chunks[0]|);
      assert chunks[..k + 1][0] == chunks[0] && chunks[..k + 1][1..] == chunks[1..][..k];
      k + 1
  }

  /** What the chunk reader returns: the verdict on the chunks within the cap, or the size
      error if they hold none and there are more. */
  function ReadChunks<R>(decode: Decoder, find: Matcher<R>, chunks: seq<seq<Byte>>): Verdict<R> {
    var k := WithinCap(chunks, 0);
    match Scan(decode, find, START, Concat(chunks[..k]))
    case Done(v) => v
    case More(st) => if k == |chunks| then Finish(find, st) else TooLarge
  }

  lemma WithinCapStep(chunks: seq<seq<Byte>>, total: nat, i: nat)
    requires i < |chunks|
    ensures WithinCap(chunks[i..], total) ==
      if total + |chunks[i]| > MAX_BODY then 0 else 1 + WithinCap(chunks[i + 1..], total + |chunks[i]|)
  {
    assert chunks[i..][1..] == chunks[i + 1..];
  }

  /** A line found in the buffer is a line of the buffer and all that follows. */
  lemma ScanOneLine<R>(decode: Decoder, find: Matcher<R>, st: State, buf: seq<Byte>, rest: seq<Byte>)
    requires NL in buf
    ensures var i := IndexOf(buf, NL);
      Scan(decode, find, st, buf + rest) ==
        match TakeLine(find, st, LineText(decode, buf[..i + 1]))
        case Done(v) => Done(v)
        case More(next) => Scan(decode, find, next, buf[i + 1..] + rest)
  {
    var i := IndexOf(buf, NL);
    var all := buf + rest;
    assert all == buf[..i] + [NL] + (buf[i + 1..] + rest);
    IndexOfAt(buf[..i], NL, buf[i + 1..] + rest);
    assert all[i] == NL;
    assert all[..i + 1] == buf[..i + 1] && all[i + 1..] == buf[i + 1..] + rest;
  }

  lemma NoLineYet<R>(decode: Decoder, find: Matcher<R>, st: State, buf: seq<Byte>)
    requires NL !in buf
    ensures Scan(decode, find, st, buf) == More(st)
  {
  }

  /** Take the complete lines off the buffer; `rest` is whatever has yet to arrive. */
  method TakeLines<R>(decode: Decoder, find: Matcher<R>, start: State, arrived: seq<Byte>, ghost rest: seq<Byte>)
    returns (p: Progress<R>, buf: seq<Byte>)
    ensures p.Done? ==> Scan(decode, find, start, arrived + rest) == p
    ensures p.More? ==> NL !in buf
    ensures p.More? ==> Scan(decode, find, start, arrived + rest) == Scan(decode, find, p.state, buf + rest)
  {
    hide TakeLine, LineText, Scan;
    var st := start;
    buf := arrived;
    while NL in buf
      invariant Scan(decode, find, start, arrived + rest) == Scan(decode, find, st, buf + rest)
      decreases |buf|
    {
      ScanOneLine(decode, find, st, buf, rest);
      var nl := IndexOf(buf, NL);
      var line := LineText(decode, buf[..nl + 1]);
      buf := buf[nl + 1..];
      var next := TakeLine(find, st, line);
      if next.Done? { return next, buf; }
      st := next.state;
    }
    p := More(st);
  }

  /** Read chunk by chunk, taking complete lines off the buffer as they appear. */
  method ReadResponse<R>(decode: Decoder, find: Matcher<R>, chunks: seq<seq<Byte>>) returns (v: Verdict<R>)
    ensures v == ReadChunks(decode, find, chunks)
  {
    hide TakeLine, LineText, Scan, WithinCap;
    var buf: seq<Byte>, st, total: nat := [], START, 0;
    ghost var k := WithinCap(chunks, 0);
    assert chunks[0..] == chunks && chunks[0..k] == chunks[..k] && [] + Concat(chunks[..k]) == Concat(chunks[..k]);
    for i := 0 to |chunks|
      invariant i + WithinCap(chunks[i..], total) == k
      invariant NL !in buf
      invariant Scan(decode, find, START, Concat(chunks[..k])) == Scan(decode, find, st, buf + Concat(chunks[i..k]))
    {
      WithinCapStep(chunks, total, i);
      total := total + |chunks[i]|;
      if total > MAX_BODY {
        assert chunks[i..k] == [] && buf + [] == buf;
        NoLineYet(decode, find, st, buf);
        return TooLarge;
      }
      ghost var rest := Concat(chunks[i + 1..k]);
      assert chunks[i..k][0] == chunks[i] && chunks[i..k][1..] == chunks[i + 1..k];
      ConcatAssoc(buf, chunks[i], rest);
      buf := buf + chunks[i];
      var p;
      p, buf := TakeLines(decode, find, st, buf, rest);
      if p.Done? { return p.verdict; }
      st := p.state;
    }
    assert chunks[k..k] == [] && buf + [] == buf;
    NoLineYet(decode, find, st, buf);
    v := Finish(find, st);
  }

  // ---- what the verdict means ----

  /** How the bytes are cut into chunks makes no difference: any body within the cap is
      read as one pass over it would read it. */
  lemma ChunkingDoesNotMatter<R>(decode: Decoder, find: Matcher<R>, chunks: seq<seq<Byte>>)
    requires |Concat(chunks)| <= 16 * 1024 * 1024
    ensures ReadChunks(decode, find, chunks) == ReadWhole(decode, find, Concat(chunks))
  {
    assert chunks[..|chunks|] == chunks;
  }

  /** Over the cap, the reply counts only if it is complete within the chunks that fit. */
  lemma OverTheCap<R>(decode: Decoder, find: Matcher<R>, chunks: seq<seq<Byte>>)
    requires |Concat(chunks)| > 16 * 1024 * 1024
    ensures ReadChunks(decode, find, chunks) == TooLarge
      || Scan(decode, find, START, Concat(chunks[..WithinCap(chunks, 0)])) == Done(ReadChunks(decode, find, chunks))
    ensures WithinCap(chunks, 0) < |chunks|
  {
    assert chunks[..|chunks|] == chunks;
  }

  /** The payloads of the events in a body, blank ones left out, the last one included even
      when no blank line closes it. */
  function Events(decode: Decoder, data: string, bytes: seq<Byte>): seq<string>
    decreases |bytes|
  {
    var ended := if Trim(data) == "" then [] else [Trim(data)];
    if NL !in bytes then ended else
      var i := IndexOf(bytes, NL);
      var line, rest := LineText(decode, bytes[..i + 1]), bytes[i + 1..];
      if line == "" then ended + Events(decode, "", rest)
      else Events(decode, if DATA <= line then AddData(data, line) else data, rest)
  }

  /** The outcome by position: the first event that is the reply, unless 256 unrelated ones
      come before it. */
  ghost predicate IsVerdictOn<R>(find: Matcher<R>, events: seq<string>, skipped: nat, v: Verdict<R>) {
    if exists i :: 0 <= i < |events| && skipped + i < 256 && find(events[i]).Some? then
      exists i | 0 <= i < |events| && skipped + i < 256 ::
        find(events[i]).Some? && v == Answer(find(events[i]).value) && forall j | 0 <= j < i :: find(events[j]).None?
    else if skipped + |events| >= 256 then v == TooManySkipped
    else v == Closed
  }

  /** Judge events one by one. */
  function Judge<R>(find: Matcher<R>, events: seq<string>, skipped: nat): Verdict<R> {
    if events == [] then Closed
    else if find(events[0]).Some? then Answer(find(events[0]).value)
    else if skipped + 1 >= MAX_SKIPPED then TooManySkipped
    else Judge(find, events[1..], skipped + 1)
  }

  lemma {:induction false} JudgeIsVerdict<R>(find: Matcher<R>, events: seq<string>, skipped: nat)
    requires skipped < MAX_SKIPPED
    ensures IsVerdictOn(find, events, skipped, Judge(find, events, skipped))
  {
    if events != [] {
      if find(events[0]).Some? {
        assert skipped + 0 < MAX_SKIPPED;
      } else if skipped + 1 < MAX_SKIPPED {
        JudgeIsVerdict(find, events[1..], skipped + 1);
        VerdictBehindSkip(find, events, skipped, Judge(find, events, skipped));
      }
    }
  }

  lemma VerdictBehindSkip<R>(find: Matcher<R>, events: seq<string>, skipped: nat, v: Verdict<R>)
    requires events != [] && find(events[0]).None? && IsVerdictOn(find, events[1..], skipped + 1, v)
    ensures IsVerdictOn(find, events, skipped, v)
  {
    var rest := events[1..];
    assert forall i | 0 < i < |events| :: events[i] == rest[i - 1];
    if exists i :: 0 <= i < |rest| && skipped + 1 + i < MAX_SKIPPED && find(rest[i]).Some? {
      var i :| 0 <= i < |rest| && skipped + 1 + i < MAX_SKIPPED && find(rest[i]).Some?
        && v == Answer(find(rest[i]).value) && forall j | 0 <= j < i :: find(rest[j]).None?;
      assert events[i + 1] == rest[i];
      forall j | 0 <= j < i + 1 ensures find(events[j]).None? {
        if j > 0 { assert events[j] == rest[j - 1]; }
      }
    } else {
      forall i | 0 <= i < |events| && skipped + i < MAX_SKIPPED ensures find(events[i]).None? {
        if i > 0 { assert events[i] == rest[i - 1]; }
      }
    }
  }

  function Outcome<R>(find: Matcher<R>, p: Progress<R>): Verdict<R> {
    match p
    case Done(v) => v
    case More(st) => Finish(find, st)
  }

  lemma JudgeOne<R>(find: Matcher<R>, st: State, rest: seq<string>)
    requires st.skipped < MAX_SKIPPED
    ensures var ended := if Trim(st.data) == "" then [] else [Trim(st.data)];
      var p := TakeEvent(find, st);
      && (p.Done? ==> Judge(find, ended + rest, st.skipped) == p.verdict)
      && (p.More? ==> p.state.skipped < MAX_SKIPPED && p.state.data == "")
      && (p.More? ==> Judge(find, ended + rest, st.skipped) == Judge(find, rest, p.state.skipped))
  {
    hide Trim;
    if Trim(st.data) == "" {
      assert [] + rest == rest;
    } else {
      assert ([Trim(st.data)] + rest)[1..] == rest;
    }
  }

  /** Scanning line by line, with one event's state in hand, judges the body's events in order. */
  lemma {:induction false} ScanJudgesEvents<R>(decode: Decoder, find: Matcher<R>, st: State, bytes: seq<Byte>)
    requires st.skipped < MAX_SKIPPED
    ensures Outcome(find, Scan(decode, find, st, bytes)) == Judge(find, Events(decode, st.data, bytes), st.skipped)
    decreases |bytes|
  {
    hide Trim, LineText, Judge, TakeEvent, AddData;
    if NL !in bytes {
      JudgeOne(find, st, []);
      NoMoreEvents(find);
    } else {
      var i := IndexOf(bytes, NL);
      var line, rest := LineText(decode, bytes[..i + 1]), bytes[i + 1..];
      if line == "" {
        JudgeOne(find, st, Events(decode, "", rest));
        var p := TakeEvent(find, st);
        if p.More? { ScanJudgesEvents(decode, find, p.state, rest); }
      } else {
        ScanJudgesEvents(decode, find, if DATA <= line then st.(data := AddData(st.data, line)) else st, rest);
      }
    }
  }

  lemma NoMoreEvents<R>(find: Matcher<R>)
    ensures forall skipped: nat :: Judge(find, [], skipped) == Closed
    ensures forall s: seq<string> :: s + [] == s
  {
  }

  /** The verdict on a body of any chunking within the cap: its first event that is the
      reply if fewer than 256 come before it, else one skip too many, else a closed stream. */
  lemma ResponseIsFirstMatch<R>(decode: Decoder, find: Matcher<R>, chunks: seq<seq<Byte>>)
    requires |Concat(chunks)| <= 16 * 1024 * 1024
    ensures IsVerdictOn(find, Events(decode, "", Concat(chunks)), 0, ReadChunks(decode, find, chunks))
  {
    hide Judge, Events, IsVerdictOn, Scan;
    ChunkingDoesNotMatter(decode, find, chunks);
    ScanJudgesEvents(decode, find, START, Concat(chunks));
    JudgeIsVerdict(find, Events(decode, "", Concat(chunks)), 0);
  }
}

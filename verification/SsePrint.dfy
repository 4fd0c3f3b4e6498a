/** Writing an event stream, and what reading it back gives. The format is that of section
    9.2.6 of the WHATWG HTML standard, with LF or CRLF line ends. */
module SsePrint {
  import opened Text
  import opened Sse

  // ---- writing ----

  /** A line of an event: a `data:` line, its value behind a space or not, or any other. */
  datatype Field = Data(text: string, spaced: bool) | Other(text: string)

  datatype FieldLine = FieldLine(field: Field, crlf: bool)

  /** The lines of an event, and the end of the blank line that closes it. */
  datatype Event = Event(lines: seq<FieldLine>, crlf: bool)

  function FieldText(f: Field): string {
    match f
    case Data(text, spaced) => "data:" + (if spaced then " " else "") + text
    case Other(text) => text
  }

  /** A line the reader takes for what it is: no line end in it, no carriage return at its end,
      no blank in front of a value written without one, and no other line that looks blank or
      like data. */
  predicate IsField(f: Field) {
    var line := FieldText(f);
    && line != "" && '\n' !in line && line[|line| - 1] != '\r'
    && (f.Data? ==> f.spaced || f.text == "" || f.text[0] != ' ')
    && (f.Other? ==> !("data:" <= f.text))
  }

  predicate AreFields(lines: seq<FieldLine>) {
    forall i | 0 <= i < |lines| :: IsField(lines[i].field)
  }

  predicate AreEvents(events: seq<Event>) {
    forall i | 0 <= i < |events| :: AreFields(events[i].lines)
  }

  function Ended(line: string, crlf: bool): string {
    line + if crlf then "\r\n" else "\n"
  }

  function PrintLines(lines: seq<FieldLine>): string {
    if lines == [] then "" else Ended(FieldText(lines[0].field), lines[0].crlf) + PrintLines(lines[1..])
  }

  function PrintEvents(events: seq<Event>): string {
    if events == [] then ""
    else PrintLines(events[0].lines) + Ended("", events[0].crlf) + PrintEvents(events[1..])
  }

  // ---- what it says ----

  function DataTexts(lines: seq<FieldLine>): seq<string> {
    if lines == [] then []
    else (if lines[0].field.Data? then [lines[0].field.text] else []) + DataTexts(lines[1..])
  }

  /** The values of an event's data lines, one to a line, trimmed. */
  function Payload(lines: seq<FieldLine>): string {
    Trim(Join(DataTexts(lines), "\n"))
  }

  function NonBlank(payload: string): seq<string> {
    if payload == "" then [] else [payload]
  }

  function Payloads(events: seq<Event>): seq<string> {
    if events == [] then [] else NonBlank(Payload(events[0].lines)) + Payloads(events[1..])
  }

  // ---- reading it back ----

  /** A decoder that gets back every text written as UTF-8. */
  ghost predicate DecodesUtf8(decode: Decoder) {
    forall s :: decode(Utf8(s)) == s
  }

  lemma EndedLineText(decode: Decoder, line: string, crlf: bool)
    requires DecodesUtf8(decode) && '\n' !in line && (line == "" || line[|line| - 1] != '\r')
    ensures LineText(decode, Utf8(Ended(line, crlf))) == line
  {
    hide Utf8;
    var cr := if crlf then "\r" else "";
    var t := line + cr;
    assert Ended(line, crlf) == t + "\n";
    assert (t + "\n")[..|t|] == t;
    assert t != "" ==> t[|t| - 1] != '\n';
    assert TrimEndChar(t + "\n", '\n') == TrimEndChar(t, '\n') == t;
    assert crlf ==> t[..|line|] == line;
    assert TrimEndChar(t, '\r') == line;
  }

  lemma EndedBytes(line: string, crlf: bool, more: seq<Byte>)
    requires '\n' !in line
    ensures var end, bytes := Utf8(Ended(line, crlf)), Utf8(Ended(line, crlf)) + more;
      NL in bytes && IndexOf(bytes, NL) + 1 == |end| && bytes[..|end|] == end && bytes[|end|..] == more
  {
    var body := line + if crlf then "\r" else "";
    assert Ended(line, crlf) == body + "\n";
    Utf8Concat(body, "\n");
    NewlineByte();
    hide Utf8, Ended, IndexOf;
    var end := Utf8(Ended(line, crlf));
    assert end == Utf8(body) + [NL] && NL !in Utf8(body);
    IndexOfAt(Utf8(body), NL, more);
    assert (end + more)[|Utf8(body)|] == NL;
    assert (end + more)[..|end|] == end && (end + more)[|end|..] == more;
  }

  lemma NewlineByte()
    ensures Utf8("\n") == [NL]
  {
    assert "\n"[1..] == "";
  }

  /** One line read: what it adds, or the event it ends. */
  lemma EventsOfLine(decode: Decoder, data: string, line: string, crlf: bool, more: seq<Byte>)
    requires DecodesUtf8(decode) && '\n' !in line && (line == "" || line[|line| - 1] != '\r')
    ensures Events(decode, data, Utf8(Ended(line, crlf)) + more) ==
      if line == "" then NonBlank(Trim(data)) + Events(decode, "", more)
      else Events(decode, if DATA <= line then AddData(data, line) else data, more)
  {
    hide Utf8, LineText, Trim, AddData, IndexOf, DecodesUtf8, Ended;
    EndedBytes(line, crlf, more);
    EndedLineText(decode, line, crlf);
  }

  /** The data gathered line by line, as the reader does it. */
  function AddAll(data: string, texts: seq<string>): string
    decreases |texts|
  {
    if texts == [] then data else AddAll((if data == "" then "" else data + "\n") + texts[0], texts[1..])
  }

  lemma AddsItsText(data: string, f: Field)
    requires IsField(f) && f.Data?
    ensures DATA <= FieldText(f) && AddData(data, FieldText(f)) == (if data == "" then "" else data + "\n") + f.text
  {
    var rest := (if f.spaced then " " else "") + f.text;
    assert FieldText(f)[|DATA|..] == rest;
    assert f.spaced ==> rest[1..] == f.text;
  }

  lemma {:induction false} EventsOfLines(decode: Decoder, data: string, lines: seq<FieldLine>, more: seq<Byte>)
    requires DecodesUtf8(decode) && AreFields(lines)
    ensures Events(decode, data, Utf8(PrintLines(lines)) + more) == Events(decode, AddAll(data, DataTexts(lines)), more)
    decreases |lines|
  {
    if lines == [] {
      assert Utf8("") == [] && [] + more == more;
    } else {
      hide Events, Utf8, IsField, FieldText, DecodesUtf8, AddData, Ended;
      var f, rest := lines[0].field, lines[1..];
      var first, later := Ended(FieldText(f), lines[0].crlf), PrintLines(rest);
      FieldIsLine(f);
      Utf8Concat(first, later);
      ConcatAssoc(Utf8(first), Utf8(later), more);
      EventsOfLine(decode, data, FieldText(f), lines[0].crlf, Utf8(later) + more);
      if f.Data? {
        AddsItsText(data, f);
        EventsOfLines(decode, AddData(data, FieldText(f)), rest, more);
        assert ([f.text] + DataTexts(rest))[1..] == DataTexts(rest);
      } else {
        EventsOfLines(decode, data, rest, more);
        assert [] + DataTexts(rest) == DataTexts(rest);
      }
    }
  }

  lemma FieldIsLine(f: Field)
    requires IsField(f)
    ensures FieldText(f) != "" && '\n' !in FieldText(f) && FieldText(f)[|FieldText(f)| - 1] != '\r'
    ensures f.Other? ==> !(DATA <= FieldText(f))
  {
  }

  lemma {:induction false} AddAllToSome(data: string, texts: seq<string>)
    requires data != ""
    ensures AddAll(data, texts) == if texts == [] then data else data + "\n" + Join(texts, "\n")
    decreases |texts|
  {
    if texts != [] {
      AddAllToSome(data + "\n" + texts[0], texts[1..]);
      if |texts| > 1 {
        assert data + "\n" + texts[0] + "\n" + Join(texts[1..], "\n") == data + "\n" + Join(texts, "\n");
      }
    }
  }

  /** Gathering drops leading empty values, which trimming does too. */
  lemma {:induction false} GatheredIsPayload(texts: seq<string>)
    ensures Trim(AddAll("", texts)) == Trim(Join(texts, "\n"))
    decreases |texts|
  {
    if texts != [] {
      assert "" + texts[0] == texts[0];
      if texts[0] != "" {
        AddAllToSome(texts[0], texts[1..]);
        assert |texts| == 1 ==> texts[1..] == [];
      } else {
        GatheredIsPayload(texts[1..]);
        if |texts| > 1 {
          var rest := Join(texts[1..], "\n");
          assert Join(texts, "\n") == "\n" + rest && ("\n" + rest)[1..] == rest;
        } else {
          assert texts[1..] == [];
        }
      }
    }
  }

  /** Everything up to the end: the events closed by a blank line, one that is not, and a last
      piece of a line, which is not looked at. */
  function Stream(events: seq<Event>, tail: seq<FieldLine>, piece: string): string {
    PrintEvents(events) + PrintLines(tail) + piece
  }

  lemma EventsOfTail(decode: Decoder, tail: seq<FieldLine>, piece: string)
    requires DecodesUtf8(decode) && AreFields(tail) && '\n' !in piece
    ensures Events(decode, "", Utf8(PrintLines(tail)) + Utf8(piece)) == NonBlank(Payload(tail))
  {
    hide Trim, AddAll, DecodesUtf8;
    EventsOfLines(decode, "", tail, Utf8(piece));
    GatheredIsPayload(DataTexts(tail));
  }

  lemma EventsOfEvent(decode: Decoder, e: Event, more: seq<Byte>)
    requires DecodesUtf8(decode) && AreFields(e.lines)
    ensures Events(decode, "", Utf8(PrintLines(e.lines) + Ended("", e.crlf)) + more) ==
      NonBlank(Payload(e.lines)) + Events(decode, "", more)
  {
    hide Events, Utf8, Trim, AddAll, DecodesUtf8, Ended;
    var a, b := PrintLines(e.lines), Ended("", e.crlf);
    Utf8Concat(a, b);
    ConcatAssoc(Utf8(a), Utf8(b), more);
    EventsOfLines(decode, "", e.lines, Utf8(b) + more);
    EventsOfLine(decode, AddAll("", DataTexts(e.lines)), "", e.crlf, more);
    GatheredIsPayload(DataTexts(e.lines));
  }

  /** Reading a stream gives the payloads written, in order, blank ones left out, whatever the
      line ends and whatever other fields and comments stand between. */
  lemma {:induction false} EventsOfPrinted(decode: Decoder, events: seq<Event>, tail: seq<FieldLine>, piece: string)
    requires DecodesUtf8(decode) && AreEvents(events) && AreFields(tail) && '\n' !in piece
    ensures Events(decode, "", Utf8(Stream(events, tail, piece))) == Payloads(events) + NonBlank(Payload(tail))
    decreases |events|
  {
    hide Events, Utf8, Payload, DecodesUtf8, Ended, PrintLines;
    if events == [] {
      assert "" + PrintLines(tail) == PrintLines(tail);
      Utf8Concat(PrintLines(tail), piece);
      EventsOfTail(decode, tail, piece);
      assert [] + NonBlank(Payload(tail)) == NonBlank(Payload(tail));
    } else {
      var first := PrintLines(events[0].lines) + Ended("", events[0].crlf);
      var rest := Stream(events[1..], tail, piece);
      assert Stream(events, tail, piece) == first + rest;
      Utf8Concat(first, rest);
      EventsOfEvent(decode, events[0], Utf8(rest));
      EventsOfPrinted(decode, events[1..], tail, piece);
      ConcatAssoc(NonBlank(Payload(events[0].lines)), Payloads(events[1..]), NonBlank(Payload(tail)));
    }
  }

  /** The verdict on a stream so written, however it is cut into chunks: the first payload that
      is the reply if fewer than 256 come before it. */
  lemma VerdictOnPrinted<R>(decode: Decoder, find: Matcher<R>, events: seq<Event>, tail: seq<FieldLine>, piece: string,
                            chunks: seq<seq<Byte>>)
    requires DecodesUtf8(decode) && AreEvents(events) && AreFields(tail) && '\n' !in piece
    requires Concat(chunks) == Utf8(Stream(events, tail, piece)) && |Concat(chunks)| <= MAX_BODY
    ensures IsVerdictOn(find, Payloads(events) + NonBlank(Payload(tail)), 0, ReadChunks(decode, find, chunks))
  {
    hide IsVerdictOn, Events, ReadChunks, DecodesUtf8, Stream, Payload;
    EventsOfPrinted(decode, events, tail, piece);
    ResponseIsFirstMatch(decode, find, chunks);
  }
}

/** Printing file changes in V4A form, and the round trip through the parser. */
module PatchPrint {
  import opened Text
  import opened PatchFormat

  // ---- printing ----

  /** What a printer is free to choose: what follows `@@`, and whether blank context is a bare
      empty line. */
  datatype Style = Style(header: string, bare: bool)

  function PrintLine(st: Style, l: Line): string {
    match l.op
    case Ctx => if st.bare && l.text == "" then "" else " " + l.text
    case Del => "-" + l.text
    case Ins => "+" + l.text
  }

  function PrintLines(st: Style, ls: seq<Line>): (r: seq<string>)
    ensures |r| == |ls| && forall k :: 0 <= k < |r| ==> r[k] == PrintLine(st, ls[k])
  {
    seq(|ls|, k requires 0 <= k < |ls| => PrintLine(st, ls[k]))
  }

  function PrintSections(st: Style, ss: seq<Section>): seq<string> {
    if ss == [] then [] else [HUNK + st.header] + PrintLines(st, ss[0]) + PrintSections(st, ss[1..])
  }

  /** The lines of an added file, each behind a `+`. */
  function PrintContent(content: string): seq<string> {
    if content == "" then [] else
      var ls := Split(content[..|content| - 1], '\n');
      seq(|ls|, k requires 0 <= k < |ls| => "+" + ls[k])
  }

  function PrintBody(st: Style, ch: FileChange): seq<string> {
    match ch.kind
    case Add(content) => PrintContent(content)
    case Delete => []
    case Update(moveTo, sections) => (if moveTo.Some? then [MOVE + moveTo.value] else []) + PrintSections(st, sections)
  }

  function PrintHeader(ch: FileChange): string {
    (match ch.kind case Add(_) => ADD case Delete => DELETE case Update(_, _) => UPDATE) + ch.path
  }

  function PrintChange(st: Style, ch: FileChange): seq<string> {
    [PrintHeader(ch)] + PrintBody(st, ch)
  }

  function PrintChanges(st: Style, cs: seq<FileChange>): seq<string> {
    if cs == [] then [] else PrintChange(st, cs[0]) + PrintChanges(st, cs[1..])
  }

  // ---- what can be printed ----

  /** Survives line splitting: no newline inside, no carriage return at the end. */
  predicate IsLine(s: string) {
    '\n' !in s && (s == "" || s[|s| - 1] != '\r')
  }

  predicate PrintablePath(p: string) {
    IsLine(p) && Trim(p) == p
  }

  predicate PrintableSection(s: Section) {
    s != [] && forall l | l in s :: IsLine(l.text)
  }

  /** Empty, or whole lines each ended by a newline. */
  predicate PrintableContent(content: string) {
    content == "" || (content[|content| - 1] == '\n' && forall l | l in Split(content[..|content| - 1], '\n') :: IsLine(l))
  }

  predicate Printable(ch: FileChange) {
    PrintablePath(ch.path) &&
    match ch.kind
    case Add(content) => PrintableContent(content)
    case Delete => true
    case Update(moveTo, sections) =>
      (moveTo.Some? ==> PrintablePath(moveTo.value)) && sections != [] && forall s | s in sections :: PrintableSection(s)
  }

  // ---- headers are told apart, and never stop inside a body ----

  lemma StarredIsNotBlank(l: string)
    requires l != "" && l[0] == '*'
    ensures Trim(l) != ""
  {
    var a, b := TrimSpec(l);
  }

  lemma HeaderFacts(ch: FileChange)
    ensures var l := PrintHeader(ch);
      && MARK <= l && l != "" && l[0] == '*'
      && (ADD <= l <==> ch.kind.Add?)
      && (DELETE <= l <==> ch.kind.Delete?)
      && (UPDATE <= l <==> ch.kind.Update?)
  {
    var l := PrintHeader(ch);
    assert ADD[4] == 'A' && DELETE[4] == 'D' && UPDATE[4] == 'U';
    assert ADD[..4] == MARK && DELETE[..4] == MARK && UPDATE[..4] == MARK;
  }

  /** `block` stands in `lines` from `i` on. */
  predicate At(lines: seq<string>, i: nat, block: seq<string>) {
    i + |block| <= |lines| && forall k {:trigger block[k]} | 0 <= k < |block| :: lines[i + k] == block[k]
  }

  lemma AtSlice(lines: seq<string>, i: nat, block: seq<string>)
    requires At(lines, i, block)
    ensures lines[i..i + |block|] == block
  {
  }

  lemma AtConcat(lines: seq<string>, i: nat, a: seq<string>, b: seq<string>)
    requires At(lines, i, a + b)
    ensures At(lines, i, a) && At(lines, i + |a|, b)
  {
    forall k | 0 <= k < |a| ensures lines[i + k] == a[k] {
      assert (a + b)[k] == a[k];
    }
    forall k | 0 <= k < |b| ensures lines[i + |a| + k] == b[k] {
      assert (a + b)[|a| + k] == b[k];
    }
  }

  lemma {:induction false} BodyEndIs(lines: seq<string>, i: nat, body: seq<string>, end: nat)
    requires i + |body| <= end <= |lines| && At(lines, i, body) && Stops(lines, i + |body|, end)
    requires forall l | l in body :: !(MARK <= l)
    ensures BodyEnd(lines, i, end) == i + |body|
    decreases |body|
  {
    if body != [] {
      assert lines[i + 0] == body[0] && body[0] in body;
      assert [body[0]] + body[1..] == body;
      AtConcat(lines, i, [body[0]], body[1..]);
      assert forall l :: l in body[1..] ==> l in body;
      BodyEndIs(lines, i + 1, body[1..], end);
    }
  }

  // ---- hunks ----

  lemma ClassifyPrinted(st: Style, l: Line)
    ensures Classify(PrintLine(st, l)) == Ok(l)
    ensures !(HUNK <= PrintLine(st, l)) && !(MARK <= PrintLine(st, l))
  {
  }

  /** Printed lines parse into the open section. */
  lemma {:induction false} HunksOfLines(st: Style, ls: seq<Line>, rest: seq<string>, cur: Section)
    ensures Hunks(PrintLines(st, ls) + rest, cur) == Hunks(rest, cur + ls)
  {
    if ls == [] {
      assert PrintLines(st, ls) + rest == rest && cur + ls == cur;
    } else {
      var all := PrintLines(st, ls) + rest;
      ClassifyPrinted(st, ls[0]);
      assert all[0] == PrintLine(st, ls[0]);
      assert all[1..] == PrintLines(st, ls[1..]) + rest;
      HunksOfLines(st, ls[1..], rest, cur + [ls[0]]);
      assert cur + [ls[0]] + ls[1..] == cur + ls;
    }
  }

  lemma HunksAtMark(st: Style, rest: seq<string>, cur: Section)
    ensures Hunks([HUNK + st.header] + rest, cur) == Prepended(Flush(cur), Hunks(rest, []))
  {
    assert ([HUNK + st.header] + rest)[1..] == rest;
  }

  lemma HunksOfNothing(cur: Section)
    ensures Hunks([], cur) == Ok(Flush(cur))
  {
  }

  lemma {:induction false} HunksOfSections(st: Style, ss: seq<Section>, cur: Section)
    requires forall s | s in ss :: s != []
    ensures Hunks(PrintSections(st, ss), cur) == Ok(Flush(cur) + ss)
  {
    hide PrintLines, Classify, Hunks;
    if ss == [] {
      HunksOfNothing(cur);
      assert Flush(cur) + ss == Flush(cur);
    } else {
      var body := PrintLines(st, ss[0]) + PrintSections(st, ss[1..]);
      assert ss[0] in ss && forall s :: s in ss[1..] ==> s in ss;
      HunksOfSections(st, ss[1..], ss[0]);
      HunksOfLines(st, ss[0], PrintSections(st, ss[1..]), []);
      assert [] + ss[0] == ss[0];
      HunksAtMark(st, body, cur);
      assert PrintSections(st, ss) == [HUNK + st.header] + body;
      assert [ss[0]] + ss[1..] == ss;
    }
  }

  lemma {:induction false} SectionLinesDoNotStop(st: Style, ss: seq<Section>)
    ensures forall l | l in PrintSections(st, ss) :: !(MARK <= l)
  {
    if ss != [] {
      SectionLinesDoNotStop(st, ss[1..]);
      assert (HUNK + st.header)[0] == '@' && MARK[0] == '*';
      forall l | l in PrintLines(st, ss[0]) ensures !(MARK <= l) {
        var k :| 0 <= k < |PrintLines(st, ss[0])| && PrintLines(st, ss[0])[k] == l;
        ClassifyPrinted(st, ss[0][k]);
      }
    }
  }

  // ---- added content ----

  lemma ContentRoundTrip(content: string)
    requires PrintableContent(content)
    ensures AddedContent(MapContent(PrintContent(content))) == content
    ensures forall l | l in PrintContent(content) :: !(MARK <= l)
  {
    if content != "" {
      var body := content[..|content| - 1];
      var ls := Split(body, '\n');
      assert MapContent(PrintContent(content)) == ls;
      JoinOfSplit(body, '\n');
    }
  }

  // ---- one change ----

  lemma AddAt(lines: seq<string>, i: nat, path: string, content: string, end: nat)
    requires PrintablePath(path) && PrintableContent(content)
    requires i + 1 + |PrintContent(content)| <= end <= |lines| && lines[i] == ADD + path
    requires At(lines, i + 1, PrintContent(content)) && Stops(lines, i + 1 + |PrintContent(content)|, end)
    ensures ActionAt(lines, i, end) == Ok((FileChange(path, Add(content)), i + 1 + |PrintContent(content)|))
  {
    hide PrintContent, PrintableContent, AddedContent, MapContent, Stops;
    ContentRoundTrip(content);
    BodyEndIs(lines, i + 1, PrintContent(content), end);
    AtSlice(lines, i + 1, PrintContent(content));
    assert lines[i][|ADD|..] == path;
  }

  lemma DeleteAt(lines: seq<string>, i: nat, path: string, end: nat)
    requires PrintablePath(path) && i < end <= |lines| && lines[i] == DELETE + path
    ensures ActionAt(lines, i, end) == Ok((FileChange(path, Delete), i + 1))
  {
    HeaderFacts(FileChange(path, Delete));
    assert lines[i][|DELETE|..] == path;
  }

  lemma SectionsStart(st: Style, lines: seq<string>, from: nat, sections: seq<Section>)
    requires sections != [] && At(lines, from, PrintSections(st, sections))
    ensures from < |lines| && lines[from] == HUNK + st.header
  {
    var hunks := PrintSections(st, sections);
    assert hunks[0] == HUNK + st.header && lines[from + 0] == hunks[0];
  }

  lemma SectionsAt(st: Style, lines: seq<string>, from: nat, sections: seq<Section>, end: nat)
    requires sections != [] && forall s | s in sections :: s != []
    requires from + |PrintSections(st, sections)| <= end <= |lines| && At(lines, from, PrintSections(st, sections))
    requires Stops(lines, from + |PrintSections(st, sections)|, end)
    ensures BodyEnd(lines, from, end) == from + |PrintSections(st, sections)|
    ensures Hunks(lines[from..from + |PrintSections(st, sections)|], []) == Ok(sections)
    ensures from < |lines| && lines[from] == HUNK + st.header
  {
    hide At, BodyEnd, Hunks, Stops, PrintSections;
    SectionsStart(st, lines, from, sections);
    SectionLinesDoNotStop(st, sections);
    HunksOfSections(st, sections, []);
    assert Flush([]) + sections == sections;
    AtSlice(lines, from, PrintSections(st, sections));
    BodyEndIs(lines, from, PrintSections(st, sections), end);
  }

  lemma UpdateAt(st: Style, lines: seq<string>, i: nat, path: string, moveTo: Option<string>, sections: seq<Section>, end: nat)
    requires Printable(FileChange(path, Update(moveTo, sections)))
    requires lines != [] && i < |lines| && lines[i] == UPDATE + path
    requires moveTo.Some? ==> i + 1 < |lines| && lines[i + 1] == MOVE + moveTo.value
    requires var from := if moveTo.Some? then i + 2 else i + 1;
      && from + |PrintSections(st, sections)| <= end <= |lines| && At(lines, from, PrintSections(st, sections))
      && Stops(lines, from + |PrintSections(st, sections)|, end)
    ensures ActionAt(lines, i, end) == Ok((FileChange(path, Update(moveTo, sections)),
      (if moveTo.Some? then i + 2 else i + 1) + |PrintSections(st, sections)|))
  {
    hide At, BodyEnd, Hunks, Stops, PrintSections;
    var from := if moveTo.Some? then i + 2 else i + 1;
    HeaderFacts(FileChange(path, Update(moveTo, sections)));
    SectionsAt(st, lines, from, sections, end);
    assert lines[i][|UPDATE|..] == path;
    assert (HUNK + st.header)[0] == '@' && MOVE[0] == '*';
    if moveTo.Some? {
      assert lines[i + 1][|MOVE|..] == moveTo.value;
    }
  }

  lemma HeaderAndBodyAt(st: Style, lines: seq<string>, i: nat, ch: FileChange)
    requires At(lines, i, PrintChange(st, ch))
    ensures i < |lines| && lines[i] == PrintHeader(ch) && At(lines, i + 1, PrintBody(st, ch))
    ensures |PrintChange(st, ch)| == 1 + |PrintBody(st, ch)|
  {
    hide PrintHeader, PrintBody;
    AtConcat(lines, i, [PrintHeader(ch)], PrintBody(st, ch));
    assert lines[i + 0] == [PrintHeader(ch)][0];
  }

  lemma MoveAndSectionsAt(lines: seq<string>, i: nat, move: string, hunks: seq<string>)
    requires At(lines, i, [move] + hunks)
    ensures i < |lines| && lines[i] == move && At(lines, i + 1, hunks)
  {
    AtConcat(lines, i, [move], hunks);
    assert lines[i + 0] == [move][0];
  }

  lemma ActionOfPrinted(st: Style, lines: seq<string>, i: nat, ch: FileChange, end: nat)
    requires Printable(ch) && i + |PrintChange(st, ch)| <= end <= |lines| && At(lines, i, PrintChange(st, ch))
    requires Stops(lines, i + |PrintChange(st, ch)|, end)
    ensures ActionAt(lines, i, end) == Ok((ch, i + |PrintChange(st, ch)|))
  {
    hide At, Stops, ActionAt, PrintContent, PrintSections, PrintableSection, PrintableContent, PrintablePath, PrintChange;
    HeaderAndBodyAt(st, lines, i, ch);
    match ch.kind
    case Add(content) => AddAt(lines, i, ch.path, content, end);
    case Delete => DeleteAt(lines, i, ch.path, end);
    case Update(moveTo, sections) =>
      if moveTo.Some? {
        MoveAndSectionsAt(lines, i + 1, MOVE + moveTo.value, PrintSections(st, sections));
      } else {
        assert PrintBody(st, ch) == PrintSections(st, sections);
      }
      UpdateAt(st, lines, i, ch.path, moveTo, sections, end);
  }

  lemma PrintedStartsStop(st: Style, cs: seq<FileChange>)
    requires cs != []
    ensures PrintChanges(st, cs) != [] && MARK <= PrintChanges(st, cs)[0]
  {
    HeaderFacts(cs[0]);
    assert PrintChanges(st, cs)[0] == PrintHeader(cs[0]);
  }

  lemma FirstPrinted(st: Style, lines: seq<string>, i: nat, cs: seq<FileChange>, end: nat)
    requires cs != [] && Printable(cs[0])
    requires i + |PrintChanges(st, cs)| == end <= |lines| && At(lines, i, PrintChanges(st, cs))
    ensures var next := i + |PrintChange(st, cs[0])|;
      && i < next <= end && Trim(lines[i]) != "" && ActionAt(lines, i, end) == Ok((cs[0], next))
      && At(lines, next, PrintChanges(st, cs[1..]))
  {
    hide ActionAt, Printable, Trim, PrintBody, PrintHeader;
    var next := i + |PrintChange(st, cs[0])|;
    AtConcat(lines, i, PrintChange(st, cs[0]), PrintChanges(st, cs[1..]));
    if cs[1..] != [] {
      PrintedStartsStop(st, cs[1..]);
      assert lines[next + 0] == PrintChanges(st, cs[1..])[0];
    }
    ActionOfPrinted(st, lines, i, cs[0], end);
    HeaderFacts(cs[0]);
    assert lines[i + 0] == PrintChange(st, cs[0])[0];
    StarredIsNotBlank(lines[i]);
  }

  lemma {:induction false} ActionsOfPrinted(st: Style, lines: seq<string>, i: nat, cs: seq<FileChange>, end: nat)
    requires forall c | c in cs :: Printable(c)
    requires i + |PrintChanges(st, cs)| == end <= |lines| && At(lines, i, PrintChanges(st, cs))
    ensures Actions(lines, i, end) == Ok(cs)
    decreases |cs|
  {
    hide ActionAt, Printable, Trim, PrintChange, At;
    if cs != [] {
      assert cs[0] in cs && forall c :: c in cs[1..] ==> c in cs;
      FirstPrinted(st, lines, i, cs, end);
      ActionsOfPrinted(st, lines, i + |PrintChange(st, cs[0])|, cs[1..], end);
      assert [cs[0]] + cs[1..] == cs;
    }
  }

  /** The patch text: the envelope around the printed changes, with any other lines before and after. */
  function PatchBody(st: Style, before: seq<string>, cs: seq<FileChange>, after: seq<string>): seq<string> {
    before + [BEGIN] + PrintChanges(st, cs) + [END] + after
  }

  lemma EnvelopeTrims()
    ensures Trim(BEGIN) == BEGIN && Trim(END) == END
  {
  }

  lemma EnvelopeFound(st: Style, before: seq<string>, cs: seq<FileChange>, after: seq<string>)
    requires forall l | l in before :: Trim(l) != BEGIN
    requires forall l | l in after :: Trim(l) != END
    ensures var lines := PatchBody(st, before, cs, after);
      && Position(lines, BEGIN) == Some(|before|)
      && RPosition(lines, END) == Some(|before| + 1 + |PrintChanges(st, cs)|)
  {
    hide Trim, PrintChanges;
    var lines := PatchBody(st, before, cs, after);
    var b, e := |before|, |before| + 1 + |PrintChanges(st, cs)|;
    EnvelopeTrims();
    assert lines[b] == BEGIN && lines[e] == END;
    assert forall k :: 0 <= k < b ==> lines[k] == before[k];
    assert forall k :: e < k < |lines| ==> lines[k] == after[k - e - 1];
  }

  /** Parsing what was printed gives the changes back, whatever surrounds the envelope and
      whatever the hunk lines say, markers included. */
  lemma ParsePrinted(st: Style, before: seq<string>, cs: seq<FileChange>, after: seq<string>)
    requires cs != [] && forall c | c in cs :: Printable(c)
    requires forall l | l in before :: Trim(l) != BEGIN
    requires forall l | l in after :: Trim(l) != END
    ensures ParsedLines(PatchBody(st, before, cs, after)) == Ok(cs)
  {
    hide Trim, PrintChanges, Printable, Actions;
    var lines := PatchBody(st, before, cs, after);
    var i := |before| + 1;
    EnvelopeFound(st, before, cs, after);
    forall k {:trigger PrintChanges(st, cs)[k]} | 0 <= k < |PrintChanges(st, cs)|
      ensures lines[i + k] == PrintChanges(st, cs)[k]
    {
    }
    ActionsOfPrinted(st, lines, i, cs, i + |PrintChanges(st, cs)|);
  }

  // ---- as text ----

  lemma LinePrefixed(prefix: string, s: string)
    requires IsLine(prefix) && prefix != "" && IsLine(s)
    ensures IsLine(prefix + s)
  {
  }

  lemma {:induction false} SectionLinesAreLines(st: Style, ss: seq<Section>)
    requires IsLine(st.header) && forall s | s in ss :: PrintableSection(s)
    ensures forall l | l in PrintSections(st, ss) :: IsLine(l)
  {
    if ss != [] {
      LinePrefixed(HUNK, st.header);
      assert ss[0] in ss && forall s :: s in ss[1..] ==> s in ss;
      SectionLinesAreLines(st, ss[1..]);
      forall k | 0 <= k < |ss[0]| ensures IsLine(PrintLines(st, ss[0])[k]) {
        assert ss[0][k] in ss[0];
        LinePrefixed(if ss[0][k].op.Ctx? then " " else if ss[0][k].op.Del? then "-" else "+", ss[0][k].text);
      }
    }
  }

  lemma BodyLinesAreLines(st: Style, ch: FileChange)
    requires IsLine(st.header) && Printable(ch)
    ensures forall l | l in PrintBody(st, ch) :: IsLine(l)
  {
    match ch.kind
    case Delete =>
    case Add(content) =>
      if content != "" {
        var ls := Split(content[..|content| - 1], '\n');
        forall k | 0 <= k < |ls| ensures IsLine("+" + ls[k]) {
          assert ls[k] in ls;
          LinePrefixed("+", ls[k]);
        }
      }
    case Update(moveTo, sections) =>
      SectionLinesAreLines(st, sections);
      if moveTo.Some? { LinePrefixed(MOVE, moveTo.value); }
  }

  lemma {:induction false} ChangeLinesAreLines(st: Style, cs: seq<FileChange>)
    requires IsLine(st.header) && forall c | c in cs :: Printable(c)
    ensures forall l | l in PrintChanges(st, cs) :: IsLine(l)
  {
    hide Printable, PrintBody, IsLine;
    if cs != [] {
      assert cs[0] in cs && forall c :: c in cs[1..] ==> c in cs;
      ChangeLinesAreLines(st, cs[1..]);
      BodyLinesAreLines(st, cs[0]);
      HeaderIsLine(cs[0]);
    }
  }

  lemma HeaderIsLine(ch: FileChange)
    requires Printable(ch)
    ensures IsLine(PrintHeader(ch))
  {
    LinePrefixed(match ch.kind case Add(_) => ADD case Delete => DELETE case Update(_, _) => UPDATE, ch.path);
  }

  /** The same lines with a carriage return on all but the last. */
  function WithCr(lines: seq<string>): seq<string> {
    if |lines| <= 1 then lines else [lines[0] + "\r"] + WithCr(lines[1..])
  }

  lemma {:induction false} JoinedWithCr(lines: seq<string>)
    ensures Join(lines, "\r\n") == Join(WithCr(lines), "\n")
    ensures |WithCr(lines)| == |lines|
    ensures forall k | 0 <= k < |lines| :: WithCr(lines)[k] in {lines[k], lines[k] + "\r"}
  {
    if |lines| > 1 {
      JoinedWithCr(lines[1..]);
      var rest := WithCr(lines[1..]);
      assert ([lines[0] + "\r"] + rest)[1..] == rest;
      var text := Join(rest, "\n");
      assert lines[0] + "\r\n" + text == lines[0] + "\r" + "\n" + text;
    }
  }

  lemma PatchLinesOfJoin(lines: seq<string>, sep: string)
    requires lines != [] && (sep == "\n" || sep == "\r\n") && forall l | l in lines :: IsLine(l)
    ensures PatchLines(Join(lines, sep)) == lines
  {
    JoinedWithCr(lines);
    var pieces := if sep == "\n" then lines else WithCr(lines);
    forall k | 0 <= k < |lines| ensures '\n' !in pieces[k] && StripCr(pieces[k]) == lines[k] {
      assert lines[k] in lines && pieces[k] in {lines[k], lines[k] + "\r"};
      StripCrOf(lines[k], pieces[k]);
    }
    SplitOfJoin(pieces, '\n');
  }

  /** The round trip on text, with either line end and any style. */
  lemma PrintParseRoundTrip(st: Style, sep: string, before: seq<string>, cs: seq<FileChange>, after: seq<string>)
    requires IsLine(st.header) && (sep == "\n" || sep == "\r\n") && cs != [] && forall c | c in cs :: Printable(c)
    requires forall l | l in before :: IsLine(l) && Trim(l) != BEGIN
    requires forall l | l in after :: IsLine(l) && Trim(l) != END
    ensures Parsed(Join(PatchBody(st, before, cs, after), sep)) == Ok(cs)
  {
    hide Printable, PrintChanges, Trim, ParsedLines, Join, PatchLines;
    ChangeLinesAreLines(st, cs);
    assert IsLine(BEGIN) && IsLine(END);
    PatchLinesOfJoin(PatchBody(st, before, cs, after), sep);
    ParsePrinted(st, before, cs, after);
  }
}

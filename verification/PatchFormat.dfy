/** The V4A patch grammar: parsing a patch into file changes, and printing them back. */
module PatchFormat {
  import opened Text

  const BEGIN := "*** Begin Patch"
  const END := "*** End Patch"
  const ADD := "*** Add File: "
  const DELETE := "*** Delete File: "
  const UPDATE := "*** Update File: "
  const MOVE := "*** Move to: "
  const MARK := "*** "
  const HUNK := "@@"

  datatype Op = Ctx | Del | Ins
  datatype Line = Line(op: Op, text: string)
  type Section = seq<Line>

  datatype ChangeKind = Add(content: string) | Delete | Update(moveTo: Option<string>, sections: seq<Section>)
  datatype FileChange = FileChange(path: string, kind: ChangeKind)

  datatype ParseError = NoBegin | NoEnd | EndBeforeBegin | NoActions
    | NoHunks(path: string) | BadHunkLine(line: string) | UnexpectedLine(line: string)

  datatype Result<+T, +E> = Ok(value: T) | Err(error: E)

  // ---- what parsing yields ----

  function PatchLines(patch: string): (lines: seq<string>)
    ensures lines != []
  {
    var pieces := Split(patch, '\n');
    seq(|pieces|, k requires 0 <= k < |pieces| => StripCr(pieces[k]))
  }

  /** First line that trims to `marker`. */
  function Position(lines: seq<string>, marker: string): (r: Option<nat>)
    ensures r.None? ==> forall k :: 0 <= k < |lines| ==> Trim(lines[k]) != marker
    ensures r.Some? ==> r.value < |lines| && Trim(lines[r.value]) == marker
    ensures r.Some? ==> forall k :: 0 <= k < r.value ==> Trim(lines[k]) != marker
  {
    if lines == [] then None
    else if Trim(lines[0]) == marker then Some(0)
    else
      var r := Position(lines[1..], marker);
      assert forall k :: 0 < k < |lines| ==> lines[k] == lines[1..][k - 1];
      if r.Some? then Some(r.value + 1) else None
  }

  /** Last line that trims to `marker`. */
  function RPosition(lines: seq<string>, marker: string): (r: Option<nat>)
    ensures r.None? ==> forall k :: 0 <= k < |lines| ==> Trim(lines[k]) != marker
    ensures r.Some? ==> r.value < |lines| && Trim(lines[r.value]) == marker
    ensures r.Some? ==> forall k :: r.value < k < |lines| ==> Trim(lines[k]) != marker
  {
    if lines == [] then None
    else if Trim(lines[|lines| - 1]) == marker then Some(|lines| - 1)
    else RPosition(lines[..|lines| - 1], marker)
  }

  /** ` ` context, `-` deletion, `+` insertion; a bare empty line is blank context. */
  function Classify(l: string): Result<Line, ParseError> {
    if l == "" then Ok(Line(Ctx, ""))
    else if l[0] == '+' then Ok(Line(Ins, l[1..]))
    else if l[0] == '-' then Ok(Line(Del, l[1..]))
    else if l[0] == ' ' then Ok(Line(Ctx, l[1..]))
    else Err(BadHunkLine(l))
  }

  /** The body of a change runs to the end marker or to the next `*** ` line. */
  predicate Stops(lines: seq<string>, i: nat, end: nat)
    requires end <= |lines|
  {
    i >= end || MARK <= lines[i]
  }

  function BodyEnd(lines: seq<string>, i: nat, end: nat): (j: nat)
    requires end <= |lines|
    ensures i <= j && Stops(lines, j, end) && (j <= end || j == i)
    ensures forall k | i <= k < j :: !Stops(lines, k, end)
    decreases end - i
  {
    if Stops(lines, i, end) then i else BodyEnd(lines, i + 1, end)
  }

  function ContentLine(l: string): string {
    if l != "" && l[0] == '+' then l[1..] else l
  }

  function AddedContent(ls: seq<string>): string {
    if ls == [] then "" else Join(ls, "\n") + "\n"
  }

  function MapContent(ls: seq<string>): (r: seq<string>)
    ensures |r| == |ls| && forall k :: 0 <= k < |r| ==> r[k] == ContentLine(ls[k])
  {
    seq(|ls|, k requires 0 <= k < |ls| => ContentLine(ls[k]))
  }

  function Flush(cur: Section): (r: seq<Section>)
    ensures forall s :: s in r ==> s != []
  {
    if cur == [] then [] else [cur]
  }

  function Prepended<T, E>(front: seq<T>, r: Result<seq<T>, E>): Result<seq<T>, E> {
    match r
    case Ok(rest) => Ok(front + rest)
    case Err(e) => Err(e)
  }

  lemma PrependedNothing<T, E>(r: Result<seq<T>, E>)
    ensures Prepended([], r) == r
  {
    if r.Ok? { assert [] + r.value == r.value; }
  }

  lemma PrependedTwice<T, E>(a: seq<T>, b: seq<T>, r: Result<seq<T>, E>)
    ensures Prepended(a, Prepended(b, r)) == Prepended(a + b, r)
  {
    if r.Ok? { ConcatAssoc(a, b, r.value); }
  }

  /** Hunk lines grouped at `@@`, with `cur` open; empty groups vanish. */
  function Hunks(ls: seq<string>, cur: Section): (r: Result<seq<Section>, ParseError>)
    ensures r.Ok? ==> forall s :: s in r.value ==> s != []
  {
    if ls == [] then Ok(Flush(cur))
    else if HUNK <= ls[0] then
      Prepended(Flush(cur), Hunks(ls[1..], []))
    else
      match Classify(ls[0])
      case Ok(l) => Hunks(ls[1..], cur + [l])
      case Err(e) => Err(e)
  }

  /** One file action at line `i`, and the line after it. */
  function ActionAt(lines: seq<string>, i: nat, end: nat): (r: Result<(FileChange, nat), ParseError>)
    requires i < end <= |lines|
    ensures r.Ok? ==> i < r.value.1
    ensures r.Ok? && r.value.0.kind.Update? ==>
      r.value.0.kind.sections != [] && forall s :: s in r.value.0.kind.sections ==> s != []
  {
    var line := lines[i];
    if ADD <= line then
      var j := BodyEnd(lines, i + 1, end);
      Ok((FileChange(Trim(line[|ADD|..]), Add(AddedContent(MapContent(lines[i + 1..j])))), j))
    else if DELETE <= line then
      Ok((FileChange(Trim(line[|DELETE|..]), Delete), i + 1))
    else if UPDATE <= line then
      var path := Trim(line[|UPDATE|..]);
      var moveTo := if i + 1 < |lines| && MOVE <= lines[i + 1] then Some(Trim(lines[i + 1][|MOVE|..])) else None;
      var from := if moveTo.Some? then i + 2 else i + 1;
      var j := BodyEnd(lines, from, end);
      match Hunks(lines[from..j], [])
      case Err(e) => Err(e)
      case Ok(sections) =>
        if sections == [] then Err(NoHunks(path)) else Ok((FileChange(path, Update(moveTo, sections)), j))
    else Err(UnexpectedLine(line))
  }

  function Actions(lines: seq<string>, i: nat, end: nat): (r: Result<seq<FileChange>, ParseError>)
    requires end <= |lines|
    decreases end - i
  {
    if i >= end then Ok([])
    else if Trim(lines[i]) == "" then Actions(lines, i + 1, end)
    else
      match ActionAt(lines, i, end)
      case Err(e) => Err(e)
      case Ok((change, next)) =>
        Prepended([change], Actions(lines, next, end))
  }

  function ParsedLines(lines: seq<string>): (r: Result<seq<FileChange>, ParseError>)
    ensures r.Ok? ==> r.value != []
  {
    match Position(lines, BEGIN)
    case None => Err(NoBegin)
    case Some(start) =>
      match RPosition(lines, END)
      case None => Err(NoEnd)
      case Some(end) =>
        if end <= start then Err(EndBeforeBegin)
        else
          match Actions(lines, start + 1, end)
          case Err(e) => Err(e)
          case Ok(changes) => if changes == [] then Err(NoActions) else Ok(changes)
  }

  function Parsed(patch: string): (r: Result<seq<FileChange>, ParseError>)
    ensures r.Ok? ==> r.value != []
  {
    ParsedLines(PatchLines(patch))
  }

  // ---- the parser's loops ----

  method ReadContent(lines: seq<string>, start: nat, end: nat) returns (content: seq<string>, i: nat)
    requires start <= end <= |lines|
    ensures i == BodyEnd(lines, start, end) && content == MapContent(lines[start..i])
  {
    i, content := start, [];
    while i < end && !(MARK <= lines[i])
      invariant start <= i <= end && BodyEnd(lines, i, end) == BodyEnd(lines, start, end)
      invariant content == MapContent(lines[start..i])
    {
      assert lines[start..i + 1] == lines[start..i] + [lines[i]];
      content := content + [ContentLine(lines[i])];
      i := i + 1;
    }
  }

  method ReadHunks(lines: seq<string>, start: nat, end: nat) returns (r: Result<seq<Section>, ParseError>, i: nat)
    requires start <= |lines| && end <= |lines|
    ensures r == Hunks(lines[start..BodyEnd(lines, start, end)], [])
    ensures r.Ok? ==> i == BodyEnd(lines, start, end)
  {
    var sections: seq<Section>, cur: Section := [], [];
    ghost var j := BodyEnd(lines, start, end);
    i := start;
    PrependedNothing(Hunks(lines[start..j], []));
    while i < end && !(MARK <= lines[i])
      invariant start <= i <= j && BodyEnd(lines, i, end) == j
      invariant Hunks(lines[start..j], []) == Prepended(sections, Hunks(lines[i..j], cur))
    {
      assert i < j && lines[i..j][0] == lines[i] && lines[i..j][1..] == lines[i + 1..j];
      if HUNK <= lines[i] {
        PrependedTwice(sections, Flush(cur), Hunks(lines[i + 1..j], []));
        sections := sections + Flush(cur);
        cur := [];
      } else {
        var l := Classify(lines[i]);
        if l.Err? { return Err(l.error), i; }
        cur := cur + [l.value];
      }
      i := i + 1;
    }
    r := Ok(sections + Flush(cur));
  }

  method ParseAction(lines: seq<string>, start: nat, end: nat) returns (r: Result<FileChange, ParseError>, i: nat)
    requires start < end <= |lines|
    ensures match ActionAt(lines, start, end)
      case Ok((change, next)) => r == Ok(change) && i == next
      case Err(e) => r == Err(e)
  {
    var line := lines[start];
    i := start + 1;
    if ADD <= line {
      var content;
      content, i := ReadContent(lines, i, end);
      r := Ok(FileChange(Trim(line[|ADD|..]), Add(AddedContent(content))));
    } else if DELETE <= line {
      r := Ok(FileChange(Trim(line[|DELETE|..]), Delete));
    } else if UPDATE <= line {
      var path := Trim(line[|UPDATE|..]);
      var moveTo := None;
      if i < |lines| && MOVE <= lines[i] {
        moveTo := Some(Trim(lines[i][|MOVE|..]));
        i := i + 1;
      }
      var sections;
      sections, i := ReadHunks(lines, i, end);
      if sections.Err? { return Err(sections.error), i; }
      if sections.value == [] { return Err(NoHunks(path)), i; }
      r := Ok(FileChange(path, Update(moveTo, sections.value)));
    } else {
      r := Err(UnexpectedLine(line));
    }
  }

  method ParseActions(lines: seq<string>, start: nat, end: nat) returns (r: Result<seq<FileChange>, ParseError>)
    requires start <= end <= |lines|
    ensures r == Actions(lines, start, end)
  {
    var changes, i := [], start;
    PrependedNothing(Actions(lines, start, end));
    while i < end
      invariant Actions(lines, start, end) == Prepended(changes, Actions(lines, i, end))
      decreases end - i
    {
      if Trim(lines[i]) == "" {
        i := i + 1;
      } else {
        var change, next := ParseAction(lines, i, end);
        if change.Err? { return Err(change.error); }
        PrependedTwice(changes, [change.value], Actions(lines, next, end));
        changes, i := changes + [change.value], next;
      }
    }
    assert changes + [] == changes;
    r := Ok(changes);
  }

  method Parse(patch: string) returns (r: Result<seq<FileChange>, ParseError>)
    ensures r == Parsed(patch)
  {
    var lines := PatchLines(patch);
    var begin := Position(lines, BEGIN);
    if begin.None? { return Err(NoBegin); }
    var last := RPosition(lines, END);
    if last.None? { return Err(NoEnd); }
    if last.value <= begin.value { return Err(EndBeforeBegin); }
    r := ParseActions(lines, begin.value + 1, last.value);
    if r == Ok([]) { r := Err(NoActions); }
  }
}

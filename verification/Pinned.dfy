/** The working set pinned into a fold: plan, notes and touched files, trimmed to a ceiling. */
module Pinned {
  import opened Text

  const PINNED_MAX_TOKENS := 2000

  datatype Note = Note(id: Option<string>, text: string)

  /** One line, with the id if there is one and the text in full. */
  function NoteLine(n: Note): (line: string)
    ensures "- " <= line && EndsWith(line, n.text + "\n")
    ensures n.id.Some? ==> "- (" + n.id.value + ") " <= line
  {
    match n.id
    case Some(id) => "- (" + id + ") " + n.text + "\n"
    case None => "- " + n.text + "\n"
  }

  function NoteLines(notes: seq<Note>): string {
    if notes == [] then "" else NoteLine(notes[0]) + NoteLines(notes[1..])
  }

  function FileLines(files: seq<string>): string {
    if files == [] then "" else FileLine(files[0]) + FileLines(files[1..])
  }

  function FileLine(file: string): string {
    "- " + file + "\n"
  }

  /** Open a further section under what is already there. */
  function Under(out: string, heading: string): string {
    (if out == "" then "" else out + "\n\n") + heading
  }

  function WithNotes(out: string, notes: seq<Note>): string {
    if notes == [] then out else TrimEnd(Under(out, "## Notes\n") + NoteLines(notes))
  }

  function WithFiles(out: string, files: seq<string>): string {
    if files == [] then out else TrimEnd(Under(out, "## Files touched\n") + FileLines(files))
  }

  function Composed(plan: string, notes: seq<Note>, files: seq<string>): string {
    WithFiles(WithNotes(if plan == "" then "" else "## Pinned Plan\n" + plan, notes), files)
  }

  lemma {:induction false} NoteLinesTake(notes: seq<Note>, i: nat)
    requires i < |notes|
    ensures NoteLines(notes[..i + 1]) == NoteLines(notes[..i]) + NoteLine(notes[i])
  {
    if i == 0 {
      assert notes[..1] == [notes[0]];
      assert NoteLines([notes[0]][1..]) == "";
    } else {
      assert notes[..i + 1][1..] == notes[1..][..i];
      assert notes[..i][1..] == notes[1..][..i - 1];
      NoteLinesTake(notes[1..], i - 1);
    }
  }

  lemma {:induction false} FileLinesTake(files: seq<string>, i: nat)
    requires i < |files|
    ensures FileLines(files[..i + 1]) == FileLines(files[..i]) + FileLine(files[i])
  {
    if i == 0 {
      assert files[..1] == [files[0]];
      assert FileLines([files[0]][1..]) == "";
    } else {
      assert files[..i + 1][1..] == files[1..][..i];
      assert files[..i][1..] == files[1..][..i - 1];
      FileLinesTake(files[1..], i - 1);
    }
  }

  method PushNotes(out: string, notes: seq<Note>) returns (r: string)
    ensures r == out + NoteLines(notes)
  {
    r := out;
    for i := 0 to |notes|
      invariant r == out + NoteLines(notes[..i])
    {
      NoteLinesTake(notes, i);
      ConcatAssoc(out, NoteLines(notes[..i]), NoteLine(notes[i]));
      r := r + NoteLine(notes[i]);
    }
    assert notes[..|notes|] == notes;
  }

  method PushFiles(out: string, files: seq<string>) returns (r: string)
    ensures r == out + FileLines(files)
  {
    r := out;
    for i := 0 to |files|
      invariant r == out + FileLines(files[..i])
    {
      FileLinesTake(files, i);
      ConcatAssoc(out, FileLines(files[..i]), FileLine(files[i]));
      r := r + FileLine(files[i]);
    }
    assert files[..|files|] == files;
  }

  method ComposePinned(plan: string, notes: seq<Note>, files: seq<string>) returns (out: string)
    ensures out == Composed(plan, notes, files)
  {
    out := if plan == "" then "" else "## Pinned Plan\n" + plan;
    if notes != [] {
      out := PushNotes(Under(out, "## Notes\n"), notes);
      out := TrimEnd(out);
    }
    if files != [] {
      out := PushFiles(Under(out, "## Files touched\n"), files);
      out := TrimEnd(out);
    }
  }

  predicate FitsPin(block: string) {
    block == "" || Utf8Len(block) / 4 <= PINNED_MAX_TOKENS
  }

  /** What is left after `t` trims: files go first, then notes, oldest first. */
  function FilesAfter(files: seq<string>, t: nat): seq<string> {
    if t <= |files| then files[t..] else []
  }

  function NotesAfter(notes: seq<Note>, files: seq<string>, t: nat): seq<Note> {
    if t <= |files| then notes else if t - |files| <= |notes| then notes[t - |files|..] else []
  }

  function BlockAfter(plan: string, notes: seq<Note>, files: seq<string>, t: nat): string {
    Composed(plan, NotesAfter(notes, files, t), FilesAfter(files, t))
  }

  predicate FitsAfter(plan: string, notes: seq<Note>, files: seq<string>, t: nat) {
    FitsPin(BlockAfter(plan, notes, files, t))
  }

  function Fitting(plan: string, notes: seq<Note>, files: seq<string>): nat -> bool {
    (t: nat) => FitsAfter(plan, notes, files, t)
  }

  /** The first number from `t` on that fits; `last` when none before it does. */
  function FirstFit(fits: nat -> bool, t: nat, last: nat): (r: nat)
    requires t <= last
    ensures t <= r <= last && (fits(r) || r == last)
    ensures forall k | t <= k < r :: !fits(k)
    decreases last - t
  {
    if fits(t) || t == last then t else FirstFit(fits, t + 1, last)
  }

  /** `render_pinned_block`: the fewest trims that make the block fit, so nothing that could
      stay is dropped, and only a plan too big by itself is kept over the ceiling. */
  function PinnedBlock(plan: string, notes: seq<Note>, files: seq<string>): string {
    BlockAfter(plan, notes, files, FirstFit(Fitting(plan, notes, files), 0, |files| + |notes|))
  }

  /** No rendering with fewer than `t` trims fits. */
  ghost predicate StillSearching(plan: string, notes: seq<Note>, files: seq<string>, t: nat) {
    t <= |files| + |notes| &&
    FirstFit(Fitting(plan, notes, files), t, |files| + |notes|) == FirstFit(Fitting(plan, notes, files), 0, |files| + |notes|)
  }

  /** What one more rendering settles. */
  lemma SearchStep(plan: string, notes: seq<Note>, files: seq<string>, t: nat)
    ensures StillSearching(plan, notes, files, t) && (FitsAfter(plan, notes, files, t) || t == |files| + |notes|) ==>
      BlockAfter(plan, notes, files, t) == PinnedBlock(plan, notes, files)
    ensures StillSearching(plan, notes, files, t) && !FitsAfter(plan, notes, files, t) && t < |files| + |notes| ==>
      StillSearching(plan, notes, files, t + 1)
  {
    hide FitsAfter, BlockAfter;
    assert FitsAfter(plan, notes, files, t) == Fitting(plan, notes, files)(t);
  }

  lemma SearchStart(plan: string, notes: seq<Note>, files: seq<string>)
    ensures StillSearching(plan, notes, files, 0)
    ensures NotesAfter(notes, files, 0) == notes && FilesAfter(files, 0) == files
    ensures forall t: nat | StillSearching(plan, notes, files, t) :: t <= |files| + |notes|
  {
  }

  lemma TrimStep(notes: seq<Note>, files: seq<string>, t: nat)
    requires t <= |files| + |notes|
    ensures FilesAfter(files, t) == [] <==> |files| <= t
    ensures t < |files| ==>
      FilesAfter(files, t + 1) == FilesAfter(files, t)[1..] && NotesAfter(notes, files, t + 1) == NotesAfter(notes, files, t)
    ensures |files| <= t ==> (NotesAfter(notes, files, t) == [] <==> t == |files| + |notes|)
    ensures |files| <= t < |files| + |notes| ==>
      FilesAfter(files, t + 1) == [] && NotesAfter(notes, files, t + 1) == NotesAfter(notes, files, t)[1..]
  {
  }

  method RenderPinnedBlock(plan: string, allNotes: seq<Note>, allFiles: seq<string>) returns (block: string)
    ensures block == PinnedBlock(plan, allNotes, allFiles)
  {
    hide StillSearching, PinnedBlock, NotesAfter, FilesAfter, FitsPin, Composed, Fitting;
    var notes, files := allNotes, allFiles;
    ghost var t := 0;
    SearchStart(plan, allNotes, allFiles);
    while true
      invariant StillSearching(plan, allNotes, allFiles, t)
      invariant notes == NotesAfter(allNotes, allFiles, t) && files == FilesAfter(allFiles, t)
      decreases |allFiles| + |allNotes| - t
    {
      block := ComposePinned(plan, notes, files);
      SearchStep(plan, allNotes, allFiles, t);
      if FitsPin(block) { return; }
      TrimStep(allNotes, allFiles, t);
      if files != [] {
        files := files[1..];
      } else if notes != [] {
        notes := notes[1..];
      } else {
        return;
      }
      t := t + 1;
    }
  }

  lemma {:induction false} TrimEndKeepsPrefix(x: string, y: string, k: nat)
    requires k < |y| && !IsWhitespace(y[k])
    ensures x <= TrimEnd(x + y)
    decreases |y|
  {
    var s := x + y;
    if IsWhitespace(s[|s| - 1]) {
      assert s[..|s| - 1] == x + y[..|y| - 1];
      TrimEndKeepsPrefix(x, y[..|y| - 1], k);
    }
  }

  lemma SectionKeepsPrefix(out: string, heading: string, lines: string)
    requires heading != "" && heading[0] == '#'
    ensures out <= TrimEnd(Under(out, heading) + lines)
  {
    var y := (if out == "" then "" else "\n\n") + heading + lines;
    assert Under(out, heading) + lines == out + y;
    TrimEndKeepsPrefix(out, y, if out == "" then 0 else 2);
  }

  /** The pinned block fits its ceiling or is the plan alone, and the plan always stands at
      its front in full. */
  lemma PlanIsKeptWhole(plan: string, notes: seq<Note>, files: seq<string>)
    ensures Utf8Len(PinnedBlock(plan, notes, files)) / 4 <= 2000 || PinnedBlock(plan, notes, files) == Composed(plan, [], [])
    ensures plan != "" ==> "## Pinned Plan\n" + plan <= PinnedBlock(plan, notes, files)
  {
    hide TrimEnd;
    var t := FirstFit(Fitting(plan, notes, files), 0, |files| + |notes|);
    var ns, fs := NotesAfter(notes, files, t), FilesAfter(files, t);
    var front := if plan == "" then "" else "## Pinned Plan\n" + plan;
    SectionKeepsPrefix(front, "## Notes\n", NoteLines(ns));
    SectionKeepsPrefix(WithNotes(front, ns), "## Files touched\n", FileLines(fs));
  }

  lemma TrimEndKeepsUpTo(x: string, c: char, y: string)
    requires !IsWhitespace(c)
    ensures x + [c] <= TrimEnd(x + [c] + y)
  {
    hide TrimEnd;
    TrimEndKeepsPrefix(x, [c] + y, 0);
    TrimEndSpec(x + [c] + y);
    var s, r := x + [c] + y, TrimEnd(x + [c] + y);
    assert x + ([c] + y) == s && s[|x|] == c;
    assert r == s[..|r|] && |r| > |x|;
  }

  lemma {:induction false} NoteLinesConcat(a: seq<Note>, b: seq<Note>)
    ensures NoteLines(a + b) == NoteLines(a) + NoteLines(b)
  {
    if a == [] {
      assert a + b == b && "" + NoteLines(b) == NoteLines(b);
    } else {
      hide NoteLine;
      assert (a + b)[1..] == a[1..] + b;
      NoteLinesConcat(a[1..], b);
      ConcatAssoc(NoteLine(a[0]), NoteLines(a[1..]), NoteLines(b));
    }
  }

  lemma NoteLineAround(n: Note) returns (lead: string)
    ensures NoteLine(n) == lead + n.text + "\n"
  {
    var line := NoteLine(n);
    lead := line[..|line| - |n.text| - 1];
    assert line == lead + (n.text + "\n");
  }

  lemma NoteLinesSplit(notes: seq<Note>, i: nat)
    requires i < |notes|
    ensures NoteLines(notes) == NoteLines(notes[..i]) + NoteLine(notes[i]) + NoteLines(notes[i + 1..])
  {
    hide NoteLine, NoteLines;
    NoteLinesTake(notes, i);
    NoteLinesConcat(notes[..i + 1], notes[i + 1..]);
    assert notes[..i + 1] + notes[i + 1..] == notes;
  }

  /** The lines of the notes around a note's own text. */
  lemma NoteLinesAround(notes: seq<Note>, i: nat) returns (before: string, after: string)
    requires i < |notes|
    ensures NoteLines(notes) == before + notes[i].text + ("\n" + after)
  {
    hide NoteLine, NoteLines;
    var lead := NoteLineAround(notes[i]);
    NoteLinesSplit(notes, i);
    var all, text := NoteLines(notes[..i]), notes[i].text;
    before, after := all + lead, NoteLines(notes[i + 1..]);
    Regroup(all, lead, text, "\n", after);
  }

  lemma Regroup(a: string, b: string, c: string, d: string, e: string)
    ensures a + (b + c + d) + e == a + b + c + (d + e)
  {
  }

  lemma TrimEndKeepsText(x: string, text: string, y: string)
    requires text != "" && !IsWhitespace(text[|text| - 1])
    ensures x + text <= TrimEnd(x + text + y)
  {
    hide TrimEnd;
    var n := |text| - 1;
    assert x + text == x + text[..n] + [text[n]];
    TrimEndKeepsUpTo(x + text[..n], text[n], y);
  }

  lemma NotesSectionHolds(front: string, notes: seq<Note>, i: nat) returns (head: string)
    requires i < |notes| && notes[i].text != "" && !IsWhitespace(notes[i].text[|notes[i].text| - 1])
    ensures head + notes[i].text <= WithNotes(front, notes)
  {
    hide TrimEnd, NoteLines, Under;
    var before, after := NoteLinesAround(notes, i);
    var text, open := notes[i].text, Under(front, "## Notes\n");
    head := open + before;
    assert open + (before + text + ("\n" + after)) == head + text + ("\n" + after);
    TrimEndKeepsText(head, text, "\n" + after);
  }

  /** Every note given stands in the block with its text in full. */
  lemma NotesArePinned(plan: string, notes: seq<Note>, files: seq<string>, i: nat)
    requires i < |notes| && notes[i].text != "" && !IsWhitespace(notes[i].text[|notes[i].text| - 1])
    ensures Holds(Composed(plan, notes, files), notes[i].text)
  {
    hide TrimEnd, WithNotes, Under;
    var front := if plan == "" then "" else "## Pinned Plan\n" + plan;
    var head := NotesSectionHolds(front, notes, i);
    var withNotes, all := WithNotes(front, notes), Composed(plan, notes, files);
    SectionKeepsPrefix(withNotes, "## Files touched\n", FileLines(files));
    PrefixHolds(head, notes[i].text, withNotes, all);
  }

  lemma PrefixHolds(head: string, text: string, part: string, all: string)
    requires head + text <= part <= all
    ensures Holds(all, text)
  {
    assert all == head + text + all[|head + text|..];
  }
}

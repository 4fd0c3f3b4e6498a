/** The scratchpad: merging a note into the list that is pinned into every fold. */
module Notes {
  import opened Text
  import opened Pinned

  datatype Outcome = Added(count: nat) | Updated(id: string) | Refreshed

  /** The key under which texts count as duplicates; any function of the text. */
  type Normalizer = string -> string

  /** Index of the first note with a property, or the length of the list. */
  function Position(notes: seq<Note>, p: Note -> bool): (k: nat)
    ensures k <= |notes|
    ensures k < |notes| ==> p(notes[k])
    ensures forall j | 0 <= j < k :: !p(notes[j])
  {
    if notes == [] || p(notes[0]) then 0 else
      var k := Position(notes[1..], p);
      assert forall j | 0 < j <= k && j < |notes| :: notes[j] == notes[1..][j - 1];
      k + 1
  }

  function Retained(notes: seq<Note>, p: Note -> bool): (kept: seq<Note>)
    ensures |kept| <= |notes|
    ensures forall n :: n in kept <==> n in notes && p(n)
  {
    if notes == [] then [] else (if p(notes[0]) then [notes[0]] else []) + Retained(notes[1..], p)
  }

  function SameId(note: Note): Note -> bool {
    (n: Note) => note.id.Some? && n.id == note.id
  }

  /** A duplicate that a new note refreshes: equal text, and not two different ids. */
  function Duplicate(norm: Normalizer, note: Note): Note -> bool {
    (n: Note) => norm(n.text) == norm(note.text) && (n.id.None? || note.id.None?)
  }

  function HasIdOrOther(norm: Normalizer, text: string): Note -> bool {
    (n: Note) => n.id.Some? || norm(n.text) != norm(text)
  }

  /** How many of the oldest notes a list of `size` loses to the cap. */
  function Surplus(size: nat, cap: nat): nat {
    if size > cap then size - cap else 0
  }

  /** The list and the outcome after merging `note`. */
  function Merged(norm: Normalizer, notes: seq<Note>, note: Note, cap: nat): (seq<Note>, Outcome) {
    var pos := Position(notes, SameId(note));
    if pos < |notes| then
      (Retained(notes[pos := notes[pos].(text := note.text)], HasIdOrOther(norm, note.text)), Updated(note.id.value))
    else
      var dup := Position(notes, Duplicate(norm, note));
      if dup < |notes| then
        (notes[..dup] + notes[dup + 1..] + [Adopted(notes[dup], note)], Refreshed)
      else
        var kept := (notes + [note])[Surplus(|notes| + 1, cap)..];
        (kept, Added(|kept|))
  }

  function Adopted(existing: Note, note: Note): Note {
    existing.(id := if existing.id.Some? then existing.id else note.id)
  }

  class Scratchpad {
    var notes: seq<Note>

    constructor ()
      ensures notes == []
    {
      notes := [];
    }

    method Merge(norm: Normalizer, note: Note, cap: nat) returns (out: Outcome)
      modifies this
      ensures (notes, out) == Merged(norm, old(notes), note, cap)
    {
      var pos := Position(notes, SameId(note));
      if pos < |notes| {
        notes := notes[pos := notes[pos].(text := note.text)];
        notes := Retained(notes, HasIdOrOther(norm, note.text));
        return Updated(note.id.value);
      }
      var dup := Position(notes, Duplicate(norm, note));
      if dup < |notes| {
        var existing := notes[dup];
        notes := notes[..dup] + notes[dup + 1..];
        notes := notes + [Adopted(existing, note)];
        return Refreshed;
      }
      notes := notes + [note];
      ghost var all := notes;
      ghost var dropped := 0;
      while |notes| > cap
        invariant dropped <= Surplus(|all|, cap) && notes == all[dropped..]
        decreases |notes|
      {
        notes := notes[1..];
        dropped := dropped + 1;
      }
      out := Added(|notes|);
    }
  }

  // ---- what every merge keeps ----

  ghost predicate UniqueIds(notes: seq<Note>) {
    forall i, j | 0 <= i < j < |notes| :: notes[i].id.Some? ==> notes[i].id != notes[j].id
  }

  /** Equal texts stand side by side only under two ids. */
  ghost predicate NoDuplicates(norm: Normalizer, notes: seq<Note>) {
    forall i, j | 0 <= i < j < |notes| ::
      norm(notes[i].text) == norm(notes[j].text) ==> notes[i].id.Some? && notes[j].id.Some?
  }

  ghost predicate Healthy(norm: Normalizer, notes: seq<Note>) {
    UniqueIds(notes) && NoDuplicates(norm, notes)
  }

  lemma {:induction false} RetainedKeepsUniqueIds(notes: seq<Note>, p: Note -> bool)
    requires UniqueIds(notes)
    ensures UniqueIds(Retained(notes, p))
    decreases |notes|
  {
    if notes != [] {
      RetainedKeepsUniqueIds(notes[1..], p);
      var rest := Retained(notes[1..], p);
      forall j | 0 <= j < |rest| ensures notes[0].id.Some? ==> notes[0].id != rest[j].id {
        assert rest[j] in notes[1..];
      }
    }
  }

  /** Clearing out the id-less notes of one text leaves no duplicates, when the list had none
      but those of that text. */
  lemma {:induction false} RetainedHasNoDuplicates(norm: Normalizer, notes: seq<Note>, text: string)
    requires forall i, j | 0 <= i < j < |notes| :: norm(notes[i].text) == norm(notes[j].text) != norm(text) ==>
      notes[i].id.Some? && notes[j].id.Some?
    ensures NoDuplicates(norm, Retained(notes, HasIdOrOther(norm, text)))
    decreases |notes|
  {
    if notes != [] {
      var p := HasIdOrOther(norm, text);
      RetainedHasNoDuplicates(norm, notes[1..], text);
      var rest := Retained(notes[1..], p);
      forall j | 0 <= j < |rest| && p(notes[0])
        ensures norm(notes[0].text) == norm(rest[j].text) ==> notes[0].id.Some? && rest[j].id.Some?
      {
        assert rest[j] in notes[1..];
      }
    }
  }

  lemma UpdateKeepsHealth(norm: Normalizer, notes: seq<Note>, pos: nat, text: string)
    requires Healthy(norm, notes) && pos < |notes| && notes[pos].id.Some?
    ensures Healthy(norm, Retained(notes[pos := notes[pos].(text := text)], HasIdOrOther(norm, text)))
  {
    var edited := notes[pos := notes[pos].(text := text)];
    assert forall i | 0 <= i < |notes| :: edited[i].id == notes[i].id;
    RetainedKeepsUniqueIds(edited, HasIdOrOther(norm, text));
    RetainedHasNoDuplicates(norm, edited, text);
  }

  lemma RefreshKeepsHealth(norm: Normalizer, notes: seq<Note>, dup: nat, note: Note)
    requires Healthy(norm, notes) && dup < |notes| && Duplicate(norm, note)(notes[dup])
    requires forall n | n in notes :: !SameId(note)(n)
    ensures Healthy(norm, notes[..dup] + notes[dup + 1..] + [Adopted(notes[dup], note)])
  {
    var before := notes[..dup] + notes[dup + 1..];
    assert forall i | 0 <= i < |before| :: before[i] == notes[if i < dup then i else i + 1];
    forall i | 0 <= i < |before|
      ensures before[i].id.Some? ==> before[i].id != Adopted(notes[dup], note).id
      ensures norm(before[i].text) == norm(notes[dup].text) ==>
        before[i].id.Some? && Adopted(notes[dup], note).id.Some?
    {
      assert before[i] in notes;
    }
  }

  /** One merge keeps ids unique, duplicates out and the list within its cap. */
  lemma MergeKeepsHealth(norm: Normalizer, notes: seq<Note>, note: Note, cap: nat)
    requires Healthy(norm, notes) && |notes| <= cap
    ensures Healthy(norm, Merged(norm, notes, note, cap).0) && |Merged(norm, notes, note, cap).0| <= cap
  {
    hide Healthy;
    var pos := Position(notes, SameId(note));
    var dup := Position(notes, Duplicate(norm, note));
    if pos < |notes| {
      UpdateKeepsHealth(norm, notes, pos, note.text);
    } else if dup < |notes| {
      RefreshKeepsHealth(norm, notes, dup, note);
    } else {
      AddKeepsHealth(norm, notes, note, Surplus(|notes| + 1, cap));
    }
  }

  lemma AddKeepsHealth(norm: Normalizer, notes: seq<Note>, note: Note, dropped: nat)
    requires Healthy(norm, notes) && dropped <= |notes| + 1
    requires forall n | n in notes :: !SameId(note)(n) && !Duplicate(norm, note)(n)
    ensures Healthy(norm, (notes + [note])[dropped..])
  {
    var all := notes + [note];
    assert forall i | 0 <= i < |notes| :: all[i] == notes[i] && notes[i] in notes;
    assert Healthy(norm, all);
  }

  // ---- what a merge does to a note ----

  /** The merged note is there afterwards, by its text, under its id if it brought one, and last
      in the list unless it revised a note in place. */
  lemma MergedNoteIsPresent(norm: Normalizer, notes: seq<Note>, note: Note, cap: nat)
    requires cap > 0
    ensures var (after, out) := Merged(norm, notes, note, cap);
      exists i | 0 <= i < |after| ::
        && norm(after[i].text) == norm(note.text)
        && (note.id.Some? ==> after[i].id == note.id)
        && (out.Updated? || i == |after| - 1)
  {
    var pos := Position(notes, SameId(note));
    var dup := Position(notes, Duplicate(norm, note));
    var after := Merged(norm, notes, note, cap).0;
    if pos < |notes| {
      var edited := notes[pos].(text := note.text);
      assert notes[pos := edited][pos] == edited;
      assert edited in after;
    } else if dup < |notes| {
      assert after[|after| - 1] == Adopted(notes[dup], note);
    } else {
      assert after[|after| - 1] == note;
    }
  }

  /** A note with an id keeps id and text through a merge, unless it is the one revised, or
      one of the oldest of a list that overflows its cap. */
  lemma NoteWithIdStaysIff(norm: Normalizer, notes: seq<Note>, note: Note, cap: nat, i: nat)
    requires Healthy(norm, notes) && i < |notes| && notes[i].id.Some?
    ensures var (after, out) := Merged(norm, notes, note, cap);
      notes[i] in after <==>
        (if notes[i].id == note.id then notes[i].text == note.text
         else out.Added? ==> i >= Surplus(|notes| + 1, cap))
  {
    var pos := Position(notes, SameId(note));
    var dup := Position(notes, Duplicate(norm, note));
    var (after, out) := Merged(norm, notes, note, cap);
    var n := notes[i];
    if pos < |notes| {
      var edited := notes[pos := notes[pos].(text := note.text)];
      if i == pos {
        assert edited[i] in after;
        if n in after {
          var j :| 0 <= j < |edited| && edited[j] == n;
          assert j == i;
        }
      } else {
        assert edited[i] == n && n in after;
      }
    } else if dup < |notes| {
      if i == dup {
        assert after[|after| - 1] == n;
      } else {
        assert after[if i < dup then i else i - 1] == n;
      }
    } else {
      AddKeepsOne(notes, note, Surplus(|notes| + 1, cap), i);
    }
  }

  lemma AddKeepsOne(notes: seq<Note>, note: Note, dropped: nat, i: nat)
    requires i < |notes| && dropped <= |notes| + 1 && note != notes[i]
    requires forall j | 0 <= j < |notes| && j != i :: notes[j] != notes[i]
    ensures notes[i] in (notes + [note])[dropped..] <==> i >= dropped
  {
    var after := (notes + [note])[dropped..];
    if i >= dropped {
      assert after[i - dropped] == notes[i];
    } else {
      forall j | 0 <= j < |after| ensures after[j] != notes[i] {
        if dropped + j < |notes| { assert after[j] == notes[dropped + j]; }
      }
    }
  }

  /** A note without an id stays as it is, unless the merged note says the same under an id,
      or it is one of the oldest of a list that overflows its cap. */
  lemma NoteWithoutIdStaysIff(norm: Normalizer, notes: seq<Note>, note: Note, cap: nat, i: nat)
    requires Healthy(norm, notes) && i < |notes| && notes[i].id.None?
    ensures var (after, out) := Merged(norm, notes, note, cap);
      notes[i] in after <==>
        (if norm(notes[i].text) == norm(note.text) then note.id.None?
         else out.Added? ==> i >= Surplus(|notes| + 1, cap))
  {
    var pos := Position(notes, SameId(note));
    var dup := Position(notes, Duplicate(norm, note));
    var (after, out) := Merged(norm, notes, note, cap);
    var n := notes[i];
    assert forall j | 0 <= j < |notes| && j != i :: notes[j] != n;
    if pos < |notes| {
      var edited := notes[pos := notes[pos].(text := note.text)];
      assert edited[i] == n && n in edited;
    } else if dup < |notes| {
      if norm(n.text) == norm(note.text) {
        assert dup == i && after[|after| - 1] == Adopted(n, note);
        OthersDiffer(notes, i);
      } else {
        assert after[if i < dup then i else i - 1] == n;
      }
    } else {
      AddKeepsOne(notes, note, Surplus(|notes| + 1, cap), i);
    }
  }

  lemma OthersDiffer(notes: seq<Note>, i: nat)
    requires i < |notes| && forall j | 0 <= j < |notes| && j != i :: notes[j] != notes[i]
    ensures notes[i] !in notes[..i] + notes[i + 1..]
  {
    var rest := notes[..i] + notes[i + 1..];
    forall k | 0 <= k < |rest| ensures rest[k] != notes[i] {
      assert rest[k] == notes[if k < i then k else k + 1];
    }
  }

  // ---- whole runs ----

  /** The list after merging `news` in order into an empty one. */
  function MergedAll(norm: Normalizer, news: seq<Note>, cap: nat): seq<Note> {
    if news == [] then []
    else Merged(norm, MergedAll(norm, news[..|news| - 1], cap), news[|news| - 1], cap).0
  }

  /** Every list the agent can reach is within its cap, with unique ids and no duplicates. */
  lemma {:induction false} EveryListIsHealthy(norm: Normalizer, news: seq<Note>, cap: nat)
    ensures Healthy(norm, MergedAll(norm, news, cap)) && |MergedAll(norm, news, cap)| <= cap
  {
    hide Merged;
    if news != [] {
      EveryListIsHealthy(norm, news[..|news| - 1], cap);
      MergeKeepsHealth(norm, MergedAll(norm, news[..|news| - 1], cap), news[|news| - 1], cap);
    }
  }

  /** The last text merged under an id. */
  function LastWord(news: seq<Note>, id: string): Option<string> {
    if news == [] then None
    else if news[|news| - 1].id == Some(id) then Some(news[|news| - 1].text)
    else LastWord(news[..|news| - 1], id)
  }

  ghost predicate Holds(norm: Normalizer, notes: seq<Note>, id: string, text: string) {
    exists i | 0 <= i < |notes| :: notes[i].id == Some(id) && norm(notes[i].text) == norm(text)
  }

  /** How many of the merges appended a note; the others revised or refreshed one. */
  function AddedCount(norm: Normalizer, news: seq<Note>, cap: nat): nat {
    if news == [] then 0 else
      var (earlier, note) := (news[..|news| - 1], news[|news| - 1]);
      AddedCount(norm, earlier, cap) + if Merged(norm, MergedAll(norm, earlier, cap), note, cap).1.Added? then 1 else 0
  }

  lemma MergedLength(norm: Normalizer, notes: seq<Note>, note: Note, cap: nat)
    ensures var (after, out) := Merged(norm, notes, note, cap);
      |after| <= |notes| + if out.Added? then 1 else 0
  {
  }

  lemma {:induction false} MergedIsNoLonger(norm: Normalizer, news: seq<Note>, cap: nat)
    ensures |MergedAll(norm, news, cap)| <= AddedCount(norm, news, cap)
  {
    hide Merged;
    if news != [] {
      MergedIsNoLonger(norm, news[..|news| - 1], cap);
      MergedLength(norm, MergedAll(norm, news[..|news| - 1], cap), news[|news| - 1], cap);
    }
  }

  /** While no more notes are added than the cap holds, every id ever given is still there,
      with the last text given to it, however many merges revise or refresh a note. */
  lemma {:induction false} IdsKeepTheirLastWord(norm: Normalizer, news: seq<Note>, cap: nat, id: string)
    requires AddedCount(norm, news, cap) <= cap && LastWord(news, id).Some?
    ensures Holds(norm, MergedAll(norm, news, cap), id, LastWord(news, id).value)
  {
    hide Merged;
    var earlier, note := news[..|news| - 1], news[|news| - 1];
    var notes := MergedAll(norm, earlier, cap);
    if note.id == Some(id) {
      KeepsRoom(norm, earlier, note, cap);
      MergedNoteIsPresent(norm, notes, note, cap);
    } else {
      IdsKeepTheirLastWord(norm, earlier, cap, id);
      EveryListIsHealthy(norm, earlier, cap);
      MergedIsNoLonger(norm, earlier, cap);
      var i :| 0 <= i < |notes| && notes[i].id == Some(id) && norm(notes[i].text) == norm(LastWord(earlier, id).value);
      NoteWithIdStaysIff(norm, notes, note, cap, i);
    }
  }

  /** Without room for a single note, the first merge already adds one too many. */
  lemma KeepsRoom(norm: Normalizer, earlier: seq<Note>, note: Note, cap: nat)
    requires AddedCount(norm, earlier + [note], cap) <= cap
    ensures cap > 0
  {
    var news := earlier + [note];
    assert news[..|news| - 1] == earlier;
    MergedIsNoLonger(norm, earlier, cap);
  }

  /** A note without an id can lose its words although the list has room: it takes on the id of
      a later duplicate, and that id is then revised. */
  lemma NoteWithoutIdCanBeRevisedAway(norm: Normalizer, a: string, b: string, id: string)
    requires norm(a) != norm(b)
    ensures MergedAll(norm, [Note(None, a), Note(Some(id), a), Note(Some(id), b)], 3) == [Note(Some(id), b)]
  {
    var none, some, last := Note(None, a), Note(Some(id), a), Note(Some(id), b);
    assert [none, some, last][..2] == [none, some] && [none, some][..1] == [none] && [none][..0] == [];
    assert MergedAll(norm, [none], 3) == [none];
    assert MergedAll(norm, [none, some], 3) == [some];
  }
}

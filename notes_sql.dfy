/**
 * The effect of each SQL statement NotesDao issues, as a function from the tables before the
 * statement to the tables after it. Only table `notes` ever changes.
 */
module NotesSql {
  import opened Schema
  import opened SqlText

  function Ids(rows: seq<NoteRow>): set<int> {
    set r | r in rows :: r.noteId
  }

  /** No two rows share a note_id (the column is the table's INTEGER PRIMARY KEY). */
  predicate DistinctIds(rows: seq<NoteRow>) {
    forall i, j :: 0 <= i < j < |rows| ==> rows[i].noteId != rows[j].noteId
  }

  function MaxRowId(rows: seq<NoteRow>): (m: int)
    requires rows != []
    ensures exists i :: 0 <= i < |rows| && rows[i].noteId == m
    ensures forall r :: r in rows ==> r.noteId <= m
  {
    if |rows| == 1 then rows[0].noteId
    else
      var m := MaxRowId(rows[1..]);
      assert forall r :: r in rows ==> r == rows[0] || r in rows[1..];
      if rows[0].noteId > m then rows[0].noteId else m
  }

  /**
   * The rowid SQLite gives a row inserted without one: one more than the largest rowid in
   * the table, or 1 when the table is empty.
   */
  function NextRowId(rows: seq<NoteRow>): (id: int)
    ensures forall r :: r in rows ==> r.noteId < id
    ensures id !in Ids(rows)
    ensures rows == [] ==> id == 1
    ensures rows != [] ==> id - 1 in Ids(rows)
  {
    if rows == [] then 1 else MaxRowId(rows) + 1
  }

  // ---------------------------------------------------------------------------------------
  // Schema statements

  /** CREATE TABLE IF NOT EXISTS notes (...) */
  function Created(t: NotesTable): (t': NotesTable)
    ensures t'.present
    ensures t.present ==> t' == t
    ensures !t.present ==> t'.rows == []
  {
    if t.present then t else NotesTable(true, [])
  }

  /** DROP TABLE IF EXISTS notes */
  function Dropped(t: NotesTable): (t': NotesTable)
    ensures !t'.present && Ids(t'.rows) == {}
  {
    NotesTable(false, [])
  }

  // ---------------------------------------------------------------------------------------
  // addNote

  /** The priority_id addNote and updateNote write: the note's own id, or the id looked up by name when it is 0. */
  function StoredPriorityId(note: Note, priorities: PrioritiesTable, lk: Lookups): int {
    if note.priority.id != 0 then note.priority.id else lk.priorityIdByName(priorities, note.priority.name)
  }

  /** The list id resolved the same way; updateNote writes it, addNote computes it and does not. */
  function ResolvedListId(note: Note, lists: ListsTable, lk: Lookups): int {
    if note.list.id != 0 then note.list.id else lk.listIdByName(lists, note.list.name)
  }

  /**
   * Row `r` is what addNote writes for `note`: the note's time, text and trash flag, the
   * priority id resolved by name when the note's is 0, and the note's list id as given,
   * even when that is 0.
   */
  predicate AddedFrom(r: NoteRow, note: Note, priorities: PrioritiesTable, lk: Lookups) {
    && r.modifiedAt == note.modificationTime
    && r.text == note.text
    && r.inTrash == note.inTrash
    && r.priorityId == StoredPriorityId(note, priorities, lk)
    && r.listId == note.list.id
  }

  /** INSERT INTO notes of the values addNote collects, with no note_id given. */
  function AddNote(t: Tables, note: Note, lk: Lookups): (t': Tables)
    ensures t'.lists == t.lists && t'.priorities == t.priorities
    ensures t'.notes.present == t.notes.present
    ensures |t'.notes.rows| == |t.notes.rows| + 1
    ensures t'.notes.rows[..|t.notes.rows|] == t.notes.rows
    ensures t'.notes.rows[|t.notes.rows|].noteId !in Ids(t.notes.rows)
    ensures AddedFrom(t'.notes.rows[|t.notes.rows|], note, t.priorities, lk)
  {
    var row := NoteRow(NextRowId(t.notes.rows), note.modificationTime, note.text, note.inTrash,
                       StoredPriorityId(note, t.priorities, lk), note.list.id);
    t.(notes := t.notes.(rows := t.notes.rows + [row]))
  }

  lemma AddNoteKeepsIdsDistinct(t: Tables, note: Note, lk: Lookups)
    requires DistinctIds(t.notes.rows)
    ensures DistinctIds(AddNote(t, note, lk).notes.rows)
  {
    var rows, rows' := t.notes.rows, AddNote(t, note, lk).notes.rows;
    forall i, j | 0 <= i < j < |rows'| ensures rows'[i].noteId != rows'[j].noteId {
      assert rows'[i] == rows[i];
      if j < |rows| {
        assert rows'[j] == rows[j];
      } else {
        assert rows[i] in rows;
      }
    }
  }

  /** One more insert after rows added from `prefix` leaves rows added from `prefix + [last]`. */
  lemma AddNoteExtendsAdded(t: Tables, before: Tables, prefix: seq<Note>, last: Note, lk: Lookups)
    requires before.priorities == t.priorities
    requires |before.notes.rows| == |t.notes.rows| + |prefix|
    requires before.notes.rows[..|t.notes.rows|] == t.notes.rows
    requires forall i :: 0 <= i < |prefix| ==> AddedFrom(before.notes.rows[|t.notes.rows| + i], prefix[i], t.priorities, lk)
    ensures var rows' := AddNote(before, last, lk).notes.rows;
      && rows'[..|t.notes.rows|] == t.notes.rows
      && forall i :: 0 <= i < |prefix| + 1 ==> AddedFrom(rows'[|t.notes.rows| + i], (prefix + [last])[i], t.priorities, lk)
  {
    var n, m := |t.notes.rows|, |before.notes.rows|;
    var rows' := AddNote(before, last, lk).notes.rows;
    assert rows'[..m] == before.notes.rows;
    assert rows'[..n] == rows'[..m][..n];
    forall i | 0 <= i < |prefix| + 1 ensures AddedFrom(rows'[n + i], (prefix + [last])[i], t.priorities, lk) {
      if i < |prefix| {
        assert rows'[n + i] == rows'[..m][n + i];
      }
    }
  }

  /** addNotes: addNote for each note of the sequence, in order. */
  function AddNotes(t: Tables, notes: seq<Note>, lk: Lookups): (t': Tables)
    ensures t'.lists == t.lists && t'.priorities == t.priorities
    ensures t'.notes.present == t.notes.present
    ensures |t'.notes.rows| == |t.notes.rows| + |notes|
    ensures t'.notes.rows[..|t.notes.rows|] == t.notes.rows
    ensures forall i :: 0 <= i < |notes| ==> AddedFrom(t'.notes.rows[|t.notes.rows| + i], notes[i], t.priorities, lk)
    decreases |notes|
  {
    if notes == [] then t
    else
      var prefix, last := notes[..|notes| - 1], notes[|notes| - 1];
      var before := AddNotes(t, prefix, lk);
      assert notes == prefix + [last];
      AddNoteExtendsAdded(t, before, prefix, last, lk);
      AddNote(before, last, lk)
  }

  /** An insert into a table numbered 1, 2, ..., n numbers the new row n + 1. */
  lemma AddNoteNumbersNext(before: Tables, note: Note, lk: Lookups)
    requires forall i :: 0 <= i < |before.notes.rows| ==> before.notes.rows[i].noteId == i + 1
    ensures var rows' := AddNote(before, note, lk).notes.rows;
      forall i :: 0 <= i < |rows'| ==> rows'[i].noteId == i + 1
  {
    var rows := before.notes.rows;
    var rows' := AddNote(before, note, lk).notes.rows;
    if rows != [] {
      assert rows[|rows| - 1] in rows;
      assert NextRowId(rows) == |rows| + 1;
    }
    forall i | 0 <= i < |rows'| ensures rows'[i].noteId == i + 1 {
      if i < |rows| { assert rows'[i] == rows'[..|rows|][i]; }
    }
  }

  /** Inserting into a table numbered 1, 2, ..., n numbers the new rows n + 1, n + 2, ... */
  lemma {:induction false} AddNotesNumbersConsecutively(t: Tables, notes: seq<Note>, lk: Lookups)
    requires forall i :: 0 <= i < |t.notes.rows| ==> t.notes.rows[i].noteId == i + 1
    ensures forall i :: 0 <= i < |AddNotes(t, notes, lk).notes.rows| ==> AddNotes(t, notes, lk).notes.rows[i].noteId == i + 1
    decreases |notes|
  {
    if notes != [] {
      var prefix, last := notes[..|notes| - 1], notes[|notes| - 1];
      AddNotesNumbersConsecutively(t, prefix, lk);
      var before := AddNotes(t, prefix, lk);
      assert AddNotes(t, notes, lk) == AddNote(before, last, lk);
      AddNoteNumbersNext(before, last, lk);
    }
  }

  /**
   * fillWithDefaultData: drop the table, create it again and add the default notes. Whatever
   * the table held before, it ends with exactly one row per default note, numbered from 1.
   */
  function FillWithDefaultData(t: Tables, defaults: seq<Note>, lk: Lookups): (t': Tables)
    ensures t'.lists == t.lists && t'.priorities == t.priorities
    ensures t'.notes.present
    ensures |t'.notes.rows| == |defaults|
    ensures forall i :: 0 <= i < |defaults| ==>
              t'.notes.rows[i].noteId == i + 1 && AddedFrom(t'.notes.rows[i], defaults[i], t.priorities, lk)
  {
    var empty := t.(notes := Created(Dropped(t.notes)));
    AddNotesNumbersConsecutively(empty, defaults, lk);
    AddNotes(empty, defaults, lk)
  }

  // ---------------------------------------------------------------------------------------
  // updateNote

  /** Every row whose note_id is `id` replaced by `row`, the others kept in place. */
  function ReplaceWhereId(rows: seq<NoteRow>, id: int, row: NoteRow): (rows': seq<NoteRow>)
    ensures |rows'| == |rows|
    ensures forall i :: 0 <= i < |rows| ==> rows'[i] == if rows[i].noteId == id then row else rows[i]
  {
    if rows == [] then []
    else [if rows[0].noteId == id then row else rows[0]] + ReplaceWhereId(rows[1..], id, row)
  }

  /**
   * UPDATE notes SET (the five columns) WHERE note_id = note.id. Priority and list are
   * resolved by name when their id is 0.
   */
  function UpdateNote(t: Tables, note: Note, lk: Lookups): (t': Tables)
    ensures t'.lists == t.lists && t'.priorities == t.priorities
    ensures t'.notes.present == t.notes.present
    ensures |t'.notes.rows| == |t.notes.rows|
    ensures forall i :: 0 <= i < |t.notes.rows| && t.notes.rows[i].noteId != note.id ==>
              t'.notes.rows[i] == t.notes.rows[i]
    ensures forall i :: 0 <= i < |t.notes.rows| && t.notes.rows[i].noteId == note.id ==>
              t'.notes.rows[i] == NoteRow(note.id, note.modificationTime, note.text, note.inTrash,
                                          StoredPriorityId(note, t.priorities, lk),
                                          ResolvedListId(note, t.lists, lk))
  {
    var row := NoteRow(note.id, note.modificationTime, note.text, note.inTrash,
                       StoredPriorityId(note, t.priorities, lk), ResolvedListId(note, t.lists, lk));
    t.(notes := t.notes.(rows := ReplaceWhereId(t.notes.rows, note.id, row)))
  }

  /** Updating a note_id that no row has leaves every table as it was. */
  lemma UpdateNoteAbsentIsNoop(t: Tables, note: Note, lk: Lookups)
    requires note.id !in Ids(t.notes.rows)
    ensures UpdateNote(t, note, lk) == t
  {
    var rows, rows' := t.notes.rows, UpdateNote(t, note, lk).notes.rows;
    forall i | 0 <= i < |rows| ensures rows'[i] == rows[i] {
      assert rows[i] in rows;
    }
  }

  /** With distinct ids at most one row changes, and the ids stay distinct. */
  lemma UpdateNoteChangesOneRow(t: Tables, note: Note, lk: Lookups)
    requires DistinctIds(t.notes.rows)
    ensures var rows, rows' := t.notes.rows, UpdateNote(t, note, lk).notes.rows;
      forall i, j :: 0 <= i < j < |rows| && rows'[i] != rows[i] ==> rows'[j] == rows[j]
    ensures DistinctIds(UpdateNote(t, note, lk).notes.rows)
  {
  }

  // ---------------------------------------------------------------------------------------
  // deleteNote and deleteEmptyNotes

  /** The rows satisfying `keep`, in their order (DELETE of the others). */
  function Keep(rows: seq<NoteRow>, keep: NoteRow -> bool): (kept: seq<NoteRow>)
    ensures |kept| <= |rows|
    ensures forall r :: multiset(kept)[r] == if keep(r) then multiset(rows)[r] else 0
    ensures forall r :: r in kept <==> r in rows && keep(r)
  {
    if rows == [] then []
    else
      var rest := Keep(rows[1..], keep);
      assert rows == [rows[0]] + rows[1..];
      if keep(rows[0]) then [rows[0]] + rest else rest
  }

  /** Deleting by a condition every row already satisfies deletes nothing. */
  lemma {:induction false} KeepAllIsIdentity(rows: seq<NoteRow>, keep: NoteRow -> bool)
    requires forall r :: r in rows ==> keep(r)
    ensures Keep(rows, keep) == rows
  {
    if rows != [] {
      assert rows[0] in rows;
      KeepAllIsIdentity(rows[1..], keep);
    }
  }

  /** With distinct ids, no later row shares the first row's id. */
  lemma FirstIdIsNotRepeated(rows: seq<NoteRow>, r: NoteRow)
    requires DistinctIds(rows) && rows != []
    requires r in rows[1..]
    ensures r.noteId != rows[0].noteId
  {
    var k :| 0 <= k < |rows| - 1 && rows[1..][k] == r;
    assert rows[k + 1] == r;
  }

  /** A row whose id no row of `rest` has, put before distinct rows, keeps them distinct. */
  lemma ConsKeepsIdsDistinct(x: NoteRow, rest: seq<NoteRow>)
    requires DistinctIds(rest)
    requires forall r :: r in rest ==> r.noteId != x.noteId
    ensures DistinctIds([x] + rest)
  {
    var s := [x] + rest;
    forall i, j | 0 <= i < j < |s| ensures s[i].noteId != s[j].noteId {
      assert s[j] == rest[j - 1];
      if i == 0 {
        assert rest[j - 1] in rest;
      } else {
        assert s[i] == rest[i - 1];
      }
    }
  }

  lemma {:induction false} KeepKeepsIdsDistinct(rows: seq<NoteRow>, keep: NoteRow -> bool)
    requires DistinctIds(rows)
    ensures DistinctIds(Keep(rows, keep))
  {
    if rows != [] {
      assert DistinctIds(rows[1..]) by {
        forall i, j | 0 <= i < j < |rows| - 1 ensures rows[1..][i].noteId != rows[1..][j].noteId {
          assert rows[1..][i] == rows[i + 1] && rows[1..][j] == rows[j + 1];
        }
      }
      KeepKeepsIdsDistinct(rows[1..], keep);
      var rest := Keep(rows[1..], keep);
      if keep(rows[0]) {
        forall r | r in rest ensures r.noteId != rows[0].noteId {
          FirstIdIsNotRepeated(rows, r);
        }
        ConsKeepsIdsDistinct(rows[0], rest);
      }
    }
  }

  /** The rows deleteNote keeps. */
  function OtherId(id: int): NoteRow -> bool {
    (r: NoteRow) => r.noteId != id
  }

  /** DELETE FROM notes WHERE note_id = id */
  function DeleteNote(t: Tables, id: int): (t': Tables)
    ensures t'.lists == t.lists && t'.priorities == t.priorities
    ensures t'.notes.present == t.notes.present
    ensures forall r :: multiset(t'.notes.rows)[r] == if r.noteId == id then 0 else multiset(t.notes.rows)[r]
    ensures id !in Ids(t'.notes.rows)
  {
    t.(notes := t.notes.(rows := Keep(t.notes.rows, OtherId(id))))
  }

  /** Deleting a note_id that no row has leaves every table as it was. */
  lemma DeleteNoteAbsentIsNoop(t: Tables, id: int)
    requires id !in Ids(t.notes.rows)
    ensures DeleteNote(t, id) == t
  {
    KeepAllIsIdentity(t.notes.rows, OtherId(id));
  }

  predicate TrimmedEmpty(r: NoteRow) {
    Trim(r.text) == ""
  }

  /** The rows deleteEmptyNotes keeps. */
  predicate NotTrimmedEmpty(r: NoteRow) {
    !TrimmedEmpty(r)
  }

  /** DELETE FROM notes WHERE trim(text) = '' */
  function DeleteEmptyNotes(t: Tables): (t': Tables)
    ensures t'.lists == t.lists && t'.priorities == t.priorities
    ensures t'.notes.present == t.notes.present
    ensures forall r :: multiset(t'.notes.rows)[r] == if TrimmedEmpty(r) then 0 else multiset(t.notes.rows)[r]
    ensures forall r :: r in t'.notes.rows ==> !AllSpaces(r.text)
  {
    t.(notes := t.notes.(rows := Keep(t.notes.rows, NotTrimmedEmpty)))
  }

  /** A second cleanup finds nothing more to delete. */
  lemma DeleteEmptyNotesIdempotent(t: Tables)
    ensures DeleteEmptyNotes(DeleteEmptyNotes(t)) == DeleteEmptyNotes(t)
  {
    KeepAllIsIdentity(DeleteEmptyNotes(t).notes.rows, NotTrimmedEmpty);
  }

  lemma DeleteKeepsIdsDistinct(t: Tables, id: int)
    requires DistinctIds(t.notes.rows)
    ensures DistinctIds(DeleteNote(t, id).notes.rows)
    ensures DistinctIds(DeleteEmptyNotes(t).notes.rows)
  {
    KeepKeepsIdsDistinct(t.notes.rows, OtherId(id));
    KeepKeepsIdsDistinct(t.notes.rows, NotTrimmedEmpty);
  }

  /** SELECT COUNT(note_id) FROM notes WHERE text = '': the untrimmed comparison. */
  function EmptyTextCount(rows: seq<NoteRow>): (n: nat)
    ensures n <= |rows|
    ensures n == 0 <==> forall r :: r in rows ==> r.text != ""
    ensures n == |rows| <==> forall r :: r in rows ==> r.text == ""
  {
    if rows == [] then 0
    else
      assert forall r :: r in rows <==> r == rows[0] || r in rows[1..];
      (if rows[0].text == "" then 1 else 0) + EmptyTextCount(rows[1..])
  }

  /** After the cleanup the untrimmed count of empty notes is 0. */
  lemma EmptyCountZeroAfterCleanup(t: Tables)
    ensures EmptyTextCount(DeleteEmptyNotes(t).notes.rows) == 0
  {
  }

  /**
   * Every row the count sees is one the cleanup deletes: the count is at most the number of
   * rows deleted.
   */
  lemma {:induction false} EmptyCountAtMostDeleted(rows: seq<NoteRow>)
    ensures EmptyTextCount(rows) <= |rows| - |Keep(rows, NotTrimmedEmpty)|
  {
    if rows != [] {
      EmptyCountAtMostDeleted(rows[1..]);
    }
  }

  /** A row the count and the cleanup agree on: counted exactly when deleted. */
  predicate CountedIffDeleted(r: NoteRow) {
    r.text == "" || !AllSpaces(r.text)
  }

  lemma AllCountedIffDeletedSplit(rows: seq<NoteRow>)
    requires rows != []
    ensures (forall r :: r in rows ==> CountedIffDeleted(r)) <==>
            CountedIffDeleted(rows[0]) && forall r :: r in rows[1..] ==> CountedIffDeleted(r)
  {
    assert forall r :: r in rows <==> r == rows[0] || r in rows[1..];
  }

  /** The first row's share of the count and of the deleted rows, and how they compare. */
  lemma FirstRowShares(rows: seq<NoteRow>)
    requires rows != []
    ensures var c0 := EmptyTextCount(rows) - EmptyTextCount(rows[1..]);
            var d0 := 1 - (|Keep(rows, NotTrimmedEmpty)| - |Keep(rows[1..], NotTrimmedEmpty)|);
            0 <= c0 <= d0 <= 1 && (c0 == d0 <==> CountedIffDeleted(rows[0]))
  {
    assert TrimmedEmpty(rows[0]) <==> AllSpaces(rows[0].text);
  }

  /**
   * The count equals the number of rows the cleanup deletes exactly when no row's text is a
   * non-empty run of spaces; each such row is deleted without being counted.
   */
  lemma {:induction false} EmptyCountEqualsDeletedIff(rows: seq<NoteRow>)
    ensures EmptyTextCount(rows) == |rows| - |Keep(rows, NotTrimmedEmpty)| <==>
            forall r :: r in rows ==> CountedIffDeleted(r)
  {
    if rows != [] {
      EmptyCountEqualsDeletedIff(rows[1..]);
      EmptyCountAtMostDeleted(rows[1..]);
      FirstRowShares(rows);
      AllCountedIffDeletedSplit(rows);
    }
  }

  /**
   * The count and the cleanup disagree on a note of spaces only: it is not counted as empty,
   * yet the cleanup deletes it.
   */
  lemma WhitespaceNoteDeletedButNotCounted()
    ensures var t := Tables(NotesTable(true, [NoteRow(1, 0, " ", false, 1, 1)]), map[], map[]);
      EmptyTextCount(t.notes.rows) == 0 && DeleteEmptyNotes(t).notes.rows == []
  {
    var row := NoteRow(1, 0, " ", false, 1, 1);
    assert Trim(row.text) == "";
    assert Keep([row], NotTrimmedEmpty) == Keep([], NotTrimmedEmpty);
  }

  // ---------------------------------------------------------------------------------------
  // onUpgrade

  /** onUpgrade: drop the table and create it again, empty. */
  function Upgraded(t: NotesTable): (t': NotesTable)
    ensures t'.present && t'.rows == []
  {
    Created(Dropped(t))
  }
}

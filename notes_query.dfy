/**
 * getAllNotes' query: every row of `notes`, LEFT OUTER JOINed with the lists and priorities
 * tables for the two names, ORDER BY priority_id ASC, modification_timestamp DESC. SQLite
 * leaves the order of rows equal on both keys open; so does every contract here.
 */
module NotesQuery {
  import opened Schema

  /**
   * One row of the query's result: note_id, modification_timestamp, text, priority_id, the
   * priority's name, list_id, the list's name. in_trash is not selected.
   */
  datatype JoinedRow = JoinedRow(noteId: int, modifiedAt: int, text: string,
                                 priorityId: int, priorityName: Option<string>,
                                 listId: int, listName: Option<string>)

  /** A row joined to its priority and its list; a name is NULL when no row of that table matches. */
  function JoinRow(r: NoteRow, t: Tables): (j: JoinedRow)
    ensures j.noteId == r.noteId && j.modifiedAt == r.modifiedAt && j.text == r.text
    ensures j.priorityId == r.priorityId && j.listId == r.listId
    ensures j.priorityName.None? <==> r.priorityId !in t.priorities
    ensures j.priorityName.Some? ==> j.priorityName.value == t.priorities[r.priorityId]
    ensures j.listName.None? <==> r.listId !in t.lists
    ensures j.listName.Some? ==> j.listName.value == t.lists[r.listId].name
  {
    JoinedRow(r.noteId, r.modifiedAt, r.text,
              r.priorityId, if r.priorityId in t.priorities then Some(t.priorities[r.priorityId]) else None,
              r.listId, if r.listId in t.lists then Some(t.lists[r.listId].name) else None)
  }

  /** The joined rows, one per row of `notes` and in table order (no WHERE clause, so trashed rows too). */
  function Join(t: Tables): (s: seq<JoinedRow>)
    ensures |s| == |t.notes.rows|
    ensures forall i :: 0 <= i < |s| ==> s[i].noteId == t.notes.rows[i].noteId && s[i].text == t.notes.rows[i].text
  {
    seq(|t.notes.rows|, i requires 0 <= i < |t.notes.rows| => JoinRow(t.notes.rows[i], t))
  }

  /**
   * The Note getAllNotes builds from one cursor row with the five-argument constructor; the
   * trash flag is not read, so the Note keeps Java's default `false`.
   */
  function ToNote(j: JoinedRow): (n: Note)
    ensures n.id == j.noteId && n.modificationTime == j.modifiedAt && n.text == j.text
    ensures n.priority.id == j.priorityId && n.priority.name == j.priorityName
    ensures n.list.id == j.listId && n.list.name == j.listName
    ensures !n.inTrash
  {
    Note(j.noteId, j.modifiedAt, j.text, false,
         Priority(j.priorityId, j.priorityName), NotesList(j.listId, j.listName))
  }

  function ToNotes(s: seq<JoinedRow>): (notes: seq<Note>)
    ensures |notes| == |s|
  {
    seq(|s|, i requires 0 <= i < |s| => ToNote(s[i]))
  }

  /** Every row of `notes` as the Note getAllNotes builds from it, in table order. */
  function AllNotes(t: Tables): seq<Note> {
    ToNotes(Join(t))
  }

  /** The ORDER BY: lower priority_id first; within a priority, later modification first. */
  predicate Precedes(priority1: int, time1: int, priority2: int, time2: int) {
    priority1 < priority2 || (priority1 == priority2 && time1 >= time2)
  }

  predicate RowBefore(a: JoinedRow, b: JoinedRow) {
    Precedes(a.priorityId, a.modifiedAt, b.priorityId, b.modifiedAt)
  }

  predicate RowsInOrder(s: seq<JoinedRow>) {
    forall i, j :: 0 <= i < j < |s| ==> RowBefore(s[i], s[j])
  }

  predicate NotesInOrder(s: seq<Note>) {
    forall i, j :: 0 <= i < j < |s| ==>
      Precedes(s[i].priority.id, s[i].modificationTime, s[j].priority.id, s[j].modificationTime)
  }

  /** Notes built from rows in ORDER BY order are in that order too. */
  lemma ToNotesInOrder(s: seq<JoinedRow>)
    requires RowsInOrder(s)
    ensures NotesInOrder(ToNotes(s))
  {
  }

  function InsertInOrder(x: JoinedRow, s: seq<JoinedRow>): (r: seq<JoinedRow>)
    ensures |r| == |s| + 1
    ensures multiset(r) == multiset(s) + multiset{x}
  {
    if s == [] || RowBefore(x, s[0]) then [x] + s
    else
      assert s == [s[0]] + s[1..];
      [s[0]] + InsertInOrder(x, s[1..])
  }

  lemma {:induction false} InsertInOrderSorted(x: JoinedRow, s: seq<JoinedRow>)
    requires RowsInOrder(s)
    ensures RowsInOrder(InsertInOrder(x, s))
  {
    if s != [] && !RowBefore(x, s[0]) {
      InsertInOrderSorted(x, s[1..]);
      var rest := InsertInOrder(x, s[1..]);
      forall k | 0 <= k < |rest| ensures RowBefore(s[0], rest[k]) {
        assert rest[k] in multiset(rest);
        if rest[k] != x {
          assert rest[k] in s[1..];
        }
      }
    }
  }

  /** The rows in ORDER BY order: an insertion sort standing for SQLite's sorter. */
  function OrderBy(s: seq<JoinedRow>): (r: seq<JoinedRow>)
    ensures multiset(r) == multiset(s)
    ensures RowsInOrder(r)
  {
    if s == [] then []
    else
      assert s == [s[0]] + s[1..];
      InsertInOrderSorted(s[0], OrderBy(s[1..]));
      InsertInOrder(s[0], OrderBy(s[1..]))
  }

  lemma ToNotesAppend(x: seq<JoinedRow>, y: seq<JoinedRow>)
    ensures ToNotes(x + y) == ToNotes(x) + ToNotes(y)
  {
  }

  /** The multiset of a sequence with one element taken out. */
  lemma MultisetSplit<T>(left: seq<T>, x: T, right: seq<T>)
    ensures multiset(left + [x] + right) == multiset(left + right) + multiset{x}
    ensures multiset(left + right) == multiset(left + [x] + right) - multiset{x}
  {
    calc {
      multiset(left + [x] + right);
      multiset(left) + multiset{x} + multiset(right);
      multiset(left + right) + multiset{x};
    }
  }

  /** Putting row `x` in front of one ordering and between `left` and `right` in another keeps the Notes equal as multisets. */
  lemma ToNotesPermutationStep(x: JoinedRow, rest: seq<JoinedRow>, left: seq<JoinedRow>, right: seq<JoinedRow>)
    requires multiset(ToNotes(rest)) == multiset(ToNotes(left + right))
    ensures multiset(ToNotes([x] + rest)) == multiset(ToNotes(left + [x] + right))
  {
    ToNotesAppend([x], rest);
    ToNotesAppend(left + [x], right);
    ToNotesAppend(left, [x]);
    ToNotesAppend(left, right);
    MultisetSplit(ToNotes(left), ToNote(x), ToNotes(right));
  }

  /** Building Notes from two orderings of the same rows gives two orderings of the same Notes. */
  lemma {:induction false} ToNotesPermutation(a: seq<JoinedRow>, b: seq<JoinedRow>)
    requires multiset(a) == multiset(b)
    ensures multiset(ToNotes(a)) == multiset(ToNotes(b))
    decreases |a|
  {
    if a == [] {
      assert |b| == |multiset(b)| == 0;
    } else {
      var x, rest := a[0], a[1..];
      assert a == [x] + rest;
      assert x in multiset(b);
      var k :| 0 <= k < |b| && b[k] == x;
      var left, right := b[..k], b[k + 1..];
      assert b == left + [x] + right;
      MultisetSplit(left, x, right);
      assert multiset(rest) == multiset(a) - multiset{x};
      ToNotesPermutation(rest, left + right);
      ToNotesPermutationStep(x, rest, left, right);
    }
  }
}

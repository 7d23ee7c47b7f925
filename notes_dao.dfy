/**
 * NotesDao: the statements that create, fill, change and read table `notes` on a connection.
 * Each method replaces the connection's tables by the effect NotesSql gives its statement.
 */
module Dao {
  import opened Schema
  import NotesSql
  import opened NotesQuery

  class NotesDao {
    const db: Database
    /** The PriorityDao and ListsDao that addNote and updateNote open on `db` to resolve names. */
    const lookups: Lookups

    constructor (db: Database, lookups: Lookups)
      ensures this.db == db && this.lookups == lookups
    {
      this.db := db;
      this.lookups := lookups;
    }

    /** CREATE TABLE IF NOT EXISTS on the connection it is given. */
    method OnCreate(d: Database)
      modifies d
      ensures d.tables == old(d.tables).(notes := NotesSql.Created(old(d.tables.notes)))
      ensures d.tables.notes.present
      ensures old(d.tables.notes.present) ==> d.tables.notes == old(d.tables.notes)
    {
      d.tables := d.tables.(notes := NotesSql.Created(d.tables.notes));
    }

    /** Drop and create again: the table exists and is empty. */
    method OnUpgrade(d: Database)
      modifies d
      ensures d.tables == old(d.tables).(notes := NotesTable(true, []))
    {
      Drop(d);
      OnCreate(d);
    }

    method Drop(d: Database)
      modifies d
      ensures d.tables == old(d.tables).(notes := NotesTable(false, []))
    {
      d.tables := d.tables.(notes := NotesSql.Dropped(d.tables.notes));
    }

    /**
     * Drops and creates the table on `d`, then adds the default notes through this DAO's own
     * connection; in the app the two are the same connection.
     */
    method FillWithDefaultData(d: Database, defaults: seq<Note>)
      requires d == db || db.tables.notes.present
      modifies d, db
      ensures d == db ==> db.tables == NotesSql.FillWithDefaultData(old(db.tables), defaults, lookups)
      ensures d != db ==> d.tables == old(d.tables).(notes := NotesTable(true, []))
      ensures d != db ==> db.tables == NotesSql.AddNotes(old(db.tables), defaults, lookups)
    {
      Drop(d);
      OnCreate(d);
      AddNotes(defaults);
    }

    /** addNote for each note, in order. */
    method AddNotes(notes: seq<Note>)
      requires db.tables.notes.present
      modifies db
      ensures db.tables == NotesSql.AddNotes(old(db.tables), notes, lookups)
    {
      for i := 0 to |notes|
        invariant db.tables == NotesSql.AddNotes(old(db.tables), notes[..i], lookups)
      {
        assert notes[..i + 1][..i] == notes[..i];
        AddNote(notes[i]);
      }
      assert notes[..|notes|] == notes;
    }

    /**
     * Inserts one row: a fresh note_id, the note's time, text and trash flag, the priority id
     * (looked up by name when the note's is 0) and the note's list id as given. The list id
     * looked up by name is computed and not written.
     */
    method AddNote(note: Note)
      requires db.tables.notes.present
      modifies db
      ensures db.tables == NotesSql.AddNote(old(db.tables), note, lookups)
    {
      var priorityId := note.priority.id;
      if priorityId == 0 {
        priorityId := lookups.priorityIdByName(db.tables.priorities, note.priority.name);
      }
      var listId := note.list.id;
      if listId == 0 {
        listId := lookups.listIdByName(db.tables.lists, note.list.name);
      }
      var row := NoteRow(NotesSql.NextRowId(db.tables.notes.rows), note.modificationTime, note.text,
                         note.inTrash, priorityId, note.list.id);
      db.tables := db.tables.(notes := db.tables.notes.(rows := db.tables.notes.rows + [row]));
    }

    /**
     * Walks the cursor of the joined, ordered query and builds one Note per row: every row of
     * the table, trashed or not, ordered by priority id and then by latest modification.
     */
    method GetAllNotes() returns (notes: seq<Note>)
      requires db.tables.notes.present
      ensures |notes| == |db.tables.notes.rows|
      ensures multiset(notes) == multiset(AllNotes(db.tables))
      ensures NotesInOrder(notes)
    {
      var cursor := OrderBy(Join(db.tables));
      notes := [];
      var i := 0;
      while i < |cursor|
        invariant 0 <= i <= |cursor|
        invariant |notes| == i
        invariant forall k :: 0 <= k < i ==> notes[k] == ToNote(cursor[k])
      {
        notes := notes + [ToNote(cursor[i])];
        i := i + 1;
      }
      assert notes == ToNotes(cursor);
      ToNotesPermutation(cursor, Join(db.tables));
      ToNotesInOrder(cursor);
      assert |cursor| == |multiset(cursor)| == |multiset(Join(db.tables))| == |db.tables.notes.rows|;
    }

    /** Replaces the five columns of the row whose note_id is note.id, if there is one. */
    method UpdateNote(note: Note)
      requires db.tables.notes.present
      modifies db
      ensures db.tables == NotesSql.UpdateNote(old(db.tables), note, lookups)
    {
      var priorityId := note.priority.id;
      if priorityId == 0 {
        priorityId := lookups.priorityIdByName(db.tables.priorities, note.priority.name);
      }
      var listId := note.list.id;
      if listId == 0 {
        listId := lookups.listIdByName(db.tables.lists, note.list.name);
      }
      var row := NoteRow(note.id, note.modificationTime, note.text, note.inTrash, priorityId, listId);
      db.tables := db.tables.(notes := db.tables.notes.(rows := NotesSql.ReplaceWhereId(db.tables.notes.rows, note.id, row)));
    }

    /** Deletes the row whose note_id is note.id, if there is one. */
    method DeleteNote(note: Note)
      requires db.tables.notes.present
      modifies db
      ensures db.tables == NotesSql.DeleteNote(old(db.tables), note.id)
    {
      db.tables := db.tables.(notes := db.tables.notes.(rows := NotesSql.Keep(db.tables.notes.rows, NotesSql.OtherId(note.id))));
    }

    /** The number of rows whose text is exactly '' (SQL COUNT always yields a row, so never -1). */
    method GetEmptyNotesCount() returns (count: int)
      requires db.tables.notes.present
      ensures count == NotesSql.EmptyTextCount(db.tables.notes.rows)
      ensures 0 <= count <= |db.tables.notes.rows|
    {
      count := NotesSql.EmptyTextCount(db.tables.notes.rows);
    }

    /** Deletes every row whose trimmed text is empty; the two counts taken around it are discarded. */
    method DeleteEmptyNotes()
      requires db.tables.notes.present
      modifies db
      ensures db.tables == NotesSql.DeleteEmptyNotes(old(db.tables))
    {
      var countBefore := GetEmptyNotesCount();
      db.tables := db.tables.(notes := db.tables.notes.(rows := NotesSql.Keep(db.tables.notes.rows, NotesSql.NotTrimmedEmpty)));
      var countAfter := GetEmptyNotesCount();
    }
  }
}

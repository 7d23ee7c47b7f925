/**
 * DatabaseHelper: the one entry point of the persistence layer. It owns the connection,
 * creates or rebuilds the schema, seeds default data, and forwards each operation to a DAO.
 */
module Facade {
  import opened Schema
  import NotesSql
  import Dao

  /**
   * The collaborators whose bodies are not part of this model: ListsDao, PriorityDao,
   * DefaultData, and the NotesDao members DatabaseHelper calls that NotesDao.java lacks.
   * Each is an arbitrary function; a write is typed to touch only its own DAO's table. The
   * notes writes are UPDATEs and DELETEs, so they are typed on the rows alone: none of them
   * can create or drop the notes table.
   */
  datatype Collaborators = Collaborators(
    lookups: Lookups,
    /** DefaultData(context).getDefaultNotes() */
    defaultNotes: seq<Note>,
    listsOnCreate: ListsTable -> ListsTable,
    listsOnUpgrade: ListsTable -> ListsTable,
    listsFillWithDefaultData: ListsTable -> ListsTable,
    prioritiesOnCreate: PrioritiesTable -> PrioritiesTable,
    prioritiesOnUpgrade: PrioritiesTable -> PrioritiesTable,
    prioritiesFillWithDefaultData: PrioritiesTable -> PrioritiesTable,
    getAllNotesFromList: (Tables, NotesList) -> seq<Note>,
    getAllNotesFromTrash: Tables -> seq<Note>,
    getSearchResults: (Tables, string, bool) -> seq<Note>,
    moveNoteToTrash: (seq<NoteRow>, Note) -> seq<NoteRow>,
    moveNoteToAnotherList: (seq<NoteRow>, Note, NotesList) -> seq<NoteRow>,
    getEmptyNotesCountInList: (NotesTable, NotesList) -> int,
    deleteEmptyNotesFromList: (seq<NoteRow>, NotesList) -> seq<NoteRow>,
    deleteTrashNotes: seq<NoteRow> -> seq<NoteRow>,
    deleteAllEmptyNotes: seq<NoteRow> -> seq<NoteRow>,
    addList: (ListsTable, NotesList) -> ListsTable,
    moveListToTrash: (ListsTable, NotesList) -> ListsTable,
    updateList: (ListsTable, NotesList) -> ListsTable,
    deleteTrashLists: ListsTable -> ListsTable,
    getAllListNamesNotFromTrash: ListsTable -> seq<string>,
    getListById: (ListsTable, int) -> NotesList)

  /** The three onCreate calls: notes, then lists, then priorities. */
  function CreateTables(t: Tables, ops: Collaborators): (t': Tables)
    ensures t'.notes.present && (t.notes.present ==> t'.notes == t.notes)
    ensures t'.lists == ops.listsOnCreate(t.lists) && t'.priorities == ops.prioritiesOnCreate(t.priorities)
  {
    Tables(NotesSql.Created(t.notes), ops.listsOnCreate(t.lists), ops.prioritiesOnCreate(t.priorities))
  }

  /**
   * fillDatabaseWithDefaultData: notes first, then lists, then priorities. The notes table is
   * rebuilt from the default notes alone, and their priority names are looked up before the
   * priorities are seeded.
   */
  function FillDefaultData(t: Tables, ops: Collaborators): (t': Tables)
    ensures t'.notes.present && |t'.notes.rows| == |ops.defaultNotes|
    ensures forall i :: 0 <= i < |ops.defaultNotes| ==>
              t'.notes.rows[i].noteId == i + 1 &&
              NotesSql.AddedFrom(t'.notes.rows[i], ops.defaultNotes[i], t.priorities, ops.lookups)
    ensures t'.lists == ops.listsFillWithDefaultData(t.lists)
    ensures t'.priorities == ops.prioritiesFillWithDefaultData(t.priorities)
  {
    var afterNotes := NotesSql.FillWithDefaultData(t, ops.defaultNotes, ops.lookups);
    var afterLists := afterNotes.(lists := ops.listsFillWithDefaultData(afterNotes.lists));
    afterLists.(priorities := ops.prioritiesFillWithDefaultData(afterLists.priorities))
  }

  /**
   * onCreate: whatever the notes table held, it ends with one row per default note, and the
   * default notes' priority names are resolved against the priorities table as created, not yet seeded.
   */
  function OnCreateEffect(t: Tables, ops: Collaborators): (t': Tables)
    ensures t'.notes.present && |t'.notes.rows| == |ops.defaultNotes|
    ensures forall i :: 0 <= i < |ops.defaultNotes| ==>
              t'.notes.rows[i].noteId == i + 1 &&
              NotesSql.AddedFrom(t'.notes.rows[i], ops.defaultNotes[i], ops.prioritiesOnCreate(t.priorities), ops.lookups)
    ensures t'.lists == ops.listsFillWithDefaultData(ops.listsOnCreate(t.lists))
    ensures t'.priorities == ops.prioritiesFillWithDefaultData(ops.prioritiesOnCreate(t.priorities))
  {
    FillDefaultData(CreateTables(t, ops), ops)
  }

  /** onUpgrade: the three onUpgrade calls and no seeding; the notes table is left empty. */
  function OnUpgradeEffect(t: Tables, ops: Collaborators): (t': Tables)
    ensures t'.notes == NotesTable(true, [])
    ensures t'.lists == ops.listsOnUpgrade(t.lists)
    ensures t'.priorities == ops.prioritiesOnUpgrade(t.priorities)
  {
    Tables(NotesSql.Upgraded(t.notes), ops.listsOnUpgrade(t.lists), ops.prioritiesOnUpgrade(t.priorities))
  }

  /** Seeding discards the old notes: two databases with the same lists and priorities end alike. */
  lemma OnCreateDiscardsPriorNotes(t1: Tables, t2: Tables, ops: Collaborators)
    requires t1.lists == t2.lists && t1.priorities == t2.priorities
    ensures OnCreateEffect(t1, ops) == OnCreateEffect(t2, ops)
  {
    assert CreateTables(t1, ops).(notes := NotesTable(true, [])) == CreateTables(t2, ops).(notes := NotesTable(true, []));
  }

  /** `move` applied to each note in turn, first to last: one call per note, nothing else. */
  function MoveEachToTrash(move: (seq<NoteRow>, Note) -> seq<NoteRow>, t: seq<NoteRow>, notes: seq<Note>): (t': seq<NoteRow>)
    ensures notes == [] ==> t' == t
    ensures |notes| == 1 ==> t' == move(t, notes[0])
    decreases |notes|
  {
    if notes == [] then t
    else move(MoveEachToTrash(move, t, notes[..|notes| - 1]), notes[|notes| - 1])
  }

  /** Trashing a + b is trashing a, then b from where a left off. */
  lemma {:induction false} MoveEachToTrashSplits(move: (seq<NoteRow>, Note) -> seq<NoteRow>, t: seq<NoteRow>,
                                                 a: seq<Note>, b: seq<Note>)
    ensures MoveEachToTrash(move, t, a + b) == MoveEachToTrash(move, MoveEachToTrash(move, t, a), b)
    decreases |b|
  {
    if b == [] {
      assert a + b == a;
    } else {
      assert (a + b)[..|a + b| - 1] == a + b[..|b| - 1];
      MoveEachToTrashSplits(move, t, a, b[..|b| - 1]);
    }
  }

  /** Each note of the list takes exactly one move, and the moves happen in the list's order. */
  lemma MoveEachToTrashOnePerNote(move: (seq<NoteRow>, Note) -> seq<NoteRow>, t: seq<NoteRow>, notes: seq<Note>, k: nat)
    requires k < |notes|
    ensures MoveEachToTrash(move, t, notes[..k + 1]) == move(MoveEachToTrash(move, t, notes[..k]), notes[k])
    ensures MoveEachToTrash(move, t, notes) ==
              MoveEachToTrash(move, move(MoveEachToTrash(move, t, notes[..k]), notes[k]), notes[k + 1..])
  {
    assert notes[..k + 1][..k] == notes[..k];
    assert notes == notes[..k + 1] + notes[k + 1..];
    MoveEachToTrashSplits(move, t, notes[..k + 1], notes[k + 1..]);
  }

  class DatabaseHelper {
    const ops: Collaborators
    /** The connection opened once, in the constructor. */
    const db: Database
    var notesDao: Dao.NotesDao

    ghost predicate Valid()
      reads this
    {
      notesDao.db == db && notesDao.lookups == ops.lookups
    }

    /** `connection` stands for what getWritableDatabase returns. */
    constructor (ops: Collaborators, connection: Database)
      ensures Valid() && this.ops == ops && db == connection
    {
      this.ops := ops;
      this.db := connection;
      notesDao := new Dao.NotesDao(connection, ops.lookups);
    }

    /** Runs when the database file has just been created: create the three tables, then seed them. */
    method OnCreate(d: Database)
      requires d == db
      modifies this, d
      ensures Valid() && fresh(notesDao)
      ensures d.tables == OnCreateEffect(old(d.tables), ops)
    {
      notesDao := new Dao.NotesDao(d, ops.lookups);
      notesDao.OnCreate(d);
      d.tables := d.tables.(lists := ops.listsOnCreate(d.tables.lists));
      d.tables := d.tables.(priorities := ops.prioritiesOnCreate(d.tables.priorities));
      FillDatabaseWithDefaultData(d);
    }

    /** Runs when the stored schema version is older: drop and create the three tables, no seeding. */
    method OnUpgrade(d: Database, oldVersion: int, newVersion: int)
      requires d == db
      modifies this, d
      ensures Valid() && fresh(notesDao)
      ensures d.tables == OnUpgradeEffect(old(d.tables), ops)
    {
      notesDao := new Dao.NotesDao(d, ops.lookups);
      notesDao.OnUpgrade(d);
      d.tables := d.tables.(lists := ops.listsOnUpgrade(d.tables.lists));
      d.tables := d.tables.(priorities := ops.prioritiesOnUpgrade(d.tables.priorities));
    }

    method FillDatabaseWithDefaultData(d: Database)
      requires Valid() && d == db
      modifies d
      ensures d.tables == FillDefaultData(old(d.tables), ops)
    {
      notesDao.FillWithDefaultData(d, ops.defaultNotes);
      d.tables := d.tables.(lists := ops.listsFillWithDefaultData(d.tables.lists));
      d.tables := d.tables.(priorities := ops.prioritiesFillWithDefaultData(d.tables.priorities));
    }

    /**
     * Adds the note and returns the note_id the insert gave it. NotesDao.addNote itself returns
     * nothing; the id here is the rowid of its insert.
     */
    method AddNote(note: Note) returns (id: int)
      requires Valid() && db.tables.notes.present
      modifies db
      ensures db.tables == NotesSql.AddNote(old(db.tables), note, ops.lookups)
      ensures id == db.tables.notes.rows[|old(db.tables.notes.rows)|].noteId
      ensures id !in NotesSql.Ids(old(db.tables.notes.rows))
    {
      id := NotesSql.NextRowId(db.tables.notes.rows);
      notesDao.AddNote(note);
    }

    method GetAllNotesFromList(list: NotesList) returns (notes: seq<Note>)
      ensures notes == ops.getAllNotesFromList(db.tables, list)
    {
      notes := ops.getAllNotesFromList(db.tables, list);
    }

    method GetAllNotesFromTrash() returns (notes: seq<Note>)
      ensures notes == ops.getAllNotesFromTrash(db.tables)
    {
      notes := ops.getAllNotesFromTrash(db.tables);
    }

    /** The search over notes not in the trash: getSearchResults with the trash flag false. */
    method GetSearchResultsFromAllLists(searchRequest: string) returns (notes: seq<Note>)
      ensures notes == ops.getSearchResults(db.tables, searchRequest, false)
    {
      notes := ops.getSearchResults(db.tables, searchRequest, false);
    }

    /** The search over the trash: getSearchResults with the trash flag true. */
    method GetSearchResultsFromTrash(searchRequest: string) returns (notes: seq<Note>)
      ensures notes == ops.getSearchResults(db.tables, searchRequest, true)
    {
      notes := ops.getSearchResults(db.tables, searchRequest, true);
    }

    method AddList(notesList: NotesList)
      modifies db
      ensures db.tables == old(db.tables).(lists := ops.addList(old(db.tables.lists), notesList))
    {
      db.tables := db.tables.(lists := ops.addList(db.tables.lists, notesList));
    }

    method DeleteNote(note: Note)
      requires Valid() && db.tables.notes.present
      modifies db
      ensures db.tables == NotesSql.DeleteNote(old(db.tables), note.id)
    {
      notesDao.DeleteNote(note);
    }

    method MoveNoteToTrash(note: Note)
      modifies db
      ensures db.tables == old(db.tables).(notes := old(db.tables.notes).(rows := ops.moveNoteToTrash(old(db.tables.notes.rows), note)))
    {
      db.tables := db.tables.(notes := db.tables.notes.(rows := ops.moveNoteToTrash(db.tables.notes.rows, note)));
    }

    method MoveListToTrash(list: NotesList)
      modifies db
      ensures db.tables == old(db.tables).(lists := ops.moveListToTrash(old(db.tables.lists), list))
    {
      db.tables := db.tables.(lists := ops.moveListToTrash(db.tables.lists, list));
    }

    method MoveNoteToAnotherList(noteToMove: Note, destinationList: NotesList)
      modifies db
      ensures db.tables == old(db.tables).(notes := old(db.tables.notes).(rows :=
                             ops.moveNoteToAnotherList(old(db.tables.notes.rows), noteToMove, destinationList)))
    {
      db.tables := db.tables.(notes := db.tables.notes.(rows :=
                     ops.moveNoteToAnotherList(db.tables.notes.rows, noteToMove, destinationList)));
    }

    /**
     * Reads the list's notes once, then moves each of them to the trash in that order. The
     * moves do not change which notes are visited, and nothing else is written.
     */
    method MoveAllNotesFromListToTrash(list: NotesList)
      modifies db
      ensures db.tables == old(db.tables).(notes := old(db.tables.notes).(rows :=
                MoveEachToTrash(ops.moveNoteToTrash, old(db.tables.notes.rows), ops.getAllNotesFromList(old(db.tables), list))))
    {
      var allNotesFromList := GetAllNotesFromList(list);
      for i := 0 to |allNotesFromList|
        invariant db.tables == old(db.tables).(notes := old(db.tables.notes).(rows :=
                    MoveEachToTrash(ops.moveNoteToTrash, old(db.tables.notes.rows), allNotesFromList[..i])))
      {
        assert allNotesFromList[..i + 1][..i] == allNotesFromList[..i];
        MoveNoteToTrash(allNotesFromList[i]);
      }
      assert allNotesFromList[..|allNotesFromList|] == allNotesFromList;
    }

    method UpdateNote(note: Note)
      requires Valid() && db.tables.notes.present
      modifies db
      ensures db.tables == NotesSql.UpdateNote(old(db.tables), note, ops.lookups)
    {
      notesDao.UpdateNote(note);
    }

    method GetEmptyNotesCountInList(list: NotesList) returns (count: int)
      ensures count == ops.getEmptyNotesCountInList(db.tables.notes, list)
    {
      count := ops.getEmptyNotesCountInList(db.tables.notes, list);
    }

    method DeleteEmptyNotesFromList(list: NotesList)
      modifies db
      ensures db.tables == old(db.tables).(notes := old(db.tables.notes).(rows := ops.deleteEmptyNotesFromList(old(db.tables.notes.rows), list)))
    {
      db.tables := db.tables.(notes := db.tables.notes.(rows := ops.deleteEmptyNotesFromList(db.tables.notes.rows, list)));
    }

    method DeleteTrashNotes()
      modifies db
      ensures db.tables == old(db.tables).(notes := old(db.tables.notes).(rows := ops.deleteTrashNotes(old(db.tables.notes.rows))))
    {
      db.tables := db.tables.(notes := db.tables.notes.(rows := ops.deleteTrashNotes(db.tables.notes.rows)));
    }

    method DeleteTrashLists()
      modifies db
      ensures db.tables == old(db.tables).(lists := ops.deleteTrashLists(old(db.tables.lists)))
    {
      db.tables := db.tables.(lists := ops.deleteTrashLists(db.tables.lists));
    }

    method GetAllListNames() returns (names: seq<string>)
      ensures names == ops.getAllListNamesNotFromTrash(db.tables.lists)
    {
      names := ops.getAllListNamesNotFromTrash(db.tables.lists);
    }

    method GetListNameById(listId: int) returns (name: Option<string>)
      ensures name == ops.getListById(db.tables.lists, listId).name
    {
      var list := GetListById(listId);
      name := list.name;
    }

    method GetListIdByName(listName: string) returns (id: int)
      ensures id == ops.lookups.listIdByName(db.tables.lists, Some(listName))
    {
      id := ops.lookups.listIdByName(db.tables.lists, Some(listName));
    }

    method GetListById(listId: int) returns (list: NotesList)
      ensures list == ops.getListById(db.tables.lists, listId)
    {
      list := ops.getListById(db.tables.lists, listId);
    }

    method UpdateList(list: NotesList)
      modifies db
      ensures db.tables == old(db.tables).(lists := ops.updateList(old(db.tables.lists), list))
    {
      db.tables := db.tables.(lists := ops.updateList(db.tables.lists, list));
    }

    method DeleteAllEmptyNotes()
      modifies db
      ensures db.tables == old(db.tables).(notes := old(db.tables.notes).(rows := ops.deleteAllEmptyNotes(old(db.tables.notes.rows))))
    {
      db.tables := db.tables.(notes := db.tables.notes.(rows := ops.deleteAllEmptyNotes(db.tables.notes.rows)));
    }
  }

  /** The process-wide static field DatabaseHelper.databaseHelperInstance. */
  class HelperInstance {
    var databaseHelperInstance: DatabaseHelper?

    /** The helper stored so far, if any, is bound to its connection. */
    ghost predicate Valid()
      reads this, databaseHelperInstance
    {
      databaseHelperInstance != null ==> databaseHelperInstance.Valid()
    }

    /** The static field starts out null. */
    constructor ()
      ensures Valid() && databaseHelperInstance == null
    {
      databaseHelperInstance := null;
    }

    /** The first call creates the helper; every later call returns that same helper. */
    method GetInstance(ops: Collaborators, connection: Database) returns (helper: DatabaseHelper)
      requires Valid()
      modifies this
      ensures Valid() && helper.Valid()
      ensures databaseHelperInstance == helper
      ensures old(databaseHelperInstance) != null ==> helper == old(databaseHelperInstance)
      ensures old(databaseHelperInstance) == null ==>
                fresh(helper) && helper.ops == ops && helper.db == connection
    {
      if databaseHelperInstance == null {
        databaseHelperInstance := new DatabaseHelper(ops, connection);
      }
      helper := databaseHelperInstance;
    }
  }
}

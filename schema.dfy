/**
 * The entities of the notes app and the three tables of its SQLite database
 * (`notes`, the lists table and the priorities table), held as in-memory values.
 */
module Schema {

  datatype Option<+T> = None | Some(value: T)

  /** A priority as the app passes it around; an `id` of 0 means "not resolved yet: use the name". */
  datatype Priority = Priority(id: int, name: Option<string>)

  /** A list as the app passes it around; an `id` of 0 means "not resolved yet: use the name". */
  datatype NotesList = NotesList(id: int, name: Option<string>)

  datatype Note = Note(id: int, modificationTime: int, text: string, inTrash: bool,
                       priority: Priority, list: NotesList)

  /** One row of table `notes`: (note_id, modification_timestamp, text, in_trash, priority_id, list_id). */
  datatype NoteRow = NoteRow(noteId: int, modifiedAt: int, text: string, inTrash: bool,
                             priorityId: int, listId: int)

  /** Table `notes`: whether it exists at the moment, and its rows in storage order. */
  datatype NotesTable = NotesTable(present: bool, rows: seq<NoteRow>)

  /** One row of the lists table, keyed by its list_id. */
  datatype ListRow = ListRow(name: string, inTrash: bool)

  /** The lists table, list_id to row (list_id is that table's key). */
  type ListsTable = map<int, ListRow>

  /** The priorities table, priority_id to name (priority_id is that table's key). */
  type PrioritiesTable = map<int, string>

  datatype Tables = Tables(notes: NotesTable, lists: ListsTable, priorities: PrioritiesTable)

  /** The open SQLite connection: the state of every table, which each statement replaces. */
  class Database {
    var tables: Tables
  }

  /**
   * PriorityDao.getPriorityIdByName and ListsDao.getListIdByName, which NotesDao opens on its
   * own connection. Their bodies are not part of this model: each is an arbitrary function of
   * its table and the name asked for.
   */
  datatype Lookups = Lookups(
    priorityIdByName: (PrioritiesTable, Option<string>) -> int,
    listIdByName: (ListsTable, Option<string>) -> int)
}

# EasyNote persistence layer, in Dafny

This project models the persistence layer of the EasyNote Android app. That layer has two parts:

- `NotesDao` owns the SQLite table `notes` with columns `note_id`, `modification_timestamp`, `text`, `in_trash`, `priority_id` and `list_id`.
- `DatabaseHelper` is the single entry point. It owns the connection, creates or rebuilds the schema, seeds default data, and forwards every operation to a DAO.

The SQLite database is an in-memory value, `Schema.Tables`:

- The notes table is a flag saying whether it exists, plus a sequence of rows.
- The lists table and the priorities table are maps keyed by their ids.

The connection is the class `Schema.Database`. Its one field `tables` is replaced by every statement.

The model has five modules:

- `SqlText`: SQLite's one-argument `trim`, which strips the space character from both ends.
- `NotesSql`: one function per SQL statement `NotesDao` issues, mapping the tables before the statement to the tables after it. Beside them are lemmas about what each statement changes and what it leaves alone.
- `NotesQuery`: the query behind `getAllNotes`. It is the LEFT OUTER JOIN with the lists and priorities tables, and then the ORDER BY `priority_id` ascending and `modification_timestamp` descending. The ORDER BY is an insertion sort that is proved sorted and a permutation. Every contract leaves the order of rows that tie on both keys open, as SQLite does.
- `Dao`: the class `NotesDao`. Each method is proved to leave the tables exactly as the matching `NotesSql` function says. `getAllNotes` walks the sorted cursor in a loop.
- `Facade`: the class `DatabaseHelper` and the static `getInstance` rule.
  - The collaborators whose code is not part of this model are the fields of `Collaborators`. These are `ListsDao`, `PriorityDao`, `DefaultData`, and the `NotesDao` members that `DatabaseHelper` calls but `NotesDao.java` does not define.
  - Each collaborator is an arbitrary function, typed so that a DAO's write touches only its own table.
  - The name lookups `getPriorityIdByName` and `getListIdByName` are the two fields of `Schema.Lookups`.

Behaviour modelled as the code has it:

- `addNote` resolves the list id by name when it is 0, but writes `note.list.id`. A note added by list name is therefore stored with `list_id` 0. The join later gives it a NULL list name, unless a lists row has `list_id` 0. `updateNote` does write the resolved id.
- `getEmptyNotesCount` counts rows whose text is exactly `''`. `deleteEmptyNotes` deletes rows whose *trimmed* text is `''`. So a note made only of spaces is deleted but never counted (`NotesSql.WhitespaceNoteDeletedButNotCounted`). The count equals the number of rows deleted exactly when no such note exists (`NotesSql.EmptyCountEqualsDeletedIff`).
- `getAllNotes` has no `in_trash` filter and does not select `in_trash`. It returns one Note per row, trashed or not, and each Note has the trash flag `false`.
- `addNote` and `updateNote` store the caller's `inTrash` and `modificationTime` as given.
- `fillWithDefaultData` in `DatabaseHelper` seeds the notes before the lists and the priorities. So the default notes' priority names are resolved against the priorities table as it is before the priorities are seeded.
- `onUpgrade` drops the notes table and creates it again empty. The lists and priorities tables each get their own DAO's `onUpgrade`. Nothing is seeded afterwards.
- `NotesDao.fillWithDefaultData(db, …)` drops and creates the table on its argument `db`, but inserts through its own connection. `Dao.NotesDao.FillWithDefaultData` states both cases.

## Model

| member | source | states |
|---|---|---|
| `SqlText.Trim` | app/src/main/java/com/anshmidt/easynote/database/NotesDao.java:198 | `trim(text)` is empty exactly when the text is all spaces; otherwise it starts and ends with a non-space |
| `SqlText.TrimStripsOnlyEdgeSpaces` | app/src/main/java/com/anshmidt/easynote/database/NotesDao.java:198 | `trim` returns a slice of its argument with only spaces before and after it |
| `NotesSql.NextRowId` | app/src/main/java/com/anshmidt/easynote/database/NotesDao.java:40 | the `INTEGER PRIMARY KEY` id given to an insert is larger than every existing id, is one more than the largest, and is 1 in an empty table |
| `NotesSql.Created` | app/src/main/java/com/anshmidt/easynote/database/NotesDao.java:37-47 | `CREATE TABLE IF NOT EXISTS` leaves an existing table untouched and makes a missing one exist empty |
| `NotesSql.Dropped` | app/src/main/java/com/anshmidt/easynote/database/NotesDao.java:57 | `DROP TABLE IF EXISTS`: afterwards the notes table does not exist and holds no row, whether or not it existed before |
| `NotesSql.Upgraded` | app/src/main/java/com/anshmidt/easynote/database/NotesDao.java:49-53 | after `onUpgrade` the notes table exists and is empty |
| `NotesSql.AddNote` | app/src/main/java/com/anshmidt/easynote/database/NotesDao.java:74-94 | exactly one row is appended and every existing row is unchanged; the new row has a fresh `note_id` and the note's time, text and trash flag; `priority_id` is the note's when nonzero, else the name lookup's; `list_id` is `note.list.id` even when 0; lists and priorities are untouched |
| `NotesSql.AddNoteKeepsIdsDistinct` | app/src/main/java/com/anshmidt/easynote/database/NotesDao.java:74-94 | an insert keeps `note_id` unique |
| `NotesSql.AddNotes` | app/src/main/java/com/anshmidt/easynote/database/NotesDao.java:68-72 | adding a sequence appends one row per note, in order, each carrying its note's values, and keeps the old rows |
| `NotesSql.AddNotesNumbersConsecutively` | app/src/main/java/com/anshmidt/easynote/database/NotesDao.java:68-72 | inserts into a table numbered 1..n are numbered n+1, n+2, … |
| `NotesSql.FillWithDefaultData` | app/src/main/java/com/anshmidt/easynote/database/NotesDao.java:60-66 | whatever the table held, it ends existing with exactly one row per default note, numbered from 1, each row carrying its note's values |
| `NotesSql.UpdateNote` | app/src/main/java/com/anshmidt/easynote/database/NotesDao.java:150-175 | rows whose `note_id` is `note.id` get all five columns, with priority and list resolved by name when their id is 0; every other row and table is unchanged |
| `NotesSql.UpdateNoteAbsentIsNoop` | app/src/main/java/com/anshmidt/easynote/database/NotesDao.java:173-174 | updating an id that no row has leaves the tables unchanged |
| `NotesSql.UpdateNoteChangesOneRow` | app/src/main/java/com/anshmidt/easynote/database/NotesDao.java:150-175 | with unique ids at most one row changes, and the ids stay unique |
| `NotesSql.DeleteNote` | app/src/main/java/com/anshmidt/easynote/database/NotesDao.java:177-179 | every row with that `note_id` is removed, every other row is kept with its multiplicity, and the other tables are unchanged |
| `NotesSql.DeleteNoteAbsentIsNoop` | app/src/main/java/com/anshmidt/easynote/database/NotesDao.java:177-179 | deleting an id that no row has leaves the tables unchanged |
| `NotesSql.DeleteKeepsIdsDistinct` | app/src/main/java/com/anshmidt/easynote/database/NotesDao.java:177-179 | both deletions keep `note_id` unique |
| `NotesSql.EmptyTextCount` | app/src/main/java/com/anshmidt/easynote/database/NotesDao.java:184-194 | the count is 0 exactly when no row's text is `''`, and equals the row count exactly when every row's text is `''` |
| `NotesSql.DeleteEmptyNotes` | app/src/main/java/com/anshmidt/easynote/database/NotesDao.java:196-201 | exactly the rows whose trimmed text is empty are removed, in any list and any trash state; other rows keep their multiplicity; no remaining text is all spaces |
| `NotesSql.DeleteEmptyNotesIdempotent` | app/src/main/java/com/anshmidt/easynote/database/NotesDao.java:196-201 | a second cleanup changes nothing |
| `NotesSql.EmptyCountZeroAfterCleanup` | app/src/main/java/com/anshmidt/easynote/database/NotesDao.java:196-201 | after the cleanup `getEmptyNotesCount` is 0 |
| `NotesSql.EmptyCountAtMostDeleted` | app/src/main/java/com/anshmidt/easynote/database/NotesDao.java:184-201 | the untrimmed count is at most the number of rows the trimmed cleanup deletes |
| `NotesSql.EmptyCountEqualsDeletedIff` | app/src/main/java/com/anshmidt/easynote/database/NotesDao.java:184-201 | the untrimmed count equals the number of rows the cleanup deletes exactly when no row's text is a non-empty run of spaces |
| `NotesSql.WhitespaceNoteDeletedButNotCounted` | app/src/main/java/com/anshmidt/easynote/database/NotesDao.java:184-201 | a note of one space is not counted as empty, yet the cleanup deletes it |
| `NotesQuery.JoinRow` | app/src/main/java/com/anshmidt/easynote/database/NotesDao.java:113-117 | a LEFT OUTER JOIN of one row: the note's own columns pass through; each name is NULL exactly when no priorities or lists row has the note's key, and otherwise it is that row's name |
| `NotesQuery.Join` | app/src/main/java/com/anshmidt/easynote/database/NotesDao.java:113-117 | the join keeps every row of `notes`, one joined row each in table order, with the note's id and text |
| `NotesQuery.ToNote` | app/src/main/java/com/anshmidt/easynote/database/NotesDao.java:126-138 | the Note built from a cursor row carries that row's id, time, text, priority and list; its trash flag is false because `in_trash` is not read |
| `NotesQuery.OrderBy` | app/src/main/java/com/anshmidt/easynote/database/NotesDao.java:118-120 | the ORDER BY result is a permutation of the joined rows, sorted by `priority_id` ascending and then by modification time descending |
| `Dao.NotesDao.constructor` | app/src/main/java/com/anshmidt/easynote/database/NotesDao.java:33-35 | the DAO is bound to the connection it is given |
| `Dao.NotesDao.OnCreate` | app/src/main/java/com/anshmidt/easynote/database/NotesDao.java:37-47 | the table exists afterwards; if it already existed its rows are kept |
| `Dao.NotesDao.OnUpgrade` | app/src/main/java/com/anshmidt/easynote/database/NotesDao.java:49-53 | the notes table exists and is empty; the other tables are unchanged |
| `Dao.NotesDao.Drop` | app/src/main/java/com/anshmidt/easynote/database/NotesDao.java:55-58 | the notes table no longer exists; the other tables are unchanged |
| `Dao.NotesDao.FillWithDefaultData` | app/src/main/java/com/anshmidt/easynote/database/NotesDao.java:60-66 | on its own connection the result is `NotesSql.FillWithDefaultData`; on another connection, that one is emptied and the defaults go to the DAO's own |
| `Dao.NotesDao.AddNotes` | app/src/main/java/com/anshmidt/easynote/database/NotesDao.java:68-72 | the loop of inserts leaves the tables as `NotesSql.AddNotes` says |
| `Dao.NotesDao.AddNote` | app/src/main/java/com/anshmidt/easynote/database/NotesDao.java:74-97 | the insert leaves the tables as `NotesSql.AddNote` says |
| `Dao.NotesDao.GetAllNotes` | app/src/main/java/com/anshmidt/easynote/database/NotesDao.java:103-148 | one Note per table row, trashed or not, as a permutation of the joined rows; ordered by priority id ascending and then by modification time descending |
| `Dao.NotesDao.UpdateNote` | app/src/main/java/com/anshmidt/easynote/database/NotesDao.java:150-175 | the update leaves the tables as `NotesSql.UpdateNote` says |
| `Dao.NotesDao.DeleteNote` | app/src/main/java/com/anshmidt/easynote/database/NotesDao.java:177-182 | the delete leaves the tables as `NotesSql.DeleteNote` says |
| `Dao.NotesDao.GetEmptyNotesCount` | app/src/main/java/com/anshmidt/easynote/database/NotesDao.java:184-194 | returns the untrimmed count of empty texts, which is between 0 and the row count and never -1 |
| `Dao.NotesDao.DeleteEmptyNotes` | app/src/main/java/com/anshmidt/easynote/database/NotesDao.java:196-201 | the cleanup leaves the tables as `NotesSql.DeleteEmptyNotes` says |
| `Facade.FillDefaultData` | app/src/main/java/com/anshmidt/easynote/database/DatabaseHelper.java:81-86 | seeding goes notes, then lists, then priorities; the notes table ends with one row per default note, numbered from 1, its names resolved against the unseeded priorities |
| `Facade.CreateTables` | app/src/main/java/com/anshmidt/easynote/database/DatabaseHelper.java:64-66 | the three creation calls: the notes table exists afterwards and an existing one is kept as it was; the lists and priorities tables are whatever their own DAO's `onCreate` makes of them |
| `Facade.OnCreateEffect` | app/src/main/java/com/anshmidt/easynote/database/DatabaseHelper.java:58-68 | create the three tables, then seed; the notes end as one row per default note; lists and priorities are their fill applied to their creation |
| `Facade.OnUpgradeEffect` | app/src/main/java/com/anshmidt/easynote/database/DatabaseHelper.java:70-79 | all three tables are upgraded and nothing is seeded; the notes table ends empty |
| `Facade.OnCreateDiscardsPriorNotes` | app/src/main/java/com/anshmidt/easynote/database/DatabaseHelper.java:58-68 | the result of `onCreate` does not depend on the earlier note rows |
| `Facade.MoveEachToTrash` | app/src/main/java/com/anshmidt/easynote/database/DatabaseHelper.java:142-144 | the loop over the list's notes, on the notes rows: no notes leave the rows as they were, and one note is exactly one `moveNoteToTrash` |
| `Facade.MoveEachToTrashSplits` | app/src/main/java/com/anshmidt/easynote/database/DatabaseHelper.java:140-145 | trashing `a + b` note by note is trashing `a`, then `b` from the state `a` left |
| `Facade.MoveEachToTrashOnePerNote` | app/src/main/java/com/anshmidt/easynote/database/DatabaseHelper.java:140-145 | the k-th note gets exactly one `moveNoteToTrash`, after the first k notes and before the rest |
| `Facade.DatabaseHelper.constructor` | app/src/main/java/com/anshmidt/easynote/database/DatabaseHelper.java:33-41 | the helper keeps the opened connection and binds its `NotesDao` to it |
| `Facade.DatabaseHelper.OnCreate` | app/src/main/java/com/anshmidt/easynote/database/DatabaseHelper.java:58-68 | a fresh `NotesDao` on the connection, and the tables become `OnCreateEffect` of the old ones |
| `Facade.DatabaseHelper.OnUpgrade` | app/src/main/java/com/anshmidt/easynote/database/DatabaseHelper.java:70-79 | a fresh `NotesDao` on the connection, and the tables become `OnUpgradeEffect` of the old ones |
| `Facade.DatabaseHelper.FillDatabaseWithDefaultData` | app/src/main/java/com/anshmidt/easynote/database/DatabaseHelper.java:81-86 | the tables become `FillDefaultData` of the old ones |
| `Facade.DatabaseHelper.AddNote` | app/src/main/java/com/anshmidt/easynote/database/DatabaseHelper.java:88-90 | inserts as `NotesDao.addNote` does and returns the fresh `note_id` of the new row |
| `Facade.DatabaseHelper.GetAllNotesFromList` | app/src/main/java/com/anshmidt/easynote/database/DatabaseHelper.java:104-106 | returns the DAO's answer for that list unchanged |
| `Facade.DatabaseHelper.GetAllNotesFromTrash` | app/src/main/java/com/anshmidt/easynote/database/DatabaseHelper.java:108-110 | returns the DAO's trash listing unchanged |
| `Facade.DatabaseHelper.GetSearchResultsFromAllLists` | app/src/main/java/com/anshmidt/easynote/database/DatabaseHelper.java:112-114 | the DAO search with the trash flag `false` |
| `Facade.DatabaseHelper.GetSearchResultsFromTrash` | app/src/main/java/com/anshmidt/easynote/database/DatabaseHelper.java:116-118 | the same DAO search with the trash flag `true` |
| `Facade.DatabaseHelper.AddList` | app/src/main/java/com/anshmidt/easynote/database/DatabaseHelper.java:92-94 | one `ListsDao.addList` call on the lists table, with the list unchanged; nothing else is written |
| `Facade.DatabaseHelper.DeleteNote` | app/src/main/java/com/anshmidt/easynote/database/DatabaseHelper.java:124-126 | exactly the effect of `NotesDao.deleteNote` with the same note |
| `Facade.DatabaseHelper.MoveNoteToTrash` | app/src/main/java/com/anshmidt/easynote/database/DatabaseHelper.java:128-130 | one `moveNoteToTrash` call on the notes rows, with the note unchanged; the notes table still exists if it did, and nothing else is written |
| `Facade.DatabaseHelper.MoveListToTrash` | app/src/main/java/com/anshmidt/easynote/database/DatabaseHelper.java:132-134 | one `moveListToTrash` call on the lists table, with the list unchanged; nothing else is written |
| `Facade.DatabaseHelper.MoveNoteToAnotherList` | app/src/main/java/com/anshmidt/easynote/database/DatabaseHelper.java:136-138 | one `moveNoteToAnotherList` call on the notes rows with both arguments unchanged; the notes table still exists if it did, and nothing else is written |
| `Facade.DatabaseHelper.MoveAllNotesFromListToTrash` | app/src/main/java/com/anshmidt/easynote/database/DatabaseHelper.java:140-145 | the list's notes are read once, then `moveNoteToTrash` is applied to each of them in order on the notes rows; the notes table still exists if it did, and lists and priorities are untouched |
| `Facade.DatabaseHelper.UpdateNote` | app/src/main/java/com/anshmidt/easynote/database/DatabaseHelper.java:147-149 | exactly the effect of `NotesDao.updateNote` with the same note |
| `Facade.DatabaseHelper.GetEmptyNotesCountInList` | app/src/main/java/com/anshmidt/easynote/database/DatabaseHelper.java:151-153 | returns the DAO's count for that list unchanged |
| `Facade.DatabaseHelper.DeleteEmptyNotesFromList` | app/src/main/java/com/anshmidt/easynote/database/DatabaseHelper.java:155-157 | one DAO call on the notes rows; the notes table still exists if it did, and nothing else is written |
| `Facade.DatabaseHelper.DeleteTrashNotes` | app/src/main/java/com/anshmidt/easynote/database/DatabaseHelper.java:159-161 | one DAO call on the notes rows; the notes table still exists if it did, and nothing else is written |
| `Facade.DatabaseHelper.DeleteTrashLists` | app/src/main/java/com/anshmidt/easynote/database/DatabaseHelper.java:163-165 | one DAO call on the lists table; nothing else is written |
| `Facade.DatabaseHelper.GetAllListNames` | app/src/main/java/com/anshmidt/easynote/database/DatabaseHelper.java:167-169 | returns the DAO's names of the lists not in the trash, unchanged |
| `Facade.DatabaseHelper.GetListNameById` | app/src/main/java/com/anshmidt/easynote/database/DatabaseHelper.java:173-175 | equals the name of `getListById(listId)` |
| `Facade.DatabaseHelper.GetListIdByName` | app/src/main/java/com/anshmidt/easynote/database/DatabaseHelper.java:177-179 | returns the lists lookup for that name |
| `Facade.DatabaseHelper.GetListById` | app/src/main/java/com/anshmidt/easynote/database/DatabaseHelper.java:181-183 | returns the DAO's list for that id |
| `Facade.DatabaseHelper.UpdateList` | app/src/main/java/com/anshmidt/easynote/database/DatabaseHelper.java:185-187 | one `updateList` call on the lists table, with the list unchanged; nothing else is written |
| `Facade.DatabaseHelper.DeleteAllEmptyNotes` | app/src/main/java/com/anshmidt/easynote/database/DatabaseHelper.java:189-191 | one DAO call on the notes rows; the notes table still exists if it did, and nothing else is written |
| `Facade.HelperInstance.constructor` | app/src/main/java/com/anshmidt/easynote/database/DatabaseHelper.java:26 | the static instance field starts out null |
| `Facade.HelperInstance.GetInstance` | app/src/main/java/com/anshmidt/easynote/database/DatabaseHelper.java:43-47 | the first call creates the helper on the given connection; every later call returns that same instance; the stored helper is always bound to its connection, so every returned helper can be used |

## Left out

- ListsDao, PriorityDao, DefaultData, and the Note, NotesList and Priority classes are not part of this model. The same goes for the `NotesDao` members that `DatabaseHelper` calls but `NotesDao.java` lacks: `getAllNotesFromList`, `getAllNotesFromTrash`, `getSearchResults`, `moveNoteToTrash`, `moveNoteToAnotherList`, `getEmptyNotesCountInList`, `deleteEmptyNotesFromList`, `deleteTrashNotes` and `deleteAllEmptyNotes`. Each is an arbitrary function in `Facade.Collaborators` or `Schema.Lookups`. The model says only which table each one may change. The five notes writes are UPDATEs or DELETEs, so they are typed on the notes rows: the notes table exists after them exactly when it did before.
- The name lookups are total functions. What they do for an unknown name, such as raising an error, is not modelled.
- The lists table may hold a row with `list_id` 0. Nothing in this model keeps key 0 out, because the lists schema is not part of it.
- The LEFT OUTER JOIN assumes that `list_id` and `priority_id` are the keys of their tables, which is why those tables are maps. Their schemas belong to the DAOs that are not modelled.
- NULL column values are not modelled, except the NULL names the join gives.
- `Dao.NotesDao.GetAllNotes`: the five-argument `Note` constructor is not part of this model. The returned Notes are taken to keep Java's default trash flag, `false`.
- A statement on a dropped notes table raises an SQLite error. Each `Dao.NotesDao` method that touches rows requires the table to exist instead. Android's `insert` returns -1 on such an error, and that case is not modelled either.
- SQLite's rowid rule when the largest id is 2^63-1 (a random unused id) is not modelled. Neither is the overflow of Java's 32-bit `int` ids.
- `Facade.DatabaseHelper.OnCreate`, `Facade.DatabaseHelper.OnUpgrade`, `Facade.DatabaseHelper.FillDatabaseWithDefaultData`: each requires its database argument to be the helper's own connection, which is what SQLiteOpenHelper hands them. The `ListsDao` and `PriorityDao` objects these callbacks rebuild are not modelled as objects; their operations act on that connection.
- Opening the connection (`getWritableDatabase`) is not modelled, and neither is SQLiteOpenHelper's choice of `onCreate` or `onUpgrade` from the stored version (`DATABASE_VERSION` is 2). The constructor takes the opened connection as a parameter.
- `Facade.DatabaseHelper.AddNote`: `NotesDao.addNote` returns nothing, so the returned int comes from the model's own insert, as the rowid that insert assigns.
- The `synchronized` on `getInstance` (concurrency) is not modelled, and neither is the `Context`.
- Logging is not modelled: `Log.d`, `printContentToLog`, `performSqlRequest`, `printAllNotes`, and the logging around `deleteEmptyNotes`. `Dao.NotesDao.DeleteEmptyNotes` still takes the two counts, and then discards their values.
- Cursors and the SQL text itself are not modelled: each statement is modelled by its effect.

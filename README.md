# easySql table editor core, modelled in Dafny

easySql is a desktop SQL trainer over a local SQLite file. This project models
the part of it that edits stored tables one row at a time:

- the store handle `DatabaseManager`: free-form statements, the query history
  log, schema and primary-key reads, the single-row UPDATE, INSERT and DELETE,
  and the table listing;
- the grid `TableModel`: which cells are editable, how a typed value is coerced
  to the column's type, and how an edit reaches the store before the grid;
- the "add row" action of the main window, which builds one default value per
  column and inserts the row.

The SQLite engine is not interpreted. It is a parameter `engine: Statement ->
Response`. A `Statement` is the SQL text together with its bound parameters.
The engine either raises `sqlite3.Error` with a message, or runs the statement
and reports the description, the rows, `rowcount` and the inserted rowid.
Either way it reports the tables afterwards, since a statement that raises
part-way keeps what it changed before the error under SQLite's FAIL conflict
rule. Every contract holds for every engine. Binding the parameters is
modelled: an integer outside SQLite's 64-bit INTEGER range makes the Python
driver raise OverflowError, which is not an `sqlite3.Error` and escapes the
store's methods. For such a statement, a raising engine stands for a statement
that does not prepare, and a running one for a statement that does (and is
then never run). The tables the schema
reads see are the `catalog` field of the store (name, `PRAGMA table_info`
columns, rows). A schema read that raises is a `fault: Option<string>`
parameter. Timestamps are a `now` parameter. Python's `float()` is a parameter
`parseFloat`. `int()` (with its default limit of 4300 digits), `str()` of an
int, `upper()`, `strip()` and `', '.join` are written out.

Modules, one per concern: `Wrappers` (Option, Result), `Text` (string
functions and the `int()` parser), `Values` (SQLite values and `str()`),
`Schema` (`PRAGMA table_info` rows, primary key), `Coercion`
(`_validate_value`), `Statements` (the executed and the displayed SQL),
`History` (the query log), `Database` (`DatabaseManager`), `Grid`
(`TableModel`), `Viewer` (`add_table_row`), `Scenarios` (worked cases on a
`students` table).

Behaviour of the code that the model keeps, although it may surprise a reader:

- Asking for the primary key of a table that does not exist is not a separate
  error. `PRAGMA table_info` returns no rows, so the answer is
  `'No primary key found'`.
- `setData` does not refuse edits of the key column itself. Only `flags` makes
  the INTEGER PRIMARY KEY column read-only.
- The displayed SQL is built by string formatting without escaping. `update_cell`
  quotes a NULL new value as `'None'`. `insert_row` writes NULL for it.
- The INSERT built by "add row" names every column, the key included, and
  passes NULL for an INTEGER PRIMARY KEY, so SQLite numbers the row. On the
  `students` table it logs `INSERT INTO students (student_id, name, email,
  age, country) VALUES (NULL, '', NULL, NULL, NULL)`: the NOT NULL `name`
  column gets the empty text (`Scenarios.DefaultStudentInsert`).
- The default-value rule of "add row" knows REAL and FLOAT but not DOUBLE. The
  coercer knows all three (`Viewer.DoubleColumnGetsEmptyText`).
- `get_table_names` filters with `NOT LIKE 'sqlite_%'`. In LIKE, `_` is a
  wildcard and case is ignored, so user tables such as `sqlite1` are hidden
  too (`Database.LikePatternHidesUserNames`).

## Model

| member | source | states |
|---|---|---|
| `Database.DatabaseManager.constructor` | easySql.py:28-33 | a new handle over an existing store has its tables and history, no rowid yet and no commit |
| `Database.DatabaseManager.SaveQueryHistory` | easySql.py:175-182 | appends exactly one entry (text, timestamp, success flag, error), numbers it with the next AUTOINCREMENT id, which becomes the cursor's `lastrowid`, sets the cursor's `rowcount` to 1 (one row inserted), commits once and leaves the tables alone |
| `Database.DatabaseManager.Apply` | easySql.py:157 | after the engine ran a statement, the tables are the engine's result, the cursor's `rowcount` is the statement's and `lastrowid` moves only when the statement inserted a row; the log is untouched |
| `Database.DatabaseManager.Fail` | easySql.py:171-173 | after the engine raised, the tables are what the statement left behind, the cursor's `rowcount` is -1, and the log, `lastrowid` and commits are untouched |
| `Database.DatabaseManager.ExecuteQuery` | easySql.py:154-173 | the tables are what the engine left, on failure too (the history commit makes a partial change durable); an engine error gives `Failed(message)` and a failure entry; a SELECT-looking statement with a description gives its columns and rows; anything else commits and reports `Rows affected: 1`, because `rowcount` is read after the history INSERT on the same cursor (see Findings); exactly one history entry is appended, successful iff the outcome is not a failure; afterwards the history INSERT is the cursor's last statement: the log id is one higher, `lastrowid` is that id and `rowcount` is 1 |
| `Database.DatabaseManager.ExecuteQueryKeepingRowCount` | easySql.py:154-173 | as `ExecuteQuery`, tables, log and cursor state included, except that the count reported for a statement that returns no rows is the engine's `rowcount` for that statement |
| `Scenarios.ExecuteQueryRowCountWitness` | easySql.py:167-169 | on the two sample students, `UPDATE students SET age = age + 1` changes 2 rows and leaves both a year older; the code as written reports `Rows affected: 1` and the corrected form reports 2; the two messages differ |
| `Database.DatabaseManager.GetQueryHistory` | easySql.py:184-190 | the newest `limit` entries (50 when no limit is given), newest first, all of them for a negative limit |
| `History.Newest` | easySql.py:184-190 | `ORDER BY id DESC LIMIT n` over an append-ordered log: length `min(n, size)` and the i-th result is the i-th newest entry |
| `History.NewestAfterAppend` | easySql.py:175-190 | a new entry heads every later non-empty read and shifts the older ones down by one |
| `History.NewestIsPrefix` | easySql.py:184-190 | a limited read is a prefix of the unlimited one: nothing skipped, reordered or repeated |
| `Database.DatabaseManager.GetTableSchema` | easySql.py:244-262 | a raising read gives its message; otherwise the table's columns, or no columns for a table that does not exist |
| `Database.Lookup` | easySql.py:247 | the table `PRAGMA table_info` describes exists iff some table's name matches ignoring ASCII case, and it is the first such table |
| `Database.DatabaseManager.GetPrimaryKey` | easySql.py:264-276 | a failed schema read passes its error through; a missing table or a table without key columns gives `'No primary key found'`; otherwise the key columns in schema order with the first one as the addressing column |
| `Schema.PrimaryKey` | easySql.py:270-276 | the error exactly when no column has `pk > 0`; otherwise the key list holds exactly the names of the columns with `pk > 0` and starts with the chosen column |
| `Schema.KeyNamesMembers` | easySql.py:270 | a name is listed as a key exactly when some column of that name has `pk > 0` |
| `Schema.KeyNamesAppend` | easySql.py:270 | the key filter keeps schema order across a concatenation |
| `Schema.FirstKeyName` | easySql.py:270-276 | the addressing key column is the first column with `pk > 0` |
| `Schema.SchemaMap` | easySql.py:955-959 | every schema column is reachable under its own name and nothing else is |
| `Database.DatabaseManager.UpdateCell` | easySql.py:278-300 | the engine gets `UPDATE t SET c = ? WHERE pk = ?` with the new and the key value; an integer outside the 64-bit range makes OverflowError escape with nothing run, logged or committed; otherwise the tables are what the engine left, success commits, logs and returns the display SQL, failure logs the same display SQL as failed and returns the message and that SQL, and the history INSERT leaves the log id one higher, `lastrowid` at that id and `rowcount` at 1 |
| `Statements.UpdateDisplayIsSubstitution` | easySql.py:282-289 | the logged UPDATE is the executed one with the new value quoted and the key value bare in place of the two `?` |
| `Database.DatabaseManager.InsertRow` | easySql.py:302-333 | a schema error returns its message and changes nothing; an integer outside the 64-bit range makes OverflowError escape; an engine error returns the message with the tables as the engine left them; none of these logs or commits anything; on success the engine got `INSERT INTO t (all columns) VALUES (?, ...)` with the given values, the display SQL is logged and returned, the log id is one higher, and the reported rowid is the id of the history row just written |
| `Database.DatabaseManager.InsertRowKeepingRowId` | easySql.py:302-333 | as `InsertRow`, failure paths and cursor state included, but the reported rowid is the one the engine gave the inserted row |
| `Database.RowIdAsWritten` | easySql.py:324-330 | for an INSERT the engine accepts, `insert_row` as written reports the id of the history row it writes next, one past the log's previous id |
| `Database.RowIdKept` | easySql.py:324-330 | with the rowid read before the history row is written, the reported rowid is the engine's id for the inserted row |
| `Database.InsertRowIdWitness` | easySql.py:324-330 | with an empty log and an engine that numbers the inserted row 7, the code as written reports rowid 1 and the corrected form reports 7 |
| `Statements.InsertPlaceholderCount` | easySql.py:310-315 | the executed INSERT has exactly one placeholder per schema column |
| `Statements.InsertDisplayIsSubstitution` | easySql.py:310-323 | the logged INSERT is the executed one with each `?` replaced in order by NULL or the quoted value |
| `Database.DatabaseManager.DeleteRow` | easySql.py:335-357 | the engine gets `DELETE FROM t WHERE pk = ?` with the key value; a key outside the 64-bit range makes OverflowError escape with nothing changed; otherwise the tables are what the engine left, success commits and logs, failure logs the same display SQL as failed, and the log id, `lastrowid` and `rowcount` are those of the history INSERT |
| `Statements.DeleteDisplayIsSubstitution` | easySql.py:339-347 | the logged DELETE is the executed one with the key value bare in place of the `?` |
| `Database.DatabaseManager.GetTableNames` | easySql.py:202-207 | a name is listed exactly when it is a table of the store that neither the `'sqlite_%'` pattern nor the bookkeeping list excludes; the history and lesson tables never appear |
| `Database.ListedNames` | easySql.py:202-207 | the filtered names are the catalog's names that pass the filter, no more than the catalog holds |
| `Database.LikePatternHidesUserNames` | easySql.py:205 | `sqlite_sequence`, `sqlite1` and `SQLiteData` are hidden; `students`, `sqlite` and `Query_History` are not |
| `Statements.SelectIgnoresTrailingSpace` | easySql.py:160 | the SELECT test depends on leading space and letter case only: trailing white space never changes it |
| `Coercion.ValidateValue` | easySql.py:900-926 | blank input is NULL, or `Column cannot be NULL` for a NOT NULL column; non-blank input to an INT column is accepted exactly when `int()` reads it (at most 4300 digits), to a REAL/FLOAT/DOUBLE column exactly when `float()` does, with the matching error texts; any other column keeps the text; an accepted value has the column's kind |
| `Coercion.CoerceShowRoundTrip` | easySql.py:900-926 | a coerced non-NULL value, shown with `str()` and typed back into the same column, is coerced to itself |
| `Coercion.IntegerShowRoundTrip` | easySql.py:910-915 | an integer the coercer produced, typed back as `str(n)` into the same column, gives `n` again |
| `Coercion.RealShowRoundTrip` | easySql.py:917-922 | a float the coercer produced, typed back as its `repr`, gives the same float when `float()` reads back its own `repr` |
| `Coercion.TextShowRoundTrip` | easySql.py:924-926 | a text the coercer produced, typed back unchanged, gives the same text |
| `Coercion.IntegerColumnAcceptsRendering` | easySql.py:911-915 | typing `str(n)` into an INT column stores `n` when `n` has at most 4300 digits, and is refused with `Invalid INTEGER value` otherwise |
| `Text.ParseIntRoundTrip` | easySql.py:913 | `int(str(n)) == n` for every integer of at most 4300 digits; past that limit `int()` refuses the text |
| `Text.ParsedIntFits` | easySql.py:913 | every integer `int()` returns is written back by `str()` in at most 4300 digits, so the round trip applies to it |
| `Text.DigitsValueBound` | easySql.py:913 | a run of k digits denotes a number below 10^k |
| `Text.RenderingLength` | easySql.py:913 | a number below 10^k is written with at most k digits |
| `Text.IntToStringStripped` | easySql.py:913 | `str(n)` has no surrounding white space, so `int()`'s stripping leaves it alone |
| `Text.NatToStringValue` | easySql.py:913 | the decimal digits of `n` denote `n` |
| `Grid.IndexOf` | easySql.py:950-953 | `list.index`: the first position holding the name, or none exactly when the name is absent |
| `Grid.TableModel.constructor` | easySql.py:803-812 | the grid holds the given rows and header, is bound to nothing and is read-only |
| `Grid.TableModel.Flags` | easySql.py:834-847 | every cell is enabled and selectable; a cell is editable exactly when the grid is bound and the cell is not the key column of an INTEGER PRIMARY KEY |
| `Grid.TableModel.Plan` | easySql.py:849-876 | nothing but an edit role on a bound grid with a changed text gets past the guards; a write carries the coerced value and the row's key value; a refusal carries the coercer's message exactly when the coercer refuses; past the guards, a missing key position is reported exactly when the key column is not among the grid's columns, and an accepted input is always written under the row's key |
| `Grid.TableModel.SetData` | easySql.py:849-898 | guards and refusals leave grid and store untouched; an unknown key position raises; an integer the store cannot bind makes OverflowError escape with grid and store unchanged; otherwise the store is asked first, its tables are what the engine left and its log id, `lastrowid` and `rowcount` are those of the history INSERT; the cell becomes the coerced value only after the store accepted, with no other cell changed and the display SQL emitted; a store error is emitted as `ERROR: ...` |
| `Grid.TableModel.UpdateData` | easySql.py:928-938 | the new rows and header replace the old ones and every trace of the table binding is cleared, leaving the grid read-only |
| `Grid.TableModel.SetEditable` | easySql.py:940-959 | the grid is bound to the store and table; a key read that succeeds sets the key column and its position among the grid's columns; a schema read that succeeds sets the validation schema; a failed read keeps the previous values |
| `Viewer.DefaultValue` | easySql.py:1449-1462 | NULL exactly for an INTEGER PRIMARY KEY or a nullable column without default; a declared default otherwise wins; zeros only for NOT NULL columns without default; for such a column other than the INTEGER PRIMARY KEY, a type containing INT gives 0, else one containing REAL or FLOAT gives 0.0, and any other type gives the empty text |
| `Viewer.DefaultRow` | easySql.py:1448-1462 | one default per schema column, in schema order, each of which the driver can bind |
| `Viewer.BuildDefaultRow` | easySql.py:1448-1462 | the loop collects exactly the default row |
| `Viewer.DefaultAgreesWithCoercer` | easySql.py:1455-1462 | for NOT NULL columns without default other than DOUBLE ones, the default has the kind the coercer gives that column |
| `Viewer.DoubleColumnGetsEmptyText` | easySql.py:1457-1462 | every NOT NULL column of type DOUBLE without default gets the empty text, although the coercer counts DOUBLE as real and would refuse text in it |
| `Viewer.AddTableRow` | easySql.py:1433-1475 | no table: nothing happens; a failed schema read is reported with the store unchanged; otherwise the engine gets exactly the default row, the tables are what it left, and only an accepted INSERT is committed and logged (log id one higher, `lastrowid` at the history row, `rowcount` 1) |
| `Scenarios.StudentSchemaReads` | easySql.py:244-276 | on the `students` table (easySql.py:44-50, first two sample rows easySql.py:104-105) the schema read finds the table, the key read gives `student_id` as the only key column, it sits first among the grid's columns, and `age` maps to its INTEGER column |
| `Scenarios.BoundGrid` | easySql.py:940-959 | `set_editable` on the grid of `SELECT * FROM students` binds it to the store with key `student_id` at position 0 and the schema keyed by column name, leaving rows and header as they were |
| `Scenarios.AgePlan` | easySql.py:849-876 | over an age 20 in the row keyed 1, a non-empty input other than `20` is planned as a write of the integer `int()` reads, or refused with `Invalid INTEGER value` when `int()` refuses it (more than 4300 digits included); whether SQLite can hold that integer is decided at the store (`Grid.TableModel.SetData`) |
| `Scenarios.AliceTurns21` | easySql.py:282-289 | the UPDATE with parameters 21 and 1 changes the age of student 1 and no other row |
| `Scenarios.EditAge` | easySql.py:849-898 | typing `21` over age 20 of student 1 shows and logs `UPDATE students SET age = '21' WHERE student_id = 1` as a success, the cell becomes the integer 21 and the stored table holds 21 for student 1 with student 2 unchanged |
| `Scenarios.EditAgeWithWords` | easySql.py:871-876 | typing `twenty` into the age column is refused with `ERROR: Invalid INTEGER value: 'twenty'`; the cell keeps 20, the stored table is unchanged and nothing is logged |
| `Scenarios.EditAgeTooWide` | easySql.py:849-898 | typing 2^63 (one past SQLite's largest INTEGER) over age 20 of student 1 passes the coercer, since `int()` reads it, but the driver cannot bind it: the OverflowError from `update_cell` (easySql.py:285) escapes `setData`, the cell keeps 20, the stored table is unchanged and nothing is logged |
| `Scenarios.WideIntegerParses` | easySql.py:913 | an integer past SQLite's range but below 10^19 is read back by `int()` from its own rendering and cannot be bound |
| `Scenarios.DefaultStudentRow` | easySql.py:1448-1462 | the default row of `students` is NULL for the key, the empty text for the NOT NULL `name`, and NULL for the three nullable columns |
| `Scenarios.DefaultStudentInsert` | easySql.py:310-323 | the INSERT "add row" logs for `students` is `INSERT INTO students (student_id, name, email, age, country) VALUES (NULL, '', NULL, NULL, NULL)` |
| `Scenarios.AddStudent` | easySql.py:1433-1471 | "add row" on `students` shows and logs that INSERT as a success, and the store then holds the two students followed by the new row `(3, '', NULL, NULL, NULL)` that SQLite numbered 3 |

## Left out

- The Qt user interface: windows, dialogs, message boxes, signals other than
  the text `setData` emits, `dataChanged`, `rowCount`, `columnCount`, `data`,
  `headerData`, the refresh after "add row", and the "delete row" button.
- `LanguageManager`, `LessonManager` and the lesson-progress helpers.
  They are not part of the editing core.
- `connect`, `initialize_database`, `_populate_sample_data`,
  `reset_database` and `get_table_data`. They set up or reread the file and
  hold no editing logic. The model starts from a given catalog and history.
- SQLite's own semantics: type affinity, constraint checks, the meaning of
  statements and placeholder binding all live in the engine parameter. So
  does a parameter count that does not match the placeholders, which SQLite
  refuses with an error.
- Python's `float()` and `repr` of floats. They are the `parseFloat` parameter.
  A float is identified by its `repr`. Likewise a bytes value (a BLOB) is
  identified by its `repr`; its escaping is not modelled.
- `Values.Show`: Python's `str()` raises ValueError for an integer of more
  than 4300 digits, while `Show` writes it out. No path of the model shows
  such an integer: the coercer yields at most 4300 digits, and every integer
  wider than 64 bits stops at the driver's OverflowError before any display
  text is built.
- The digit limit is taken at its default of 4300. A limit changed through
  `sys.set_int_max_str_digits` or the environment is not modelled.
- The cursor's `rowcount` after the read-only queries (schema, history and
  table-name reads). They are modelled as functions that leave it alone,
  where Python sets it to -1. No operation reads it before the next write
  sets it again.
- Unicode: `upper()`, `strip()` and `int()` are modelled on ASCII (ASCII
  letters, ASCII white space and separators, ASCII digits).
- The clock. `datetime.now().isoformat()` is the `now` parameter.
- A failure of the history INSERT itself. The model assumes the log table
  accepts every entry.
- Statements that touch `query_history` itself, such as `DELETE FROM
  query_history` typed into the console. The engine's result covers the user
  tables only, so in the model the log changes only through
  `_save_query_history`. The guarantees that the log only grows and that a
  limited read is a prefix of a full one rest on this.
- Commits are counted (`commits`), not interpreted as transactions.
  Concurrent access to the file is not modelled.
- `Grid.TableModel.constructor`: it requires every row to be as wide as the
  header. The source assumes this of the result sets it is given, and
  `data()` fails without it.
- `Grid.TableModel.SetData`: the row and column are required to lie inside
  the grid. Qt only calls `setData` for existing cells.

## Findings

| source | as written | input that shows it | evidently intended | confidence | as-written member | corrected member |
|---|---|---|---|---|---|---|
| easySql.py:167-169 | `execute_query` formats `cursor.rowcount` after `_save_query_history` has inserted into `query_history` on the same cursor, so the count is that of the history INSERT | `UPDATE students SET age = age + 1` on the two sample students: the message says `Rows affected: 1` | report the rows the user's statement changed, read before the history row is written | high; not executed | `Database.DatabaseManager.ExecuteQuery`, shown by `Scenarios.ExecuteQueryRowCountWitness` | `Database.DatabaseManager.ExecuteQueryKeepingRowCount` |
| easySql.py:324-330 | `insert_row` reads `cursor.lastrowid` after `_save_query_history` has inserted into `query_history` on the same cursor, so the reported rowid is the id of that history row | an empty log and an INSERT that SQLite numbers 7: the result says rowid 1 | report the rowid of the inserted row, read before the history row is written | high; not executed | `Database.DatabaseManager.InsertRow`, shown by `Database.InsertRowIdWitness` | `Database.DatabaseManager.InsertRowKeepingRowId` |

"Add row" ignores the reported rowid, so its behaviour is the same under both
forms. `Viewer.AddTableRow` uses the corrected one. The row count appears only
in the console's message; the model keeps both forms of `execute_query` side
by side.

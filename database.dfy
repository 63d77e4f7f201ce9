/** `DatabaseManager`: the store handle. It runs statements through the SQL
    engine, commits, records every statement it runs on behalf of the user in
    the history log, reads schemas, and builds and runs the single-row UPDATE,
    INSERT and DELETE statements of the table editor. */
module Database {
  import opened Wrappers
  import opened Text
  import opened Values
  import opened Schema
  import opened Statements
  import opened History

  datatype Table = Table(schema: seq<Column>, rows: seq<Row>)

  /** An entry of `sqlite_master`, in creation order. */
  datatype TableEntry = TableEntry(name: string, table: Table)

  type Catalog = seq<TableEntry>

  /** A statement as handed to `cursor.execute`: SQL text and bound parameters. */
  datatype Statement = Statement(sql: string, params: seq<Value>)

  /** What the SQL engine does with one statement: raise `sqlite3.Error` with
      its message, or run it, reporting the result description (column names,
      when the statement has a result set), the result rows, `rowcount` and
      the rowid of the row it inserted (if it inserted one). Either way it
      reports the tables afterwards: a statement that raises part-way keeps
      the rows it changed before the error (SQLite's FAIL conflict rule), and
      the connection goes on seeing them.
      For a statement with a parameter the driver cannot bind (see
      `Bindable`), `Raised` stands for a statement that does not prepare (an
      unknown table or column, a syntax error) and `Ran` for one that does;
      the driver then raises OverflowError before running it. */
  datatype Response =
    | Raised(message: string, after: Catalog)
    | Ran(description: Option<seq<string>>, rows: seq<Row>, rowcount: int, insertedRowId: Option<int>, after: Catalog)

  /** The SQL engine, which this model does not interpret. Every choice of
      engine is one way the store may answer. */
  type Engine = Statement -> Response

  /** The three answers of `execute_query`. */
  datatype QueryOutcome =
    | Rows(columns: seq<string>, rows: seq<Row>)
    | Affected(message: string)
    | Failed(error: string)

  /** The dictionaries `update_cell`, `insert_row` and `delete_row` return,
      or (`Escaped`) the exception that is not an `sqlite3.Error` and so
      propagates out of them instead. */
  datatype WriteResult =
    | Written(sql: string, message: string, rowid: Option<int>)
    | WriteFailed(error: string, failedSql: Option<string>)
    | Escaped(exception: string)

  /** SQLite's INTEGER is a 64-bit two's complement number. */
  const MinInteger := -0x8000_0000_0000_0000
  const MaxInteger := 0x7FFF_FFFF_FFFF_FFFF

  /** The driver can bind every parameter: each integer fits an INTEGER. */
  predicate Bindable(params: seq<Value>) {
    forall i :: 0 <= i < |params| && params[i].Int? ==> MinInteger <= params[i].i <= MaxInteger
  }

  /** `cursor.execute` raises OverflowError: the statement prepares, but one
      of its integer parameters does not fit. */
  predicate Overflows(stmt: Statement, engine: Engine) {
    engine(stmt).Ran? && !Bindable(stmt.params)
  }

  const BindOverflow := "Python int too large to convert to SQLite INTEGER"

  const CellUpdated := "Cell updated successfully"
  const RowInserted := "Row inserted successfully"
  const RowDeleted := "Row deleted successfully"

  function AffectedMessage(rowcount: int): string {
    "Query executed successfully. Rows affected: " + IntToString(rowcount)
  }

  /** SQLite resolves table names without regard to ASCII case. */
  predicate SameName(a: string, b: string) {
    Upper(a) == Upper(b)
  }

  /** The table `PRAGMA table_info(name)` describes, if any. */
  function Lookup(catalog: Catalog, name: string): (r: Option<Table>)
    ensures r.Some? <==> exists i :: 0 <= i < |catalog| && SameName(catalog[i].name, name)
    // the table found is the first one whose name matches
    ensures r.Some? ==> exists i :: && 0 <= i < |catalog| && SameName(catalog[i].name, name)
                                    && r.value == catalog[i].table
                                    && forall j :: 0 <= j < i ==> !SameName(catalog[j].name, name)
  {
    if catalog == [] then None
    else if SameName(catalog[0].name, name) then Some(catalog[0].table)
    else
      var r := Lookup(catalog[1..], name);
      assert forall i :: 1 <= i < |catalog| ==> catalog[i] == catalog[1..][i - 1];
      if r.Some? then
        var k :| && 0 <= k < |catalog[1..]| && SameName(catalog[1..][k].name, name)
                 && r.value == catalog[1..][k].table
                 && forall j :: 0 <= j < k ==> !SameName(catalog[1..][j].name, name);
        assert forall j :: 0 <= j < k + 1 ==> !SameName(catalog[j].name, name) by {
          forall j | 0 <= j < k + 1 ensures !SameName(catalog[j].name, name) {
            if j > 0 { assert catalog[j] == catalog[1..][j - 1]; }
          }
        }
        r
      else
        r
  }

  /** `name NOT LIKE 'sqlite_%'` fails: LIKE ignores ASCII case and its `_`
      matches any one character, so this is any name of seven or more
      characters whose first six spell "sqlite" in any case. */
  predicate LikeSqlitePattern(name: string) {
    |name| >= 7 && Upper(name[..6]) == "SQLITE"
  }

  /** The filter of `get_table_names`; `NOT IN` compares case-sensitively. */
  predicate IsListed(name: string) {
    !LikeSqlitePattern(name) && name != "lesson_progress" && name != "query_history"
  }

  function ListedNames(catalog: Catalog): (r: seq<string>)
    ensures |r| <= |catalog|
    ensures forall x :: x in r <==> IsListed(x) && exists i :: 0 <= i < |catalog| && catalog[i].name == x
  {
    if catalog == [] then []
    else
      var rest := ListedNames(catalog[1..]);
      assert forall i :: 1 <= i < |catalog| ==> catalog[i] == catalog[1..][i - 1];
      (if IsListed(catalog[0].name) then [catalog[0].name] else []) + rest
  }

  /** The pattern hides more than SQLite's own `sqlite_` tables: a user table
      called `sqlite1` or `SQLiteData` is not listed either. */
  lemma LikePatternHidesUserNames()
    ensures !IsListed("sqlite_sequence") && !IsListed("sqlite1") && !IsListed("SQLiteData")
    ensures IsListed("students") && IsListed("sqlite") && IsListed("Query_History")
  {
    assert "sqlite1"[..6] == "sqlite";
    assert "SQLiteData"[..6] == "SQLite";
    assert "sqlite_sequence"[..6] == "sqlite";
    assert "students"[..6] == "studen";
    assert "Query_History"[..6] == "Query_";
  }

  class DatabaseManager {
    /** The tables of the store, as `sqlite_master` lists them. */
    var catalog: Catalog
    /** The rows of `query_history`, in id order. */
    var history: seq<HistoryEntry>
    /** The AUTOINCREMENT counter of `query_history`: the id of its latest row. */
    var historySeq: int
    /** `cursor.lastrowid`: the rowid of the latest row an INSERT on the
        shared cursor added. */
    var lastRowId: Option<int>
    /** `cursor.rowcount`: the number of rows the latest statement on the
        shared cursor changed, -1 once a statement has raised. The read-only
        queries, modelled as functions, leave it alone here (Python resets
        it to -1); nothing reads it before the next write sets it again. */
    var rowCount: int
    /** How many times `conn.commit()` has been called. */
    var commits: nat

    /** A handle on a store whose tables and history already exist (what
        `connect` and `initialize_database` leave behind). */
    constructor (catalog: Catalog, history: seq<HistoryEntry>)
      ensures this.catalog == catalog && this.history == history
      ensures historySeq == |history| && lastRowId == None && rowCount == -1 && commits == 0
    {
      this.catalog := catalog;
      this.history := history;
      historySeq := |history|;
      lastRowId := None;
      rowCount := -1;
      commits := 0;
    }

    /** `_save_query_history`: insert one row into `query_history` on the
        shared cursor, then commit. */
    method SaveQueryHistory(query: string, success: bool, error: Option<string>, now: string)
      modifies this
      ensures history == old(history) + [HistoryEntry(query, now, success, error)]
      ensures historySeq == old(historySeq) + 1 && lastRowId == Some(historySeq)
      ensures rowCount == 1
      ensures catalog == old(catalog) && commits == old(commits) + 1
    {
      history := history + [HistoryEntry(query, now, success, error)];
      historySeq := historySeq + 1;
      lastRowId := Some(historySeq);
      rowCount := 1;
      commits := commits + 1;
    }

    /** What running `stmt` does to the tables and the cursor, once the
        engine has answered `resp`. */
    method Apply(resp: Response)
      requires resp.Ran?
      modifies this
      ensures catalog == resp.after
      ensures lastRowId == if resp.insertedRowId.Some? then resp.insertedRowId else old(lastRowId)
      ensures rowCount == resp.rowcount
      ensures history == old(history) && historySeq == old(historySeq) && commits == old(commits)
    {
      catalog := resp.after;
      rowCount := resp.rowcount;
      if resp.insertedRowId.Some? {
        lastRowId := resp.insertedRowId;
      }
    }

    /** What a statement that raised leaves behind: whatever it changed
        before the error, and a row count of -1. */
    method Fail(resp: Response)
      requires resp.Raised?
      modifies this
      ensures catalog == resp.after && rowCount == -1
      ensures history == old(history) && historySeq == old(historySeq) && lastRowId == old(lastRowId)
      ensures commits == old(commits)
    {
      catalog := resp.after;
      rowCount := -1;
    }

    /** `execute_query`: run a free-form statement. A statement that looks
        like a SELECT and has a result description returns its columns and
        rows without a commit of its own; any other statement is committed and
        reports a row count; an engine error is returned verbatim, and what
        the statement changed before it is committed with the history row.
        Every path records exactly one history entry. The row count is read
        from the shared cursor after the history row has been inserted, so it
        is the count of that INSERT: always 1. */
    method ExecuteQuery(query: string, engine: Engine, now: string) returns (out: QueryOutcome)
      modifies this
      ensures catalog == engine(Statement(query, [])).after
      ensures var resp := engine(Statement(query, []));
        resp.Raised? ==>
          && out == Failed(resp.message)
          && history == old(history) + [HistoryEntry(query, now, false, Some(resp.message))]
          && commits == old(commits) + 1
      ensures var resp := engine(Statement(query, []));
        resp.Ran? ==>
          && history == old(history) + [HistoryEntry(query, now, true, None)]
          && (IsRowReturning(query, resp.description.Some?) ==>
                out == Rows(resp.description.value, resp.rows) && commits == old(commits) + 1)
          && (!IsRowReturning(query, resp.description.Some?) ==>
                out == Affected(AffectedMessage(1)) && commits == old(commits) + 2)
      // the history INSERT is the last statement on the cursor
      ensures historySeq == old(historySeq) + 1 && lastRowId == Some(historySeq) && rowCount == 1
      ensures |history| == |old(history)| + 1 && history[..|old(history)|] == old(history)
      ensures history[|old(history)|].success <==> !out.Failed?
    {
      var resp := engine(Statement(query, []));
      if resp.Raised? {
        Fail(resp);
        SaveQueryHistory(query, false, Some(resp.message), now);
        out := Failed(resp.message);
      } else {
        Apply(resp);
        if IsRowReturning(query, resp.description.Some?) {
          SaveQueryHistory(query, true, None, now);
          out := Rows(resp.description.value, resp.rows);
        } else {
          commits := commits + 1;
          SaveQueryHistory(query, true, None, now);
          out := Affected(AffectedMessage(rowCount));
        }
      }
    }

    /** `execute_query` with the row count read right after the statement ran,
        before the history row is written: the message reports the rows the
        statement itself changed. Otherwise the same as `ExecuteQuery`. */
    method ExecuteQueryKeepingRowCount(query: string, engine: Engine, now: string) returns (out: QueryOutcome)
      modifies this
      ensures catalog == engine(Statement(query, [])).after
      ensures var resp := engine(Statement(query, []));
        resp.Raised? ==>
          && out == Failed(resp.message)
          && history == old(history) + [HistoryEntry(query, now, false, Some(resp.message))]
          && commits == old(commits) + 1
      ensures var resp := engine(Statement(query, []));
        resp.Ran? ==>
          && history == old(history) + [HistoryEntry(query, now, true, None)]
          && (IsRowReturning(query, resp.description.Some?) ==>
                out == Rows(resp.description.value, resp.rows) && commits == old(commits) + 1)
          && (!IsRowReturning(query, resp.description.Some?) ==>
                out == Affected(AffectedMessage(resp.rowcount)) && commits == old(commits) + 2)
      ensures historySeq == old(historySeq) + 1 && lastRowId == Some(historySeq) && rowCount == 1
      ensures |history| == |old(history)| + 1 && history[..|old(history)|] == old(history)
      ensures history[|old(history)|].success <==> !out.Failed?
    {
      var resp := engine(Statement(query, []));
      if resp.Raised? {
        Fail(resp);
        SaveQueryHistory(query, false, Some(resp.message), now);
        out := Failed(resp.message);
      } else {
        Apply(resp);
        if IsRowReturning(query, resp.description.Some?) {
          SaveQueryHistory(query, true, None, now);
          out := Rows(resp.description.value, resp.rows);
        } else {
          commits := commits + 1;
          var count := rowCount;
          SaveQueryHistory(query, true, None, now);
          out := Affected(AffectedMessage(count));
        }
      }
    }

    /** `get_query_history`: the latest `limit` entries (50 unless the caller
        says otherwise), newest first. */
    function GetQueryHistory(limit: int := 50): (r: seq<HistoryEntry>)
      reads this
      ensures |r| == if 0 <= limit < |history| then limit else |history|
      ensures forall i :: 0 <= i < |r| ==> r[i] == history[|history| - 1 - i]
    {
      Newest(history, limit)
    }

    /** `get_table_schema`: the columns of the named table. `fault` is the
        error the PRAGMA raises, if any; a name that is not a table gives an
        empty column list, not an error. */
    function GetTableSchema(name: string, fault: Option<string>): (r: Result<seq<Column>, string>)
      reads this
      ensures fault.Some? <==> r.Err?
      ensures fault.Some? ==> r.error == fault.value
      ensures fault.None? && Lookup(catalog, name).None? ==> r == Ok([])
      ensures fault.None? && Lookup(catalog, name).Some? ==> r == Ok(Lookup(catalog, name).value.schema)
    {
      if fault.Some? then Err(fault.value)
      else
        match Lookup(catalog, name)
        case Some(t) => Ok(t.schema)
        case None => Ok([])
    }

    /** `get_primary_key`: a schema error is passed on; otherwise the key
        columns of the table. A missing table has no columns and so reports
        'No primary key found'. */
    function GetPrimaryKey(name: string, fault: Option<string>): (r: Result<PrimaryKeyInfo, string>)
      reads this
      ensures fault.Some? ==> r == Err(fault.value)
      ensures fault.None? && Lookup(catalog, name).None? ==> r == Err(NoPrimaryKey)
      ensures fault.None? && Lookup(catalog, name).Some? ==> r == PrimaryKey(Lookup(catalog, name).value.schema)
      ensures r.Ok? ==> Lookup(catalog, name).Some? && |r.value.pkColumns| > 0 && r.value.pkColumn == r.value.pkColumns[0]
      ensures r.Ok? ==> r.value.pkColumns == KeyNames(Lookup(catalog, name).value.schema)
    {
      match GetTableSchema(name, fault)
      case Err(e) => Err(e)
      case Ok(schema) => PrimaryKey(schema)
    }

    /** `update_cell`: run `UPDATE t SET c = ? WHERE pk = ?` with the new
        value and the key value, commit, and log the display form. The same
        display text is logged and returned whether the engine accepts the
        statement or raises. A value too wide for an INTEGER makes the driver
        raise OverflowError, which escapes with nothing run or logged. */
    method UpdateCell(table: string, pkColumn: string, pkValue: Value, column: string, newValue: Value,
                      engine: Engine, now: string) returns (r: WriteResult)
      modifies this
      ensures var stmt := Statement(UpdateSql(table, column, pkColumn), [newValue, pkValue]);
        Overflows(stmt, engine) ==>
          && r == Escaped(BindOverflow) && rowCount == -1
          && catalog == old(catalog) && history == old(history) && commits == old(commits)
          && historySeq == old(historySeq) && lastRowId == old(lastRowId)
      ensures var stmt := Statement(UpdateSql(table, column, pkColumn), [newValue, pkValue]);
              var resp := engine(stmt);
              var display := UpdateDisplay(table, column, pkColumn, newValue, pkValue);
        !Overflows(stmt, engine) ==>
          && catalog == resp.after
          && historySeq == old(historySeq) + 1 && lastRowId == Some(historySeq) && rowCount == 1
          && (resp.Raised? ==>
                && r == WriteFailed(resp.message, Some(display)) && commits == old(commits) + 1
                && history == old(history) + [HistoryEntry(display, now, false, Some(resp.message))])
          && (resp.Ran? ==>
                && r == Written(display, CellUpdated, None) && commits == old(commits) + 2
                && history == old(history) + [HistoryEntry(display, now, true, None)])
    {
      var stmt := Statement(UpdateSql(table, column, pkColumn), [newValue, pkValue]);
      var resp := engine(stmt);
      if Overflows(stmt, engine) {
        rowCount := -1;
        return Escaped(BindOverflow);
      }
      var display := UpdateDisplay(table, column, pkColumn, newValue, pkValue);
      if resp.Raised? {
        Fail(resp);
        SaveQueryHistory(display, false, Some(resp.message), now);
        r := WriteFailed(resp.message, Some(display));
      } else {
        Apply(resp);
        commits := commits + 1;
        SaveQueryHistory(display, true, None, now);
        r := Written(display, CellUpdated, None);
      }
    }

    /** `insert_row` as written: read the schema, run
        `INSERT INTO t (c1, ..., cn) VALUES (?, ..., ?)` over every schema
        column, commit and log the display form. A schema error, an engine
        error or a value too wide for an INTEGER is reported with nothing
        logged or committed. The reported rowid is read from the shared
        cursor after the history row has been inserted, so it is the id of
        that history row. */
    method InsertRow(table: string, values: seq<Value>, schemaFault: Option<string>,
                     engine: Engine, now: string) returns (r: WriteResult)
      modifies this
      ensures old(GetTableSchema(table, schemaFault)).Err? ==>
                r == WriteFailed(old(GetTableSchema(table, schemaFault)).error, None) && unchanged(this)
      ensures old(GetTableSchema(table, schemaFault)).Ok? ==>
                var columns := Names(old(GetTableSchema(table, schemaFault)).value);
                var stmt := Statement(InsertSql(table, columns), values);
                var resp := engine(stmt);
                && (Overflows(stmt, engine) ==> r == Escaped(BindOverflow) && catalog == old(catalog) && rowCount == -1)
                && (resp.Raised? ==> r == WriteFailed(resp.message, None) && catalog == resp.after && rowCount == -1)
                && (resp.Ran? && !Overflows(stmt, engine) ==>
                      && r == Written(InsertDisplay(table, columns, values), RowInserted, Some(historySeq))
                      && catalog == resp.after && commits == old(commits) + 2
                      && history == old(history) + [HistoryEntry(InsertDisplay(table, columns, values), now, true, None)]
                      && historySeq == old(historySeq) + 1 && lastRowId == Some(historySeq) && rowCount == 1)
      // a failed insert writes no history row and commits nothing
      ensures !r.Written? ==>
                && history == old(history) && historySeq == old(historySeq)
                && lastRowId == old(lastRowId) && commits == old(commits)
    {
      var schema := GetTableSchema(table, schemaFault);
      if schema.Err? {
        return WriteFailed(schema.error, None);
      }
      var columns := Names(schema.value);
      var stmt := Statement(InsertSql(table, columns), values);
      var resp := engine(stmt);
      if Overflows(stmt, engine) {
        rowCount := -1;
        return Escaped(BindOverflow);
      }
      if resp.Raised? {
        Fail(resp);
        return WriteFailed(resp.message, None);
      }
      Apply(resp);
      commits := commits + 1;
      var display := InsertDisplay(table, columns, values);
      SaveQueryHistory(display, true, None, now);
      r := Written(display, RowInserted, lastRowId);
    }

    /** `insert_row` with the rowid read right after the INSERT, before the
        history row is written: the reported rowid is the engine's id for the
        inserted row. Otherwise the same as `InsertRow`. */
    method InsertRowKeepingRowId(table: string, values: seq<Value>, schemaFault: Option<string>,
                                 engine: Engine, now: string) returns (r: WriteResult)
      modifies this
      ensures old(GetTableSchema(table, schemaFault)).Err? ==>
                r == WriteFailed(old(GetTableSchema(table, schemaFault)).error, None) && unchanged(this)
      ensures old(GetTableSchema(table, schemaFault)).Ok? ==>
                var columns := Names(old(GetTableSchema(table, schemaFault)).value);
                var stmt := Statement(InsertSql(table, columns), values);
                var resp := engine(stmt);
                && (Overflows(stmt, engine) ==> r == Escaped(BindOverflow) && catalog == old(catalog) && rowCount == -1)
                && (resp.Raised? ==> r == WriteFailed(resp.message, None) && catalog == resp.after && rowCount == -1)
                && (resp.Ran? && !Overflows(stmt, engine) ==>
                      && r == Written(InsertDisplay(table, columns, values), RowInserted,
                                      if resp.insertedRowId.Some? then resp.insertedRowId else old(lastRowId))
                      && catalog == resp.after && commits == old(commits) + 2
                      && history == old(history) + [HistoryEntry(InsertDisplay(table, columns, values), now, true, None)]
                      && historySeq == old(historySeq) + 1 && lastRowId == Some(historySeq) && rowCount == 1)
      ensures !r.Written? ==>
                && history == old(history) && historySeq == old(historySeq)
                && lastRowId == old(lastRowId) && commits == old(commits)
    {
      var schema := GetTableSchema(table, schemaFault);
      if schema.Err? {
        return WriteFailed(schema.error, None);
      }
      var columns := Names(schema.value);
      var stmt := Statement(InsertSql(table, columns), values);
      var resp := engine(stmt);
      if Overflows(stmt, engine) {
        rowCount := -1;
        return Escaped(BindOverflow);
      }
      if resp.Raised? {
        Fail(resp);
        return WriteFailed(resp.message, None);
      }
      Apply(resp);
      commits := commits + 1;
      var rowid := lastRowId;
      var display := InsertDisplay(table, columns, values);
      SaveQueryHistory(display, true, None, now);
      r := Written(display, RowInserted, rowid);
    }

    /** `delete_row`: run `DELETE FROM t WHERE pk = ?`, commit, and log the
        display form; as with `update_cell`, the same display text is logged
        and returned on success and on failure, and a key too wide for an
        INTEGER makes OverflowError escape. */
    method DeleteRow(table: string, pkColumn: string, pkValue: Value, engine: Engine, now: string) returns (r: WriteResult)
      modifies this
      ensures var stmt := Statement(DeleteSql(table, pkColumn), [pkValue]);
        Overflows(stmt, engine) ==>
          && r == Escaped(BindOverflow) && rowCount == -1
          && catalog == old(catalog) && history == old(history) && commits == old(commits)
          && historySeq == old(historySeq) && lastRowId == old(lastRowId)
      ensures var stmt := Statement(DeleteSql(table, pkColumn), [pkValue]);
              var resp := engine(stmt);
              var display := DeleteDisplay(table, pkColumn, pkValue);
        !Overflows(stmt, engine) ==>
          && catalog == resp.after
          && historySeq == old(historySeq) + 1 && lastRowId == Some(historySeq) && rowCount == 1
          && (resp.Raised? ==>
                && r == WriteFailed(resp.message, Some(display)) && commits == old(commits) + 1
                && history == old(history) + [HistoryEntry(display, now, false, Some(resp.message))])
          && (resp.Ran? ==>
                && r == Written(display, RowDeleted, None) && commits == old(commits) + 2
                && history == old(history) + [HistoryEntry(display, now, true, None)])
    {
      var stmt := Statement(DeleteSql(table, pkColumn), [pkValue]);
      var resp := engine(stmt);
      if Overflows(stmt, engine) {
        rowCount := -1;
        return Escaped(BindOverflow);
      }
      var display := DeleteDisplay(table, pkColumn, pkValue);
      if resp.Raised? {
        Fail(resp);
        SaveQueryHistory(display, false, Some(resp.message), now);
        r := WriteFailed(resp.message, Some(display));
      } else {
        Apply(resp);
        commits := commits + 1;
        SaveQueryHistory(display, true, None, now);
        r := Written(display, RowDeleted, None);
      }
    }

    /** `get_table_names`: the tables of the store in creation order, without
        the bookkeeping tables and without names the `'sqlite_%'` pattern
        matches. */
    function GetTableNames(): (r: seq<string>)
      reads this
      ensures forall x :: x in r <==> IsListed(x) && exists i :: 0 <= i < |catalog| && catalog[i].name == x
      ensures "query_history" !in r && "lesson_progress" !in r
    {
      ListedNames(catalog)
    }
  }

  /** A store with one table, `items`, keyed by an INTEGER PRIMARY KEY. */
  const ItemsCatalog := [TableEntry("items", Table([Column(0, "id", "INTEGER", false, None, 1)], []))]

  lemma ItemsSchema(db: DatabaseManager)
    requires db.catalog == ItemsCatalog
    ensures db.GetTableSchema("items", None).Ok?
  {
    assert SameName(ItemsCatalog[0].name, "items");
  }

  /** An engine that accepts every statement, numbering the inserted row 7. */
  const NumbersRowSeven: Engine := (s: Statement) => Ran(None, [], 1, Some(7), ItemsCatalog)

  /** The rowid `insert_row` as written reports for an INSERT the engine
      accepts: the id of the history row written after it. */
  method RowIdAsWritten(db: DatabaseManager, table: string, values: seq<Value>, engine: Engine, now: string)
    returns (rowid: Option<int>)
    requires db.GetTableSchema(table, None).Ok? && Bindable(values) && forall s :: engine(s).Ran?
    modifies db
    ensures rowid == Some(old(db.historySeq) + 1)
  {
    var r := db.InsertRow(table, values, None, engine, now);
    rowid := r.rowid;
  }

  /** The rowid `insert_row` reports when it is read before the history row
      is written: the engine's id for the inserted row. */
  method RowIdKept(db: DatabaseManager, table: string, values: seq<Value>, engine: Engine, now: string)
    returns (rowid: Option<int>)
    requires db.GetTableSchema(table, None).Ok? && Bindable(values)
    requires forall s :: engine(s).Ran? && engine(s).insertedRowId.Some?
    modifies db
    ensures rowid == engine(Statement(InsertSql(table, Names(old(db.GetTableSchema(table, None)).value)), values)).insertedRowId
  {
    var r := db.InsertRowKeepingRowId(table, values, None, engine, now);
    rowid := r.rowid;
  }

  /** The rowid `insert_row` reports, on a store with an empty history and an
      engine that numbers the inserted row 7: the code as written reports 1,
      the id its own history row received; reading the rowid before the
      history row is written reports 7. */
  method InsertRowIdWitness() returns (asWritten: Option<int>, corrected: Option<int>, engineRowId: Option<int>)
    ensures engineRowId == Some(7)
    ensures asWritten == Some(1) && corrected == engineRowId
  {
    var first := new DatabaseManager(ItemsCatalog, []);
    ItemsSchema(first);
    assert first.historySeq == 0;
    asWritten := RowIdAsWritten(first, "items", [Null], NumbersRowSeven, "2024-01-01T00:00:00");
    assert asWritten == Some(1);
    var second := new DatabaseManager(ItemsCatalog, []);
    ItemsSchema(second);
    corrected := RowIdKept(second, "items", [Null], NumbersRowSeven, "2024-01-01T00:00:00");
    engineRowId := corrected;
  }
}

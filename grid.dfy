/** `TableModel`: the grid behind the table viewer. It holds a snapshot of a
    result set, may be bound to a table so that its cells can be edited, and
    applies an edit to its own rows only after the store has accepted the
    matching UPDATE. */
module Grid {
  import opened Wrappers
  import opened Values
  import opened Schema
  import opened Coercion
  import opened Statements
  import opened History
  import opened Database

  datatype ItemFlag = ItemIsEnabled | ItemIsSelectable | ItemIsEditable

  /** The item data roles `setData` distinguishes. */
  datatype Role = DisplayRole | EditRole

  /** What `setData` does, seen from its caller: it returns False and emits
      nothing (`Ignored`), returns False after emitting an error text
      (`Rejected`), returns True after emitting the display SQL (`Applied`), or
      lets a Python exception escape (`Crashed`). */
  datatype EditOutcome =
    | Ignored
    | Rejected(signal: string)
    | Applied(signal: string)
    | Crashed(exception: string)

  /** The decision `setData` takes before it reaches the store. */
  datatype EditPlan =
    | Skip                                  // not an edit, grid not editable, or nothing changed
    | NoKeyIndex                            // the key column is not among the grid's columns
    | Invalid(error: string)                // the coercer refused the input
    | Write(pkValue: Value, newValue: Value)

  const NoKeyIndexError := "list indices must be integers or slices, not NoneType"

  /** `str(value)` for what the editor hands over: a string, or None. */
  function ShowInput(input: Option<string>): string {
    if input.Some? then input.value else "None"
  }

  /** `self._schema.get(name, {})`. */
  function SchemaEntry(schema: map<string, Column>, name: string): Option<Column> {
    if name in schema then Some(schema[name]) else None
  }

  /** `xs.index(x)`, with None for the ValueError. */
  function IndexOf(xs: seq<string>, x: string): (r: Option<nat>)
    ensures r.None? <==> x !in xs
    ensures r.Some? ==> r.value < |xs| && xs[r.value] == x && forall j :: 0 <= j < r.value ==> xs[j] != x
  {
    if xs == [] then None
    else if xs[0] == x then Some(0)
    else
      match IndexOf(xs[1..], x)
      case None => None
      case Some(k) =>
        assert forall j :: 1 <= j < k + 1 ==> xs[j] == xs[1..][j - 1];
        Some(k + 1)
  }

  class TableModel {
    var data: seq<Row>
    var columns: seq<string>
    var db: DatabaseManager?
    var tableName: Option<string>
    var pkColumn: Option<string>
    var pkIndex: Option<nat>
    /** The table's columns keyed by name, for validation. */
    var schema: map<string, Column>

    /** Every row is as wide as the header, and a known key index points at
        the key column. */
    ghost predicate Valid()
      reads this
    {
      && (forall i :: 0 <= i < |data| ==> |data[i]| == |columns|)
      && (pkIndex.Some? ==> pkColumn.Some? && pkIndex.value < |columns| && columns[pkIndex.value] == pkColumn.value)
    }

    /** `self._db and self._table_name and self._pk_column is not None`. */
    predicate Editable()
      reads this
    {
      db != null && tableName.Some? && tableName.value != "" && pkColumn.Some?
    }

    /** The key column is an INTEGER PRIMARY KEY, which SQLite numbers itself. */
    predicate KeyIsAutoIncrement()
      reads this
    {
      pkColumn.Some? && pkColumn.value in schema && IsAutoKey(schema[pkColumn.value])
    }

    constructor (data: seq<Row>, columns: seq<string>, db: DatabaseManager?, tableName: Option<string>)
      requires forall i :: 0 <= i < |data| ==> |data[i]| == |columns|
      ensures Valid()
      ensures this.data == data && this.columns == columns && this.db == db && this.tableName == tableName
      ensures pkColumn == None && pkIndex == None && schema == map[]
      ensures !Editable()
    {
      this.data := data;
      this.columns := columns;
      this.db := db;
      this.tableName := tableName;
      pkColumn := None;
      pkIndex := None;
      schema := map[];
    }

    /** `flags`: every cell of an editable grid is editable except the key
        column of an INTEGER PRIMARY KEY table; a grid that is not editable
        is read-only throughout. */
    function Flags(column: int): (r: set<ItemFlag>)
      reads this
      ensures ItemIsEnabled in r && ItemIsSelectable in r
      ensures ItemIsEditable in r <==> Editable() && !(pkIndex.Some? && pkIndex.value == column && KeyIsAutoIncrement())
      ensures !Editable() ==> r == {ItemIsEnabled, ItemIsSelectable}
    {
      if Editable() then
        if pkIndex.Some? && pkIndex.value == column && KeyIsAutoIncrement() then
          {ItemIsEnabled, ItemIsSelectable}
        else
          {ItemIsEditable, ItemIsEnabled, ItemIsSelectable}
      else
        {ItemIsEnabled, ItemIsSelectable}
    }

    /** What `setData` decides for an edit of cell (row, column), before the
        store is involved. */
    function Plan(row: nat, column: nat, input: Option<string>, role: Role, parseFloat: FloatParser): (p: EditPlan)
      reads this
      requires Valid() && row < |data| && column < |columns|
      // nothing but a real edit of an editable grid gets past the guards
      ensures role != EditRole || !Editable() ==> p == Skip
      ensures ShowInput(input) == Show(data[row][column]) ==> p == Skip
      // a write carries the coerced value and the row's key value
      ensures p.Write? ==>
                && role == EditRole && Editable() && pkIndex.Some?
                && ShowInput(input) != Show(data[row][column])
                && ValidateValue(input, SchemaEntry(schema, columns[column]), parseFloat) == Ok(p.newValue)
                && p.pkValue == data[row][pkIndex.value]
      // a refused input is reported with the coercer's own message
      ensures p.Invalid? <==>
                && role == EditRole && Editable() && pkIndex.Some?
                && ShowInput(input) != Show(data[row][column])
                && ValidateValue(input, SchemaEntry(schema, columns[column]), parseFloat).Err?
      ensures p.Invalid? ==> ValidateValue(input, SchemaEntry(schema, columns[column]), parseFloat) == Err(p.error)
      // past the guards, a missing key index is fatal whatever the input
      ensures role == EditRole && Editable() && ShowInput(input) != Show(data[row][column]) ==>
                (p == NoKeyIndex <==> pkIndex.None?)
      // and an input the coercer accepts becomes a write under the row's key
      ensures role == EditRole && Editable() && ShowInput(input) != Show(data[row][column])
              && pkIndex.Some? && ValidateValue(input, SchemaEntry(schema, columns[column]), parseFloat).Ok? ==>
                p == Write(data[row][pkIndex.value], ValidateValue(input, SchemaEntry(schema, columns[column]), parseFloat).value)
    {
      if role != EditRole || !Editable() then Skip
      else if Show(data[row][column]) == ShowInput(input) then Skip
      else if pkIndex.None? then NoKeyIndex
      else
        match ValidateValue(input, SchemaEntry(schema, columns[column]), parseFloat)
        case Err(e) => Invalid(e)
        case Ok(v) => Write(data[row][pkIndex.value], v)
    }

    /** `setData`: edit one cell. The store is asked first; the grid's cell
        changes only after the store has accepted the UPDATE, and then to the
        coerced value, with no other cell touched. When the plan stops short
        of the store, neither the grid nor the store changes. An integer that
        `int()` accepts but SQLite cannot hold makes the driver's
        OverflowError escape from `setData`. */
    method SetData(row: nat, column: nat, input: Option<string>, role: Role,
                   parseFloat: FloatParser, engine: Engine, now: string) returns (out: EditOutcome)
      requires Valid() && row < |data| && column < |columns|
      modifies this, db
      ensures Valid()
      ensures db == old(db) && columns == old(columns) && tableName == old(tableName)
      ensures pkColumn == old(pkColumn) && pkIndex == old(pkIndex) && schema == old(schema)
      ensures old(Plan(row, column, input, role, parseFloat)) == Skip ==>
                out == Ignored && data == old(data) && (db != null ==> unchanged(db))
      ensures old(Plan(row, column, input, role, parseFloat)) == NoKeyIndex ==>
                out == Crashed(NoKeyIndexError) && data == old(data) && (db != null ==> unchanged(db))
      ensures old(Plan(row, column, input, role, parseFloat)).Invalid? ==>
                && out == Rejected("ERROR: " + old(Plan(row, column, input, role, parseFloat)).error)
                && data == old(data) && (db != null ==> unchanged(db))
      ensures old(Plan(row, column, input, role, parseFloat)).Write? ==>
                var p := old(Plan(row, column, input, role, parseFloat));
                var stmt := Statement(UpdateSql(tableName.value, columns[column], pkColumn.value), [p.newValue, p.pkValue]);
                var display := UpdateDisplay(tableName.value, columns[column], pkColumn.value, p.newValue, p.pkValue);
                && db != null
                // a value too wide for an INTEGER: OverflowError escapes, nothing is run or logged
                && (Overflows(stmt, engine) ==>
                      && out == Crashed(BindOverflow) && data == old(data)
                      && db.catalog == old(db.catalog) && db.history == old(db.history) && db.commits == old(db.commits)
                      && db.historySeq == old(db.historySeq) && db.lastRowId == old(db.lastRowId) && db.rowCount == -1)
                // otherwise the UPDATE runs and is logged, and the history row is the cursor's last statement
                && (!Overflows(stmt, engine) ==>
                      && db.catalog == engine(stmt).after
                      && db.historySeq == old(db.historySeq) + 1 && db.lastRowId == Some(db.historySeq) && db.rowCount == 1)
                && (engine(stmt).Raised? ==>
                      && out == Rejected("ERROR: " + engine(stmt).message)
                      && data == old(data) && db.commits == old(db.commits) + 1
                      && db.history == old(db.history) + [HistoryEntry(display, now, false, Some(engine(stmt).message))])
                && (engine(stmt).Ran? && !Overflows(stmt, engine) ==>
                      && out == Applied(display)
                      && data == old(data)[row := old(data)[row][column := p.newValue]]
                      && db.commits == old(db.commits) + 2
                      && db.history == old(db.history) + [HistoryEntry(display, now, true, None)])
      // the store-first rule, in one line: memory moves only with an accepted write
      ensures data != old(data) ==> out.Applied? && db != null && db.history[|db.history| - 1].success
      ensures forall i, j :: 0 <= i < |data| && 0 <= j < |columns| && (i != row || j != column) ==> data[i][j] == old(data)[i][j]
    {
      var plan := Plan(row, column, input, role, parseFloat);
      match plan
      case Skip =>
        out := Ignored;
      case NoKeyIndex =>
        out := Crashed(NoKeyIndexError);
      case Invalid(e) =>
        out := Rejected("ERROR: " + e);
      case Write(pkValue, newValue) =>
        var result := db.UpdateCell(tableName.value, pkColumn.value, pkValue, columns[column], newValue, engine, now);
        if result.Written? {
          data := data[row := data[row][column := newValue]];
          out := Applied(result.sql);
        } else if result.Escaped? {
          out := Crashed(result.exception);
        } else {
          out := Rejected("ERROR: " + result.error);
        }
    }

    /** `update_data`: show a fresh result set read-only; every trace of the
        previous binding is dropped. */
    method UpdateData(data: seq<Row>, columns: seq<string>)
      requires forall i :: 0 <= i < |data| ==> |data[i]| == |columns|
      modifies this
      ensures Valid() && !Editable()
      ensures this.data == data && this.columns == columns && db == old(db)
      ensures tableName == None && pkColumn == None && pkIndex == None && schema == map[]
    {
      this.data := data;
      this.columns := columns;
      tableName := None;
      pkColumn := None;
      pkIndex := None;
      schema := map[];
    }

    /** `set_editable`: bind the grid to a table. The key column and its
        position among the grid's columns come from `get_primary_key`, the
        validation schema from `get_table_schema`; when either read fails the
        corresponding fields keep their previous values. */
    method SetEditable(db: DatabaseManager, tableName: string, pkFault: Option<string>, schemaFault: Option<string>)
      requires Valid()
      modifies this
      ensures Valid()
      ensures this.db == db && this.tableName == Some(tableName)
      ensures data == old(data) && columns == old(columns)
      ensures db.GetPrimaryKey(tableName, pkFault).Ok? ==>
                var key := db.GetPrimaryKey(tableName, pkFault).value.pkColumn;
                pkColumn == Some(key) && pkIndex == IndexOf(columns, key)
      ensures db.GetPrimaryKey(tableName, pkFault).Err? ==> pkColumn == old(pkColumn) && pkIndex == old(pkIndex)
      ensures db.GetTableSchema(tableName, schemaFault).Ok? ==> schema == SchemaMap(db.GetTableSchema(tableName, schemaFault).value)
      ensures db.GetTableSchema(tableName, schemaFault).Err? ==> schema == old(schema)
      ensures Editable() <==> tableName != "" && (db.GetPrimaryKey(tableName, pkFault).Ok? || old(pkColumn).Some?)
    {
      var pk := db.GetPrimaryKey(tableName, pkFault);
      var s := db.GetTableSchema(tableName, schemaFault);
      this.db := db;
      this.tableName := Some(tableName);
      if pk.Ok? {
        BindKey(pk.value.pkColumn);
      }
      if s.Ok? {
        BindSchema(s.value);
      }
      assert db.GetPrimaryKey(tableName, pkFault) == pk && db.GetTableSchema(tableName, schemaFault) == s;
    }

    /** The schema half of `set_editable`: index the table's columns by name. */
    method BindSchema(columnsInfo: seq<Column>)
      requires Valid()
      modifies this
      ensures Valid()
      ensures schema == SchemaMap(columnsInfo)
      ensures data == old(data) && columns == old(columns) && db == old(db)
      ensures tableName == old(tableName) && pkColumn == old(pkColumn) && pkIndex == old(pkIndex)
    {
      schema := SchemaMap(columnsInfo);
    }

    /** The key half of `set_editable`: remember the key column and where it
        sits among the grid's columns, if it does. */
    method BindKey(key: string)
      requires Valid()
      modifies this
      ensures Valid()
      ensures pkColumn == Some(key) && pkIndex == IndexOf(columns, key)
      ensures data == old(data) && columns == old(columns) && db == old(db)
      ensures tableName == old(tableName) && schema == old(schema)
    {
      pkColumn := Some(key);
      pkIndex := IndexOf(columns, key);
    }
  }
}

/** The table viewer's "add row" action: build one default value per column
    from the table's schema and hand the row to `insert_row`. */
module Viewer {
  import opened Wrappers
  import opened Text
  import opened Values
  import opened Schema
  import opened Coercion
  import opened Statements
  import opened History
  import opened Database

  /** The value a new row gets in column `col`: NULL for an INTEGER PRIMARY
      KEY (SQLite numbers it) and for a nullable column without a default,
      the declared default as text, and otherwise a zero of the column's
      kind. */
  function DefaultValue(col: Column): (r: Value)
    // NULL exactly where the table accepts it without a NOT NULL failure
    ensures r == Null <==> IsAutoKey(col) || (col.dflt.None? && !col.notNull)
    // a declared default wins over the type, except on the auto-numbered key
    ensures !IsAutoKey(col) && col.dflt.Some? ==> r == Text(col.dflt.value)
    // the zero values appear only for NOT NULL columns without a default
    ensures r.Int? || r.Real? ==> col.notNull && col.dflt.None? && !IsAutoKey(col)
    ensures r.Int? ==> r == Int(0) && IsIntegerType(Upper(col.declType))
    ensures r.Real? ==> r == Real(Zero) && (Contains(Upper(col.declType), "REAL") || Contains(Upper(col.declType), "FLOAT"))
    // for a NOT NULL column without a default, other than the key, the type decides
    ensures col.notNull && col.dflt.None? && !IsAutoKey(col) ==>
              var t := Upper(col.declType);
              && (Contains(t, "INT") ==> r == Int(0))
              && (!Contains(t, "INT") && (Contains(t, "REAL") || Contains(t, "FLOAT")) ==> r == Real(Zero))
              && (!Contains(t, "INT") && !Contains(t, "REAL") && !Contains(t, "FLOAT") ==> r == Text(""))
  {
    var t := Upper(col.declType);
    if col.pk == 1 && t == "INTEGER" then Null
    else if col.dflt.Some? then Text(col.dflt.value)
    else if !col.notNull then Null
    else if Contains(t, "INT") then Int(0)
    else if Contains(t, "REAL") || Contains(t, "FLOAT") then Real(Zero)
    else Text("")
  }

  /** The default row for a whole schema, column by column. */
  function DefaultRow(schema: seq<Column>): (r: Row)
    ensures |r| == |schema|
    ensures forall i :: 0 <= i < |schema| ==> r[i] == DefaultValue(schema[i])
    // NULL, 0, 0.0 or text: the driver binds every default
    ensures Bindable(r)
  {
    if schema == [] then [] else [DefaultValue(schema[0])] + DefaultRow(schema[1..])
  }

  /** The loop of `add_table_row` that collects the default values. */
  method BuildDefaultRow(schema: seq<Column>) returns (values: Row)
    ensures values == DefaultRow(schema)
  {
    values := [];
    var k := 0;
    while k < |schema|
      invariant 0 <= k <= |schema|
      invariant |values| == k
      invariant forall i :: 0 <= i < k ==> values[i] == DefaultValue(schema[i])
    {
      var col := schema[k];
      var t := Upper(col.declType);
      var v: Value;
      if col.pk == 1 && t == "INTEGER" {
        v := Null;
      } else if col.dflt.Some? {
        v := Text(col.dflt.value);
      } else if !col.notNull {
        v := Null;
      } else if Contains(t, "INT") {
        v := Int(0);
      } else if Contains(t, "REAL") || Contains(t, "FLOAT") {
        v := Real(Zero);
      } else {
        v := Text("");
      }
      values := values + [v];
      k := k + 1;
    }
  }

  /** Where a NOT NULL column has no default and is not the auto-numbered key,
      the coercer would accept its default value unchanged, provided the type
      is not one only the coercer counts as real (DOUBLE). */
  lemma DefaultAgreesWithCoercer(col: Column, parseFloat: FloatParser)
    requires col.notNull && col.dflt.None? && !IsAutoKey(col)
    requires IsRealType(Upper(col.declType)) ==>
               Contains(Upper(col.declType), "REAL") || Contains(Upper(col.declType), "FLOAT")
    ensures Conforms(DefaultValue(col), DeclaredType(Some(col)))
  {
  }

  /** The DOUBLE gap: a NOT NULL DOUBLE column without a default receives the
      empty text, although the coercer treats DOUBLE as a real type. */
  lemma DoubleColumnGetsEmptyText(col: Column)
    requires Upper(col.declType) == "DOUBLE" && col.notNull && col.dflt.None?
    ensures DefaultValue(col) == Text("") && IsRealType(DeclaredType(Some(col)))
    ensures !Conforms(DefaultValue(col), DeclaredType(Some(col)))
  {
    DoubleIsNotInteger();
    DoubleIsNotRealOrFloat();
    assert Contains("DOUBLE", "DOUBLE");
  }

  lemma DoubleIsNotInteger()
    ensures !Contains("DOUBLE", "INT")
  {
    MissingFirstCharNotContained("DOUBLE", "INT");
  }

  lemma DoubleIsNotRealOrFloat()
    ensures !Contains("DOUBLE", "REAL") && !Contains("DOUBLE", "FLOAT")
  {
    MissingFirstCharNotContained("DOUBLE", "REAL");
    MissingFirstCharNotContained("DOUBLE", "FLOAT");
  }

  datatype AddRowOutcome =
    | NoTable                          // no table selected: nothing happens
    | SchemaError(message: string)     // the schema read failed: an error box
    | Inserted(sql: string)            // the display SQL is shown, the grid refreshed
    | InsertFailed(signal: string)     // "ERROR: ..." is shown and an error box

  /** `add_table_row`. The schema is read once to build the defaults and once
      more inside `insert_row` (the two reads fail independently, hence two
      fault parameters). The engine receives exactly the default row, which
      always binds; only an accepted INSERT is committed and logged. */
  method AddTableRow(db: DatabaseManager, tableName: string, schemaFault: Option<string>,
                     insertSchemaFault: Option<string>, engine: Engine, now: string) returns (out: AddRowOutcome)
    modifies db
    ensures tableName == "" ==> out == NoTable && unchanged(db)
    ensures tableName != "" && old(db.GetTableSchema(tableName, schemaFault)).Err? ==>
              out == SchemaError(old(db.GetTableSchema(tableName, schemaFault)).error) && unchanged(db)
    ensures tableName != "" && old(db.GetTableSchema(tableName, schemaFault)).Ok? ==>
              var values := DefaultRow(old(db.GetTableSchema(tableName, schemaFault)).value);
              var again := old(db.GetTableSchema(tableName, insertSchemaFault));
              && (again.Err? ==> out == InsertFailed("ERROR: " + again.error) && unchanged(db))
              && (again.Ok? ==>
                    var stmt := Statement(InsertSql(tableName, Names(again.value)), values);
                    var display := InsertDisplay(tableName, Names(again.value), values);
                    && db.catalog == engine(stmt).after
                    && (engine(stmt).Raised? ==> out == InsertFailed("ERROR: " + engine(stmt).message) && db.rowCount == -1)
                    && (engine(stmt).Ran? ==>
                          && out == Inserted(display)
                          && db.history == old(db.history) + [HistoryEntry(display, now, true, None)]
                          && db.commits == old(db.commits) + 2
                          && db.historySeq == old(db.historySeq) + 1 && db.lastRowId == Some(db.historySeq)
                          && db.rowCount == 1))
    // a row that is not added leaves the log and the commits alone
    ensures !out.Inserted? ==>
              && db.history == old(db.history) && db.historySeq == old(db.historySeq)
              && db.lastRowId == old(db.lastRowId) && db.commits == old(db.commits)
  {
    if tableName == "" {
      return NoTable;
    }
    var schema := db.GetTableSchema(tableName, schemaFault);
    if schema.Err? {
      return SchemaError(schema.error);
    }
    var values := BuildDefaultRow(schema.value);
    var result := db.InsertRowKeepingRowId(tableName, values, insertSchemaFault, engine, now);
    if result.Written? {
      out := Inserted(result.sql);
    } else {
      assert result.WriteFailed?;
      out := InsertFailed("ERROR: " + result.error);
    }
  }
}

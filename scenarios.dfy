/** Worked cases of the table editor on the `students` table the program
    creates at start-up: `student_id INTEGER PRIMARY KEY, name TEXT NOT NULL,
    email TEXT UNIQUE, age INTEGER, country TEXT`, holding the first two
    sample students. */
module Scenarios {
  import opened Wrappers
  import opened Text
  import opened Values
  import opened Schema
  import opened Coercion
  import opened Statements
  import opened History
  import opened Database
  import opened Grid
  import opened Viewer

  const KeyColumn := Column(0, "student_id", "INTEGER", false, None, 1)
  const NameColumn := Column(1, "name", "TEXT", true, None, 0)
  const EmailColumn := Column(2, "email", "TEXT", false, None, 0)
  const AgeColumn := Column(3, "age", "INTEGER", false, None, 0)
  const CountryColumn := Column(4, "country", "TEXT", false, None, 0)
  const StudentColumns := [KeyColumn, NameColumn, EmailColumn, AgeColumn, CountryColumn]
  const StudentNames := ["student_id", "name", "email", "age", "country"]

  const Alice: Row := [Int(1), Text("Alice Johnson"), Text("alice@email.com"), Int(20), Text("USA")]
  const Bob: Row := [Int(2), Text("Bob Smith"), Text("bob@email.com"), Int(22), Text("Canada")]
  const StudentRows: seq<Row> := [Alice, Bob]
  /** Alice once her age has been edited to 21. */
  const Alice21: Row := [Int(1), Text("Alice Johnson"), Text("alice@email.com"), Int(21), Text("USA")]
  /** Bob a year older. */
  const Bob23: Row := [Int(2), Text("Bob Smith"), Text("bob@email.com"), Int(23), Text("Canada")]
  const Students := [TableEntry("students", Table(StudentColumns, StudentRows))]
  const Now := "2024-01-01T00:00:00"

  /** The rows after the row keyed `key` has had its age set to `age`. */
  function SetAge(rows: seq<Row>, key: Value, age: Value): (r: seq<Row>)
    ensures |r| == |rows|
    ensures forall i :: 0 <= i < |rows| ==>
              r[i] == if |rows[i]| == 5 && rows[i][0] == key then rows[i][3 := age] else rows[i]
  {
    seq(|rows|, i requires 0 <= i < |rows| =>
      if |rows[i]| == 5 && rows[i][0] == key then rows[i][3 := age] else rows[i])
  }

  /** A store that carries out `UPDATE students SET age = ? WHERE student_id = ?`
      on the two sample students and raises on anything else. */
  const AgeUpdating: Engine := (s: Statement) =>
    if s.sql == UpdateSql("students", "age", "student_id") && |s.params| == 2 then
      Ran(None, [], 1, None, [TableEntry("students", Table(StudentColumns, SetAge(StudentRows, s.params[1], s.params[0])))])
    else
      Raised("unsupported statement", Students)

  /** A store that appends a five-value INSERT to the two sample students,
      numbering the new row 3 as SQLite does for a NULL INTEGER PRIMARY KEY. */
  const RowAppending: Engine := (s: Statement) =>
    if |s.params| == 5 then
      Ran(None, [], 1, Some(3), [TableEntry("students", Table(StudentColumns, StudentRows + [[Int(3)] + s.params[1..]]))])
    else
      Raised("unsupported statement", Students)

  const AgeEveryone := "UPDATE students SET age = age + 1"

  /** A store that carries out `AgeEveryone` on the two sample students,
      changing two rows, and raises on anything else. */
  const Aging: Engine := (s: Statement) =>
    if s.sql == AgeEveryone && s.params == [] then
      Ran(None, [], 2, None, [TableEntry("students", Table(StudentColumns, [Alice21, Bob23]))])
    else
      Raised("unsupported statement", Students)

  lemma IntegerTypeIsInteger()
    ensures Upper("INTEGER") == "INTEGER" && IsIntegerType("INTEGER")
  {
    assert Upper("INTEGER") == "INTEGER";
    assert StartsWith("INTEGER", "INT");
  }

  lemma TwentyOneText()
    ensures IntToString(21) == "21"
  {
    assert NatToString(21) == NatToString(2) + [DigitChar(1)];
  }

  lemma TwentyText()
    ensures IntToString(20) == "20"
  {
    assert NatToString(20) == NatToString(2) + [DigitChar(0)];
  }

  lemma TwentyOneRenders()
    ensures IntToString(21) == "21" && ParseInt("21") == Some(21)
  {
    TwentyOneText();
    ParseIntRoundTrip(21);
  }

  /** The message the grid shows for "twenty" in the age column. */
  const WordsRejection := "ERROR: Invalid INTEGER value: '" + "twenty" + "'"

  lemma WordsMessage(s: string)
    ensures "ERROR: " + InvalidInteger(s) == "ERROR: Invalid INTEGER value: '" + s + "'"
  {
  }

  lemma WordsDoNotParse()
    ensures ParseInt("twenty") == None
  {
    assert TrimLeft("twenty") == "twenty";
    assert TrimRight("twenty") == "twenty";
    assert !IsDigit("twenty"[0]);
  }

  /** Only `student_id` belongs to the primary key. */
  lemma StudentKeyNames()
    ensures KeyNames(StudentColumns) == ["student_id"]
  {
    assert KeyNames([CountryColumn]) == [] by {
      assert [CountryColumn][1..] == [];
    }
    assert KeyNames([AgeColumn, CountryColumn]) == [] by {
      assert [AgeColumn, CountryColumn][1..] == [CountryColumn];
    }
    assert KeyNames([EmailColumn, AgeColumn, CountryColumn]) == [] by {
      assert [EmailColumn, AgeColumn, CountryColumn][1..] == [AgeColumn, CountryColumn];
    }
    assert KeyNames([NameColumn, EmailColumn, AgeColumn, CountryColumn]) == [] by {
      assert [NameColumn, EmailColumn, AgeColumn, CountryColumn][1..] == [EmailColumn, AgeColumn, CountryColumn];
    }
    assert StudentColumns[1..] == [NameColumn, EmailColumn, AgeColumn, CountryColumn];
  }

  /** What the two schema reads of `set_editable` return for `students`. */
  lemma StudentSchemaReads()
    ensures Lookup(Students, "students") == Some(Table(StudentColumns, StudentRows))
    ensures PrimaryKey(StudentColumns) == Ok(PrimaryKeyInfo("student_id", ["student_id"]))
    ensures IndexOf(StudentNames, "student_id") == Some(0)
    ensures "age" in SchemaMap(StudentColumns) && SchemaMap(StudentColumns)["age"] == AgeColumn
  {
    StudentKeyNames();
    assert StudentColumns[3].name == "age";
    var m := SchemaMap(StudentColumns);
    assert m["age"] in StudentColumns && m["age"].name == "age";
  }

  /** The same reads through a store holding the sample students. */
  lemma StudentReads(db: DatabaseManager)
    requires db.catalog == Students
    ensures db.GetPrimaryKey("students", None) == Ok(PrimaryKeyInfo("student_id", ["student_id"]))
    ensures db.GetTableSchema("students", None) == Ok(StudentColumns)
    ensures "age" in SchemaMap(StudentColumns) && SchemaMap(StudentColumns)["age"] == AgeColumn
    ensures IndexOf(StudentNames, "student_id") == Some(0)
  {
    StudentSchemaReads();
  }

  /** The grid shown for `SELECT * FROM students`, bound to the table. */
  method BoundGrid(db: DatabaseManager) returns (grid: TableModel)
    requires db.catalog == Students
    ensures fresh(grid) && grid.Valid() && grid.Editable() && grid.db == db
    ensures grid.data == StudentRows && grid.columns == StudentNames
    ensures grid.tableName == Some("students") && grid.pkColumn == Some("student_id") && grid.pkIndex == Some(0)
    ensures "age" in grid.schema && grid.schema["age"] == AgeColumn
  {
    grid := new TableModel(StudentRows, StudentNames, null, None);
    StudentReads(db);
    grid.SetEditable(db, "students", None, None);
    assert grid.pkColumn == Some("student_id") && grid.pkIndex == IndexOf(StudentNames, "student_id");
    assert grid.schema == SchemaMap(StudentColumns);
  }

  /** What the coercer makes of a non-empty input for the `age` column. */
  lemma AgeCoercion(input: string, parseFloat: FloatParser)
    requires input != ""
    ensures ParseInt(input).Some? ==> ValidateValue(Some(input), Some(AgeColumn), parseFloat) == Ok(Int(ParseInt(input).value))
    ensures ParseInt(input).None? ==> ValidateValue(Some(input), Some(AgeColumn), parseFloat) == Err(InvalidInteger(input))
  {
    IntegerTypeIsInteger();
    assert DeclaredType(Some(AgeColumn)) == "INTEGER";
  }

  /** The plan `setData` makes for an age typed over Alice's age 20 (her row
      first, the key first and the age fourth among five columns). */
  lemma AgePlan(grid: TableModel, input: string, parseFloat: FloatParser)
    requires grid.Valid() && grid.Editable()
    requires |grid.data| > 0 && |grid.columns| == 5 && grid.columns[3] == "age" && grid.pkIndex == Some(0)
    requires grid.data[0][0] == Int(1) && grid.data[0][3] == Int(20)
    requires "age" in grid.schema && grid.schema["age"] == AgeColumn
    requires input != "20" && input != ""
    ensures ParseInt(input).Some? ==> grid.Plan(0, 3, Some(input), EditRole, parseFloat) == Write(Int(1), Int(ParseInt(input).value))
    ensures ParseInt(input).None? ==> grid.Plan(0, 3, Some(input), EditRole, parseFloat) == Invalid(InvalidInteger(input))
  {
    AgeCoercion(input, parseFloat);
    assert SchemaEntry(grid.schema, grid.columns[3]) == Some(AgeColumn);
    TwentyText();
    assert Show(grid.data[0][3]) == "20";
    assert ShowInput(Some(input)) == input;
  }

  lemma AgeAssignmentText()
    ensures UpdateHead("students", "age") + "'" + "21" + "'" == "UPDATE students SET age = '21'"
  {
    var head := UpdateHead("students", "age");
    assert head == "UPDATE students SET age = ";
    assert head + "'" == "UPDATE students SET age = '";
    assert head + "'" + "21" == "UPDATE students SET age = '21";
  }

  lemma AliceKeyText()
    ensures UpdateGuard("student_id") + "1" == " WHERE student_id = 1"
  {
    assert UpdateGuard("student_id") == " WHERE student_id = ";
  }

  lemma AgeDisplay()
    ensures UpdateDisplay("students", "age", "student_id", Int(21), Int(1))
            == "UPDATE students SET age = '21' WHERE student_id = 1"
  {
    TwentyOneText();
    AgeAssignmentText();
    AliceKeyText();
    var assignment := UpdateHead("students", "age") + "'" + "21" + "'";
    assert UpdateDisplay("students", "age", "student_id", Int(21), Int(1))
        == assignment + (UpdateGuard("student_id") + "1");
  }

  /** The age UPDATE for Alice reaches only Alice's row. */
  lemma AliceTurns21()
    ensures AgeUpdating(Statement(UpdateSql("students", "age", "student_id"), [Int(21), Int(1)]))
            == Ran(None, [], 1, None, [TableEntry("students", Table(StudentColumns, [Alice21, Bob]))])
  {
    assert Bob[0] != Int(1);
    assert Alice[3 := Int(21)] == Alice21;
    assert SetAge(StudentRows, Int(1), Int(21)) == [Alice21, Bob];
  }

  /** The plan for "21" typed over Alice's age 20: write 21 under key 1. */
  lemma AlicePlan(grid: TableModel, parseFloat: FloatParser)
    requires grid.Valid() && grid.Editable()
    requires |grid.data| > 0 && |grid.columns| == 5 && grid.columns[3] == "age" && grid.pkIndex == Some(0)
    requires grid.data[0][0] == Int(1) && grid.data[0][3] == Int(20)
    requires "age" in grid.schema && grid.schema["age"] == AgeColumn
    ensures grid.Plan(0, 3, Some("21"), EditRole, parseFloat) == Write(Int(1), Int(21))
  {
    TwentyOneRenders();
    AgePlan(grid, "21", parseFloat);
  }

  /** The UPDATE for Alice binds, and the store runs it. */
  lemma AliceUpdate()
    ensures var stmt := Statement(UpdateSql("students", "age", "student_id"), [Int(21), Int(1)]);
      && !Overflows(stmt, AgeUpdating)
      && AgeUpdating(stmt) == Ran(None, [], 1, None, [TableEntry("students", Table(StudentColumns, [Alice21, Bob]))])
  {
    AliceTurns21();
    assert Bindable([Int(21), Int(1)]);
  }

  /** `setData` with "21" typed over an age 20 in the first row, whose key
      is 1, of a grid bound to `students`. */
  method TypeAliceAge(db: DatabaseManager, grid: TableModel, parseFloat: FloatParser) returns (out: EditOutcome)
    requires grid.Valid() && grid.db == db && db.history == []
    requires |grid.data| > 0 && |grid.columns| == 5 && grid.columns[3] == "age"
    requires grid.data[0][0] == Int(1) && grid.data[0][3] == Int(20)
    requires grid.tableName == Some("students") && grid.pkColumn == Some("student_id") && grid.pkIndex == Some(0)
    requires "age" in grid.schema && grid.schema["age"] == AgeColumn
    modifies grid, db
    ensures out == Applied("UPDATE students SET age = '21' WHERE student_id = 1")
    ensures grid.Valid() && |grid.data| > 0 && |grid.columns| == 5 && grid.data[0][3] == Int(21)
    ensures db.catalog == [TableEntry("students", Table(StudentColumns, [Alice21, Bob]))]
    ensures db.history == [HistoryEntry("UPDATE students SET age = '21' WHERE student_id = 1", Now, true, None)]
  {
    AlicePlan(grid, parseFloat);
    AgeDisplay();
    AliceUpdate();
    out := grid.SetData(0, 3, Some("21"), EditRole, parseFloat, AgeUpdating, Now);
  }

  /** Typing "21" over Alice's age 20 stores the integer 21 both in the grid
      and in the table, logs and shows
      `UPDATE students SET age = '21' WHERE student_id = 1`, and leaves Bob
      alone. */
  method EditAge(parseFloat: FloatParser) returns (out: EditOutcome, cell: Value, stored: Catalog, log: seq<HistoryEntry>)
    ensures out == Applied("UPDATE students SET age = '21' WHERE student_id = 1")
    ensures cell == Int(21)
    ensures stored == [TableEntry("students", Table(StudentColumns, [Alice21, Bob]))]
    ensures log == [HistoryEntry("UPDATE students SET age = '21' WHERE student_id = 1", Now, true, None)]
  {
    var db := new DatabaseManager(Students, []);
    var grid := BoundGrid(db);
    out := TypeAliceAge(db, grid, parseFloat);
    cell := grid.data[0][3];
    stored := db.catalog;
    log := db.history;
  }

  /** Typing "twenty" into the age column is refused with the coercer's
      message before the store is reached: grid and table keep 20 and no
      history entry is written. */
  method EditAgeWithWords(parseFloat: FloatParser) returns (out: EditOutcome, cell: Value, stored: Catalog, logged: nat)
    ensures out == Rejected(WordsRejection)
    ensures cell == Int(20) && stored == Students && logged == 0
  {
    var db := new DatabaseManager(Students, []);
    var grid := BoundGrid(db);
    WordsDoNotParse();
    WordsMessage("twenty");
    AgePlan(grid, "twenty", parseFloat);
    out := grid.SetData(0, 3, Some("twenty"), EditRole, parseFloat, AgeUpdating, Now);
    cell := grid.data[0][3];
    stored := db.catalog;
    logged := |db.history|;
  }

  /** 2^63, one past SQLite's largest INTEGER, has 19 digits. */
  lemma NineteenDigits()
    ensures MaxInteger + 1 < Pow10(19)
  {
    assert Pow10(3) == 1000;
    Pow10Sum(3, 3);
    Pow10Sum(6, 6);
    Pow10Sum(12, 6);
    Pow10Sum(18, 1);
  }

  /** An integer past SQLite's range but below 10^19 is well within the
      digit limit of `int()`, which reads it back. */
  lemma WideIntegerParses(n: int)
    requires MaxInteger < n < Pow10(19)
    ensures ParseInt(IntToString(n)) == Some(n) && !Bindable([Int(n), Int(1)])
  {
    RenderingLength(n, 19);
    ParseIntRoundTrip(n);
    assert [Int(n), Int(1)][0] == Int(n);
  }

  lemma TwentyParses()
    ensures ParseInt("20") == Some(20)
  {
    TwentyText();
    ParseIntRoundTrip(20);
  }

  /** The plan for an integer typed over Alice's age 20: write it under key 1. */
  lemma WidePlan(grid: TableModel, input: string, n: int, parseFloat: FloatParser)
    requires grid.Valid() && grid.Editable()
    requires |grid.data| > 0 && |grid.columns| == 5 && grid.columns[3] == "age" && grid.pkIndex == Some(0)
    requires grid.data[0][0] == Int(1) && grid.data[0][3] == Int(20)
    requires "age" in grid.schema && grid.schema["age"] == AgeColumn
    requires ParseInt(input) == Some(n) && n != 20
    ensures grid.Plan(0, 3, Some(input), EditRole, parseFloat) == Write(Int(1), Int(n))
  {
    TwentyParses();
    AgePlan(grid, input, parseFloat);
  }

  /** The age UPDATE prepares, so an unbindable new age overflows. */
  lemma WideUpdateOverflows(n: int)
    requires !Bindable([Int(n), Int(1)])
    ensures Overflows(Statement(UpdateSql("students", "age", "student_id"), [Int(n), Int(1)]), AgeUpdating)
  {
  }

  /** `setData` with an integer SQLite cannot hold typed over an age 20 in
      the first row, whose key is 1, of a grid bound to `students`. */
  method TypeWideAge(db: DatabaseManager, grid: TableModel, input: string, n: int, parseFloat: FloatParser)
    returns (out: EditOutcome)
    requires grid.Valid() && grid.db == db
    requires |grid.data| > 0 && |grid.columns| == 5 && grid.columns[3] == "age"
    requires grid.data[0][0] == Int(1) && grid.data[0][3] == Int(20)
    requires grid.tableName == Some("students") && grid.pkColumn == Some("student_id") && grid.pkIndex == Some(0)
    requires "age" in grid.schema && grid.schema["age"] == AgeColumn
    requires ParseInt(input) == Some(n) && !Bindable([Int(n), Int(1)])
    modifies grid, db
    ensures out == Crashed(BindOverflow)
    ensures grid.data == old(grid.data) && db.catalog == old(db.catalog) && db.history == old(db.history)
  {
    WidePlan(grid, input, n, parseFloat);
    WideUpdateOverflows(n);
    out := grid.SetData(0, 3, Some(input), EditRole, parseFloat, AgeUpdating, Now);
  }

  /** Typing 2^63 over Alice's age: the coercer accepts it, the driver cannot
      bind it, and the OverflowError escapes `setData`; grid and table keep
      20 and nothing is logged. */
  method EditAgeTooWide(parseFloat: FloatParser) returns (out: EditOutcome, cell: Value, stored: Catalog, logged: nat)
    ensures out == Crashed(BindOverflow)
    ensures cell == Int(20) && stored == Students && logged == 0
  {
    var db := new DatabaseManager(Students, []);
    var grid := BoundGrid(db);
    var n := MaxInteger + 1;
    NineteenDigits();
    WideIntegerParses(n);
    out := TypeWideAge(db, grid, IntToString(n), n, parseFloat);
    cell := grid.data[0][3];
    stored := db.catalog;
    logged := |db.history|;
  }

  /** `name` is NOT NULL, has no default and is not the key: being TEXT, it
      gets the empty text. */
  lemma NameDefault()
    ensures DefaultValue(NameColumn) == Text("")
  {
    assert Upper("TEXT") == "TEXT";
    MissingFirstCharNotContained("TEXT", "INT");
    MissingFirstCharNotContained("TEXT", "REAL");
    MissingFirstCharNotContained("TEXT", "FLOAT");
  }

  lemma DefaultRowOfFive(a: Column, b: Column, c: Column, d: Column, e: Column)
    ensures DefaultRow([a, b, c, d, e]) == [DefaultValue(a), DefaultValue(b), DefaultValue(c), DefaultValue(d), DefaultValue(e)]
  {
  }

  lemma ColumnDefaults()
    ensures DefaultValue(KeyColumn) == Null && DefaultValue(NameColumn) == Text("")
    ensures DefaultValue(EmailColumn) == Null && DefaultValue(AgeColumn) == Null && DefaultValue(CountryColumn) == Null
  {
    IntegerTypeIsInteger();
    NameDefault();
  }

  /** The defaults "add row" builds for `students`: the key gets NULL, so
      SQLite numbers the row itself; the NOT NULL `name` without a default
      gets the empty text; the nullable columns get NULL. */
  lemma DefaultStudentRow()
    ensures DefaultRow(StudentColumns) == [Null, Text(""), Null, Null, Null]
  {
    ColumnDefaults();
    DefaultRowOfFive(KeyColumn, NameColumn, EmailColumn, AgeColumn, CountryColumn);
  }

  lemma JoinTwoNames()
    ensures Join(["age", "country"], ", ") == "age, country"
  {
    JoinCons("age", ["country"], ", ");
    assert ["age"] + ["country"] == ["age", "country"];
  }

  lemma JoinThreeNames()
    ensures Join(["email", "age", "country"], ", ") == "email, age, country"
  {
    JoinTwoNames();
    JoinCons("email", ["age", "country"], ", ");
    assert ["email"] + ["age", "country"] == ["email", "age", "country"];
    assert "email" + ", " + "age, country" == "email, age, country";
  }

  lemma JoinFourNames()
    ensures Join(["name", "email", "age", "country"], ", ") == "name, email, age, country"
  {
    JoinThreeNames();
    JoinCons("name", ["email", "age", "country"], ", ");
    assert ["name"] + ["email", "age", "country"] == ["name", "email", "age", "country"];
    assert "name" + ", " + "email, age, country" == "name, email, age, country";
  }

  lemma StudentNamesRead()
    ensures Names(StudentColumns) == StudentNames
  {
    var r := Names(StudentColumns);
    assert |r| == 5;
    assert r[0] == "student_id" && r[1] == "name" && r[2] == "email";
    assert r[3] == "age" && r[4] == "country";
  }

  lemma StudentNamesJoined()
    ensures Join(StudentNames, ", ") == "student_id, name, email, age, country"
  {
    JoinFourNames();
    JoinCons("student_id", ["name", "email", "age", "country"], ", ");
    assert ["student_id"] + ["name", "email", "age", "country"] == StudentNames;
    assert "student_id" + ", " + "name, email, age, country" == "student_id, name, email, age, country";
  }

  lemma StudentColumnList()
    ensures Names(StudentColumns) == StudentNames
    ensures Join(StudentNames, ", ") == "student_id, name, email, age, country"
  {
    StudentNamesRead();
    StudentNamesJoined();
  }

  lemma JoinThreeNulls()
    ensures Join(["NULL", "NULL", "NULL"], ", ") == "NULL, NULL, NULL"
  {
    JoinCons("NULL", ["NULL"], ", ");
    assert ["NULL"] + ["NULL"] == ["NULL", "NULL"];
    JoinCons("NULL", ["NULL", "NULL"], ", ");
    assert ["NULL"] + ["NULL", "NULL"] == ["NULL", "NULL", "NULL"];
    assert "NULL" + ", " + "NULL, NULL" == "NULL, NULL, NULL";
  }

  lemma DefaultStudentLiteralList()
    ensures InsertLiterals([Null, Text(""), Null, Null, Null]) == ["NULL", "''", "NULL", "NULL", "NULL"]
  {
    assert InsertLiteral(Text("")) == "''";
  }

  lemma JoinFourLiterals()
    ensures Join(["''", "NULL", "NULL", "NULL"], ", ") == "'', NULL, NULL, NULL"
  {
    JoinThreeNulls();
    JoinCons("''", ["NULL", "NULL", "NULL"], ", ");
    assert ["''"] + ["NULL", "NULL", "NULL"] == ["''", "NULL", "NULL", "NULL"];
    assert "''" + ", " + "NULL, NULL, NULL" == "'', NULL, NULL, NULL";
  }

  lemma DefaultStudentLiterals()
    ensures InsertLiterals([Null, Text(""), Null, Null, Null]) == ["NULL", "''", "NULL", "NULL", "NULL"]
    ensures Join(["NULL", "''", "NULL", "NULL", "NULL"], ", ") == "NULL, '', NULL, NULL, NULL"
  {
    DefaultStudentLiteralList();
    JoinFourLiterals();
    JoinCons("NULL", ["''", "NULL", "NULL", "NULL"], ", ");
    assert ["NULL"] + ["''", "NULL", "NULL", "NULL"] == ["NULL", "''", "NULL", "NULL", "NULL"];
    assert "NULL" + ", " + "'', NULL, NULL, NULL" == "NULL, '', NULL, NULL, NULL";
  }

  /** `INSERT INTO students (student_id, name, email, age, country) VALUES
      (NULL, '', NULL, NULL, NULL)`, kept in the pieces the display builder
      puts together. */
  const DefaultInsertText := "INSERT INTO " + "students" + " (" + "student_id, name, email, age, country"
                             + ") VALUES (" + "NULL, '', NULL, NULL, NULL" + ")"

  /** The display form of the default INSERT. */
  lemma DefaultStudentInsert()
    ensures InsertDisplay("students", Names(StudentColumns), DefaultRow(StudentColumns)) == DefaultInsertText
  {
    DefaultStudentRow();
    StudentColumnList();
    DefaultStudentLiterals();
  }

  /** The store receives the five defaults and keeps them behind the number 3. */
  lemma AppendedRow(sql: string, values: Row)
    requires |values| == 5
    ensures RowAppending(Statement(sql, values))
            == Ran(None, [], 1, Some(3), [TableEntry("students", Table(StudentColumns, [Alice, Bob, [Int(3), values[1], values[2], values[3], values[4]]]))])
  {
    var row := [Int(3)] + values[1..];
    assert row == [Int(3), values[1], values[2], values[3], values[4]];
    assert StudentRows + [row] == [Alice, Bob, row];
  }

  lemma DefaultsAppended()
    ensures RowAppending(Statement(InsertSql("students", Names(StudentColumns)), DefaultRow(StudentColumns)))
            == Ran(None, [], 1, Some(3), [TableEntry("students", Table(StudentColumns, [Alice, Bob, [Int(3), Text(""), Null, Null, Null]]))])
  {
    DefaultStudentRow();
    AppendedRow(InsertSql("students", Names(StudentColumns)), DefaultRow(StudentColumns));
  }

  /** "Add row" on `students`: the INSERT names all five columns, the store
      receives exactly the defaults and numbers the row 3, the display text is
      shown and logged. */
  method AddStudent() returns (out: AddRowOutcome, stored: Catalog, log: seq<HistoryEntry>)
    ensures out == Inserted(DefaultInsertText)
    ensures stored == [TableEntry("students", Table(StudentColumns, [Alice, Bob, [Int(3), Text(""), Null, Null, Null]]))]
    ensures log == [HistoryEntry(DefaultInsertText, Now, true, None)]
  {
    var db := new DatabaseManager(Students, []);
    StudentReads(db);
    DefaultStudentInsert();
    DefaultsAppended();
    out := AddTableRow(db, "students", None, None, RowAppending, Now);
    stored := db.catalog;
    log := db.history;
  }

  const Aged := [TableEntry("students", Table(StudentColumns, [Alice21, Bob23]))]

  /** The store runs `AgeEveryone`, which has no result description. */
  lemma AgingRuns()
    ensures Aging(Statement(AgeEveryone, [])) == Ran(None, [], 2, None, Aged)
  {
  }

  lemma OneAndTwoDiffer()
    ensures AffectedMessage(1) != AffectedMessage(2)
  {
    assert IntToString(1) == "1" && IntToString(2) == "2";
    assert AffectedMessage(1)[|AffectedMessage(1)| - 1] == '1';
  }

  /** The row count `execute_query` reports for `AgeEveryone` on the sample
      students: both forms leave both students a year older, but the code as
      written reports 1, the count of its own history INSERT, while reading
      the count before the history row is written reports the 2 rows the
      UPDATE changed. */
  method ExecuteQueryRowCountWitness() returns (asWritten: QueryOutcome, corrected: QueryOutcome,
                                                engineRowCount: int, stored: Catalog)
    ensures engineRowCount == 2
    ensures asWritten == Affected(AffectedMessage(1)) && corrected == Affected(AffectedMessage(engineRowCount))
    ensures asWritten != corrected
    ensures stored == [TableEntry("students", Table(StudentColumns, [Alice21, Bob23]))]
  {
    AgingRuns();
    OneAndTwoDiffer();
    engineRowCount := Aging(Statement(AgeEveryone, [])).rowcount;
    var first := new DatabaseManager(Students, []);
    asWritten := first.ExecuteQuery(AgeEveryone, Aging, Now);
    assert asWritten == Affected(AffectedMessage(1));
    var second := new DatabaseManager(Students, []);
    corrected := second.ExecuteQueryKeepingRowCount(AgeEveryone, Aging, Now);
    assert corrected == Affected(AffectedMessage(2));
    stored := second.catalog;
  }
}

/** The SQL text the engine writes for itself: for each single-row mutation a
    parameterised statement (with `?` placeholders) that is executed and a
    display statement with the values written in, which goes to the history
    log; and the heuristic that decides whether a free-form statement returns
    rows. */
module Statements {
  import opened Text
  import opened Values

  // ---------------------------------------------------------------------
  // UPDATE, INSERT, DELETE

  /** The text both UPDATE forms share before the new value ... */
  function UpdateHead(table: string, column: string): string {
    "UPDATE " + table + " SET " + column + " = "
  }

  /** ... and between the new value and the key value. */
  function UpdateGuard(pkColumn: string): string {
    " WHERE " + pkColumn + " = "
  }

  /** `UPDATE t SET c = ? WHERE pk = ?` */
  function UpdateSql(table: string, column: string, pkColumn: string): string {
    UpdateHead(table, column) + "?" + UpdateGuard(pkColumn) + "?"
  }

  /** `UPDATE t SET c = '<v>' WHERE pk = <pkv>`: the new value is always
      quoted, even when it is None (giving 'None'); the key value is never
      quoted; nothing is escaped. */
  function UpdateDisplay(table: string, column: string, pkColumn: string, newValue: Value, pkValue: Value): string {
    UpdateHead(table, column) + "'" + Show(newValue) + "'" + UpdateGuard(pkColumn) + Show(pkValue)
  }

  function Placeholders(n: nat): (r: seq<string>)
    ensures |r| == n && forall i :: 0 <= i < n ==> r[i] == "?"
  {
    seq(n, _ => "?")
  }

  function InsertSql(table: string, columns: seq<string>): string {
    "INSERT INTO " + table + " (" + Join(columns, ", ") + ") VALUES (" + Join(Placeholders(|columns|), ", ") + ")"
  }

  /** How `insert_row` writes one value into its display statement. */
  function InsertLiteral(v: Value): string {
    if v.Null? then "NULL" else "'" + Show(v) + "'"
  }

  function InsertLiterals(values: seq<Value>): (r: seq<string>)
    ensures |r| == |values| && forall i :: 0 <= i < |values| ==> r[i] == InsertLiteral(values[i])
  {
    seq(|values|, i requires 0 <= i < |values| => InsertLiteral(values[i]))
  }

  function InsertDisplay(table: string, columns: seq<string>, values: seq<Value>): string {
    "INSERT INTO " + table + " (" + Join(columns, ", ") + ") VALUES (" + Join(InsertLiterals(values), ", ") + ")"
  }

  /** The text both DELETE forms share before the key value. */
  function DeleteHead(table: string, pkColumn: string): string {
    "DELETE FROM " + table + " WHERE " + pkColumn + " = "
  }

  /** `DELETE FROM t WHERE pk = ?` */
  function DeleteSql(table: string, pkColumn: string): string {
    DeleteHead(table, pkColumn) + "?"
  }

  /** `DELETE FROM t WHERE pk = <pkv>`, the key value unquoted. */
  function DeleteDisplay(table: string, pkColumn: string, pkValue: Value): string {
    DeleteHead(table, pkColumn) + Show(pkValue)
  }

  // ---------------------------------------------------------------------
  // How the two forms relate: the display statement is the parameterised
  // one with each `?` replaced, in order, by the rendering of its argument.

  predicate NoMark(s: string) {
    forall i :: 0 <= i < |s| ==> s[i] != '?'
  }

  /** Replace the `?` marks of `s`, left to right, by `args`; marks left over
      when `args` runs out stay as they are. */
  function Substitute(s: string, args: seq<string>): string
    decreases |s|
  {
    if s == [] then []
    else if s[0] == '?' && args != [] then args[0] + Substitute(s[1..], args[1..])
    else [s[0]] + Substitute(s[1..], args)
  }

  /** The number of `?` marks in `s`. */
  function CountMarks(s: string): nat
    decreases |s|
  {
    if s == [] then 0 else (if s[0] == '?' then 1 else 0) + CountMarks(s[1..])
  }

  lemma {:induction false} SubstitutePlain(a: string, b: string, args: seq<string>)
    requires NoMark(a)
    ensures Substitute(a + b, args) == a + Substitute(b, args)
    decreases |a|
  {
    if a != [] {
      assert (a + b)[0] == a[0] && (a + b)[1..] == a[1..] + b;
      SubstitutePlain(a[1..], b, args);
    } else {
      assert a + b == b;
    }
  }

  lemma SubstituteMark(b: string, x: string, rest: seq<string>)
    ensures Substitute("?" + b, [x] + rest) == x + Substitute(b, rest)
  {
    assert ("?" + b)[1..] == b;
    assert ([x] + rest)[1..] == rest;
  }

  lemma {:induction false} SubstituteNothing(s: string)
    requires NoMark(s)
    ensures Substitute(s, []) == s
  {
    SubstitutePlain(s, [], []);
    assert s + [] == s;
  }

  lemma {:induction false} CountMarksAppend(a: string, b: string)
    ensures CountMarks(a + b) == CountMarks(a) + CountMarks(b)
    decreases |a|
  {
    if a != [] {
      assert (a + b)[0] == a[0] && (a + b)[1..] == a[1..] + b;
      CountMarksAppend(a[1..], b);
    } else {
      assert a + b == b;
    }
  }

  lemma {:induction false} CountMarksPlain(a: string)
    requires NoMark(a)
    ensures CountMarks(a) == 0
    decreases |a|
  {
    if a != [] {
      CountMarksPlain(a[1..]);
    }
  }

  lemma {:induction false} JoinNoMark(items: seq<string>)
    requires forall i :: 0 <= i < |items| ==> NoMark(items[i])
    ensures NoMark(Join(items, ", "))
    decreases |items|
  {
    if |items| > 1 {
      JoinNoMark(items[1..]);
    }
  }

  /** Joining n placeholders and substituting n arguments gives the arguments
      joined the same way. */
  lemma {:induction false} SubstitutePlaceholders(args: seq<string>, tail: string, rest: seq<string>)
    ensures Substitute(Join(Placeholders(|args|), ", ") + tail, args + rest) == Join(args, ", ") + Substitute(tail, rest)
    decreases |args|
  {
    var p := Placeholders(|args|);
    if |args| == 0 {
      assert Join(p, ", ") + tail == tail && args + rest == rest;
    } else if |args| == 1 {
      assert Join(p, ", ") == "?";
      assert args + rest == [args[0]] + rest;
      SubstituteMark(tail, args[0], rest);
    } else {
      var p' := Placeholders(|args| - 1);
      assert p[1..] == p';
      assert Join(p, ", ") + tail == "?" + (", " + (Join(p', ", ") + tail));
      assert args + rest == [args[0]] + (args[1..] + rest);
      SubstituteMark(", " + (Join(p', ", ") + tail), args[0], args[1..] + rest);
      SubstitutePlain(", ", Join(p', ", ") + tail, args[1..] + rest);
      SubstitutePlaceholders(args[1..], tail, rest);
    }
  }

  lemma {:induction false} PlaceholderCount(n: nat)
    ensures CountMarks(Join(Placeholders(n), ", ")) == n
    decreases n
  {
    if n > 1 {
      var p := Placeholders(n);
      assert p[1..] == Placeholders(n - 1);
      assert Join(p, ", ") == "?" + (", " + Join(Placeholders(n - 1), ", "));
      CountMarksAppend("?", ", " + Join(Placeholders(n - 1), ", "));
      CountMarksAppend(", ", Join(Placeholders(n - 1), ", "));
      PlaceholderCount(n - 1);
    } else if n == 1 {
      assert Join(Placeholders(n), ", ") == "?";
    }
  }

  lemma NoMarkAppend(a: string, b: string)
    requires NoMark(a) && NoMark(b)
    ensures NoMark(a + b)
  {
    forall i | 0 <= i < |a + b| ensures (a + b)[i] != '?' {
      if i >= |a| {
        assert (a + b)[i] == b[i - |a|];
      }
    }
  }

  /** Two marks, two arguments. */
  lemma SubstituteTwo(a: string, b: string, x: string, y: string)
    requires NoMark(a) && NoMark(b)
    ensures Substitute(a + "?" + b + "?", [x, y]) == a + x + b + y
  {
    assert a + "?" + b + "?" == a + ("?" + (b + ("?" + "")));
    SubstitutePlain(a, "?" + (b + ("?" + "")), [x, y]);
    assert [x, y] == [x] + [y];
    SubstituteMark(b + ("?" + ""), x, [y]);
    SubstitutePlain(b, "?" + "", [y]);
    assert [y] == [y] + [];
    SubstituteMark("", y, []);
    assert a + x + b + y == a + (x + (b + (y + "")));
  }

  /** One mark at the end, one argument. */
  lemma SubstituteOne(a: string, y: string)
    requires NoMark(a)
    ensures Substitute(a + "?", [y]) == a + y
  {
    SubstitutePlain(a, "?", [y]);
    assert "?" == "?" + "" && [y] == [y] + [];
    SubstituteMark("", y, []);
  }

  lemma UpdatePartsPlain(table: string, column: string, pkColumn: string)
    requires NoMark(table) && NoMark(column) && NoMark(pkColumn)
    ensures NoMark(UpdateHead(table, column)) && NoMark(UpdateGuard(pkColumn))
  {
    NoMarkAppend("UPDATE ", table);
    NoMarkAppend("UPDATE " + table, " SET ");
    NoMarkAppend("UPDATE " + table + " SET ", column);
    NoMarkAppend("UPDATE " + table + " SET " + column, " = ");
    NoMarkAppend(" WHERE ", pkColumn);
    NoMarkAppend(" WHERE " + pkColumn, " = ");
  }

  lemma QuotedAppend(a: string, v: string)
    ensures a + ("'" + v + "'") == a + "'" + v + "'"
  {
  }

  /** The logged UPDATE is the executed one with the new value written in
      quotes and the key value written bare. */
  lemma UpdateDisplayIsSubstitution(table: string, column: string, pkColumn: string, newValue: Value, pkValue: Value)
    requires NoMark(table) && NoMark(column) && NoMark(pkColumn)
    ensures Substitute(UpdateSql(table, column, pkColumn), ["'" + Show(newValue) + "'", Show(pkValue)])
         == UpdateDisplay(table, column, pkColumn, newValue, pkValue)
  {
    UpdatePartsPlain(table, column, pkColumn);
    var x := "'" + Show(newValue) + "'";
    SubstituteTwo(UpdateHead(table, column), UpdateGuard(pkColumn), x, Show(pkValue));
    QuotedAppend(UpdateHead(table, column), Show(newValue));
  }

  /** The logged DELETE is the executed one with the key value written bare. */
  lemma DeleteDisplayIsSubstitution(table: string, pkColumn: string, pkValue: Value)
    requires NoMark(table) && NoMark(pkColumn)
    ensures Substitute(DeleteSql(table, pkColumn), [Show(pkValue)]) == DeleteDisplay(table, pkColumn, pkValue)
  {
    NoMarkAppend("DELETE FROM ", table);
    NoMarkAppend("DELETE FROM " + table, " WHERE ");
    NoMarkAppend("DELETE FROM " + table + " WHERE ", pkColumn);
    NoMarkAppend("DELETE FROM " + table + " WHERE " + pkColumn, " = ");
    SubstituteOne(DeleteHead(table, pkColumn), Show(pkValue));
  }

  /** The logged INSERT names the same columns as the executed one and has
      one literal (NULL or a quoted value) per placeholder. */
  lemma InsertDisplayIsSubstitution(table: string, columns: seq<string>, values: seq<Value>)
    requires |values| == |columns|
    requires NoMark(table) && forall i :: 0 <= i < |columns| ==> NoMark(columns[i])
    ensures Substitute(InsertSql(table, columns), InsertLiterals(values)) == InsertDisplay(table, columns, values)
  {
    var lits := InsertLiterals(values);
    JoinNoMark(columns);
    var head := "INSERT INTO " + table + " (" + Join(columns, ", ") + ") VALUES (";
    assert NoMark(head);
    assert InsertSql(table, columns) == head + (Join(Placeholders(|lits|), ", ") + ")");
    SubstitutePlain(head, Join(Placeholders(|lits|), ", ") + ")", lits);
    assert lits == lits + [];
    SubstitutePlaceholders(lits, ")", []);
    SubstituteNothing(")");
    assert InsertDisplay(table, columns, values) == head + (Join(lits, ", ") + ")");
  }

  /** The executed INSERT has exactly one placeholder per schema column. */
  lemma InsertPlaceholderCount(table: string, columns: seq<string>)
    requires NoMark(table) && forall i :: 0 <= i < |columns| ==> NoMark(columns[i])
    ensures CountMarks(InsertSql(table, columns)) == |columns|
  {
    JoinNoMark(columns);
    var head := "INSERT INTO " + table + " (" + Join(columns, ", ") + ") VALUES (";
    var j := Join(Placeholders(|columns|), ", ");
    assert NoMark(head);
    assert InsertSql(table, columns) == head + (j + ")");
    CountMarksAppend(head, j + ")");
    CountMarksAppend(j, ")");
    CountMarksPlain(head);
    CountMarksPlain(")");
    PlaceholderCount(|columns|);
  }

  // ---------------------------------------------------------------------
  // Classifying free-form statements

  /** `query.strip().upper().startswith('SELECT')`. */
  predicate IsSelect(query: string) {
    StartsWith(Upper(Strip(query)), "SELECT")
  }

  /** The row-returning branch of `execute_query` is taken when the statement
      looks like a SELECT and the cursor reports a result description. */
  predicate IsRowReturning(query: string, hasDescription: bool) {
    IsSelect(query) && hasDescription
  }

  lemma {:induction false} TrimRightKeeps(s: string, k: nat)
    requires k < |s| && !IsSpace(s[k])
    ensures |TrimRight(s)| > k
    decreases |s|
  {
    if IsSpace(s[|s| - 1]) {
      TrimRightKeeps(s[..|s| - 1], k);
    }
  }

  lemma UpperPrefix(t: string, u: string, n: nat)
    requires |u| <= |t| && u == t[..|u|] && n <= |u|
    ensures Upper(u)[..n] == Upper(t)[..n]
  {
    forall i | 0 <= i < n ensures Upper(u)[i] == Upper(t)[i] {
      assert u[i] == t[i];
    }
  }

  /** Trimming the right end keeps a leading SELECT ... */
  lemma TrimRightKeepsSelect(t: string)
    requires StartsWith(Upper(t), "SELECT")
    ensures StartsWith(Upper(TrimRight(t)), "SELECT")
  {
    assert Upper(t)[5] == 'T';
    assert !IsSpace(t[5]);
    TrimRightKeeps(t, 5);
    UpperPrefix(t, TrimRight(t), 6);
  }

  /** ... and cannot create one. */
  lemma TrimRightMakesNoSelect(t: string)
    requires StartsWith(Upper(TrimRight(t)), "SELECT")
    ensures StartsWith(Upper(t), "SELECT")
  {
    UpperPrefix(t, TrimRight(t), 6);
  }

  /** Only leading white space and letter case matter to the classifier:
      trailing white space never changes its answer. */
  lemma SelectIgnoresTrailingSpace(query: string)
    ensures IsSelect(query) <==> StartsWith(Upper(TrimLeft(query)), "SELECT")
  {
    var t := TrimLeft(query);
    if StartsWith(Upper(t), "SELECT") {
      TrimRightKeepsSelect(t);
    }
    if StartsWith(Upper(TrimRight(t)), "SELECT") {
      TrimRightMakesNoSelect(t);
    }
  }
}

/** What the engine knows about a table's shape: the rows of
    `PRAGMA table_info`, the primary key derived from them, and the
    name-keyed view the grid keeps for validation. */
module Schema {
  import opened Wrappers
  import opened Text

  /** One row of `PRAGMA table_info`: (cid, name, type, notnull, dflt_value, pk).
      `declType` is the declared type as written ("" when none was given);
      `dflt` is the text of the DEFAULT expression; `pk` is 0 for a column
      outside the primary key and its 1-based rank inside it otherwise. */
  datatype Column = Column(cid: int, name: string, declType: string, notNull: bool, dflt: Option<string>, pk: int)

  /** What `get_primary_key` reports on success: the first key column, used to
      address single rows, and every key column in schema order. */
  datatype PrimaryKeyInfo = PrimaryKeyInfo(pkColumn: string, pkColumns: seq<string>)

  const NoPrimaryKey := "No primary key found"

  /** An `INTEGER PRIMARY KEY` column, which SQLite fills in itself. */
  predicate IsAutoKey(col: Column) {
    col.pk == 1 && Upper(col.declType) == "INTEGER"
  }

  function Names(schema: seq<Column>): (r: seq<string>)
    ensures |r| == |schema|
    ensures forall i :: 0 <= i < |schema| ==> r[i] == schema[i].name
  {
    if schema == [] then [] else [schema[0].name] + Names(schema[1..])
  }

  /** The names of the columns with `pk > 0`, in schema order. */
  function KeyNames(schema: seq<Column>): seq<string> {
    if schema == [] then []
    else (if schema[0].pk > 0 then [schema[0].name] else []) + KeyNames(schema[1..])
  }

  /** A name is a key name exactly when some column of that name has `pk > 0`. */
  lemma {:induction false} KeyNamesMembers(schema: seq<Column>, x: string)
    ensures x in KeyNames(schema) <==> exists i :: 0 <= i < |schema| && schema[i].pk > 0 && schema[i].name == x
  {
    if schema != [] {
      KeyNamesMembers(schema[1..], x);
      if x in KeyNames(schema[1..]) {
        var i :| 0 <= i < |schema[1..]| && schema[1..][i].pk > 0 && schema[1..][i].name == x;
        assert schema[i + 1] == schema[1..][i];
      }
      if exists i :: 0 <= i < |schema| && schema[i].pk > 0 && schema[i].name == x {
        var i :| 0 <= i < |schema| && schema[i].pk > 0 && schema[i].name == x;
        if i > 0 {
          assert schema[1..][i - 1] == schema[i];
        }
      }
    }
  }

  /** Filtering keeps schema order: the key names of a concatenation are the
      key names of its parts, one after the other. */
  lemma {:induction false} KeyNamesAppend(a: seq<Column>, b: seq<Column>)
    ensures KeyNames(a + b) == KeyNames(a) + KeyNames(b)
  {
    if a != [] {
      var head := if a[0].pk > 0 then [a[0].name] else [];
      assert (a + b)[0] == a[0] && (a + b)[1..] == a[1..] + b;
      assert KeyNames(a + b) == head + KeyNames(a[1..] + b);
      KeyNamesAppend(a[1..], b);
      assert KeyNames(a) == head + KeyNames(a[1..]);
    } else {
      assert a + b == b;
    }
  }

  /** The first key name is the name of the first column with `pk > 0`. */
  lemma {:induction false} FirstKeyName(schema: seq<Column>, i: nat)
    requires i < |schema| && schema[i].pk > 0
    requires forall j :: 0 <= j < i ==> schema[j].pk <= 0
    ensures |KeyNames(schema)| > 0 && KeyNames(schema)[0] == schema[i].name
  {
    if i > 0 {
      FirstKeyName(schema[1..], i - 1);
    }
  }

  /** `get_primary_key` after the schema has been read: the key columns in
      schema order, the first of them as the addressing column, or the error
      'No primary key found' when no column has `pk > 0`. */
  function PrimaryKey(schema: seq<Column>): (r: Result<PrimaryKeyInfo, string>)
    ensures r.Err? <==> forall i :: 0 <= i < |schema| ==> schema[i].pk <= 0
    ensures r.Err? ==> r.error == NoPrimaryKey
    ensures r.Ok? ==> r.value.pkColumns == KeyNames(schema) && |r.value.pkColumns| > 0 && r.value.pkColumns[0] == r.value.pkColumn
    ensures r.Ok? ==> forall x :: x in r.value.pkColumns <==> exists i :: 0 <= i < |schema| && schema[i].pk > 0 && schema[i].name == x
  {
    var names := KeyNames(schema);
    if names == [] then
      assert forall i :: 0 <= i < |schema| ==> schema[i].pk <= 0 by {
        forall i | 0 <= i < |schema| ensures schema[i].pk <= 0 {
          KeyNamesMembers(schema, schema[i].name);
        }
      }
      Err(NoPrimaryKey)
    else
      assert forall x :: x in names <==> exists i :: 0 <= i < |schema| && schema[i].pk > 0 && schema[i].name == x by {
        forall x { KeyNamesMembers(schema, x); }
      }
      assert names[0] in names;
      Ok(PrimaryKeyInfo(names[0], names))
  }

  /** `{col['name']: col for col in schema}`: every column reachable by its
      name; when two columns share a name the later one wins. */
  function SchemaMap(schema: seq<Column>): (m: map<string, Column>)
    ensures forall x :: x in m <==> exists i :: 0 <= i < |schema| && schema[i].name == x
    ensures forall x :: x in m ==> m[x].name == x && m[x] in schema
  {
    if schema == [] then map[]
    else
      var init := schema[..|schema| - 1];
      var last := schema[|schema| - 1];
      assert forall i :: 0 <= i < |init| ==> init[i] == schema[i];
      SchemaMap(init)[last.name := last]
  }
}

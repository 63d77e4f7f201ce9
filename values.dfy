/** The cell values the engine moves between the grid and the store: the
    Python objects SQLite hands back (`None`, `int`, `float`, `str`,
    `bytes`). */
module Values {
  import opened Text

  /** A Python float, identified by its `repr`, the text `str()` gives for it.
      Floating-point arithmetic is not part of this model. */
  datatype FloatVal = FloatVal(repr: string)

  /** A Python bytes object (an SQL BLOB), identified by its `repr`, the
      text `str()` gives for it (`b'...'`). Escaping is not part of this
      model. */
  datatype BytesVal = BytesVal(repr: string)

  datatype Value =
    | Null              // Python None, SQL NULL
    | Int(i: int)
    | Real(f: FloatVal)
    | Text(s: string)
    | Blob(b: BytesVal)

  /** A row as the grid and the store hold it: one value per column. */
  type Row = seq<Value>

  /** Python's `str(v)`, used both for the grid's "has the value changed?"
      test and for every literal in a display statement. */
  function Show(v: Value): string {
    match v
    case Null => "None"
    case Int(n) => IntToString(n)
    case Real(f) => f.repr
    case Text(s) => s
    case Blob(b) => b.repr
  }

  /** The float `0.0` that default rows use. */
  const Zero: FloatVal := FloatVal("0.0")
}

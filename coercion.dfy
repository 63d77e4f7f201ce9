/** `TableModel._validate_value`: turning what the user typed into a cell
    into the value stored for that column, or into an error message. */
module Coercion {
  import opened Wrappers
  import opened Text
  import opened Values
  import opened Schema

  /** Python's `float(s)`, which this model does not interpret: `None` stands
      for the `ValueError` it raises. */
  type FloatParser = string -> Option<FloatVal>

  const NullNotAllowed := "Column cannot be NULL"

  function InvalidInteger(s: string): string {
    "Invalid INTEGER value: '" + s + "'"
  }

  function InvalidReal(s: string): string {
    "Invalid REAL/FLOAT value: '" + s + "'"
  }

  /** The empty string or None. */
  predicate IsBlank(input: Option<string>) {
    input.None? || input == Some("")
  }

  /** `column_schema.get('notnull')` is truthy; a column missing from the
      grid's schema has no such entry. */
  predicate RejectsNull(col: Option<Column>) {
    col.Some? && col.value.notNull
  }

  /** `column_schema.get('type', 'TEXT').upper()`. */
  function DeclaredType(col: Option<Column>): string {
    if col.Some? then Upper(col.value.declType) else "TEXT"
  }

  /** The integer branch: the upper-cased type contains "INT". */
  predicate IsIntegerType(t: string) {
    Contains(t, "INT")
  }

  /** The real branch, consulted only when the integer branch does not apply. */
  predicate IsRealType(t: string) {
    Contains(t, "REAL") || Contains(t, "FLOAT") || Contains(t, "DOUBLE")
  }

  /** The kind of non-null value a column of upper-cased type `t` receives. */
  predicate Conforms(v: Value, t: string) {
    if IsIntegerType(t) then v.Int?
    else if IsRealType(t) then v.Real?
    else v.Text?
  }

  function ValidateValue(input: Option<string>, col: Option<Column>, parseFloat: FloatParser): (r: Result<Value, string>)
    // the blank check comes first and decides on the notnull flag alone
    ensures IsBlank(input) ==> (r.Err? <==> RejectsNull(col))
    ensures IsBlank(input) ==> r == (if RejectsNull(col) then Err(NullNotAllowed) else Ok(Null))
    // NULL is produced for blank input only
    ensures r == Ok(Null) ==> IsBlank(input)
    // a non-blank input is accepted as a value of the column's kind
    ensures !IsBlank(input) && r.Ok? ==> Conforms(r.value, DeclaredType(col))
    ensures !IsBlank(input) && r.Ok? && r.value.Int? ==> ParseInt(input.value) == Some(r.value.i)
    ensures !IsBlank(input) && r.Ok? && r.value.Real? ==> parseFloat(input.value) == Some(r.value.f)
    // integer columns reject exactly what int() rejects
    ensures !IsBlank(input) && IsIntegerType(DeclaredType(col)) ==>
              (r.Err? <==> ParseInt(input.value).None?) &&
              (r.Err? ==> r.error == InvalidInteger(input.value))
    // real columns reject exactly what float() rejects
    ensures !IsBlank(input) && !IsIntegerType(DeclaredType(col)) && IsRealType(DeclaredType(col)) ==>
              (r.Err? <==> parseFloat(input.value).None?) &&
              (r.Err? ==> r.error == InvalidReal(input.value))
    // every other column takes the text as typed
    ensures !IsBlank(input) && !IsIntegerType(DeclaredType(col)) && !IsRealType(DeclaredType(col)) ==>
              r == Ok(Text(input.value))
  {
    if IsBlank(input) then
      if RejectsNull(col) then Err(NullNotAllowed) else Ok(Null)
    else
      var s := input.value;
      var t := DeclaredType(col);
      if IsIntegerType(t) then
        match ParseInt(s)
        case Some(n) => Ok(Int(n))
        case None => Err(InvalidInteger(s))
      else if IsRealType(t) then
        match parseFloat(s)
        case Some(f) => Ok(Real(f))
        case None => Err(InvalidReal(s))
      else
        Ok(Text(s))
  }

  /** Coercion is a retraction of `str()`: a value the coercer produced,
      rendered with `str()` and typed back into the same column, is coerced to
      itself. For floats this holds when `float()` reads back its own `repr`,
      which Python guarantees. */
  lemma CoerceShowRoundTrip(input: Option<string>, col: Option<Column>, parseFloat: FloatParser, v: Value)
    requires ValidateValue(input, col, parseFloat) == Ok(v) && v != Null
    requires v.Real? ==> v.f.repr != "" && parseFloat(v.f.repr) == Some(v.f)
    ensures ValidateValue(Some(Show(v)), col, parseFloat) == Ok(v)
  {
    match v
    case Int(n) => IntegerShowRoundTrip(input, col, parseFloat, n);
    case Real(f) => RealShowRoundTrip(input, col, parseFloat, f);
    case Text(s) => TextShowRoundTrip(input, col, parseFloat, s);
  }

  lemma IntegerShowRoundTrip(input: Option<string>, col: Option<Column>, parseFloat: FloatParser, n: int)
    requires ValidateValue(input, col, parseFloat) == Ok(Int(n))
    ensures ValidateValue(Some(IntToString(n)), col, parseFloat) == Ok(Int(n))
  {
    assert !IsBlank(input);
    assert IsIntegerType(DeclaredType(col));
    TextIsNotInteger();
    assert col.Some?;
    ParsedIntFits(input.value);
    IntegerColumnAcceptsRendering(col.value, n, parseFloat);
  }

  /** A column missing from the schema counts as TEXT, which is not an
      integer type. */
  lemma TextIsNotInteger()
    ensures !IsIntegerType(DeclaredType(None))
  {
    MissingFirstCharNotContained("TEXT", "INT");
  }

  lemma RealShowRoundTrip(input: Option<string>, col: Option<Column>, parseFloat: FloatParser, f: FloatVal)
    requires ValidateValue(input, col, parseFloat) == Ok(Real(f))
    requires f.repr != "" && parseFloat(f.repr) == Some(f)
    ensures ValidateValue(Some(f.repr), col, parseFloat) == Ok(Real(f))
  {
    assert !IsBlank(input);
    assert !IsBlank(Some(f.repr));
  }

  lemma TextShowRoundTrip(input: Option<string>, col: Option<Column>, parseFloat: FloatParser, s: string)
    requires ValidateValue(input, col, parseFloat) == Ok(Text(s))
    ensures ValidateValue(Some(s), col, parseFloat) == Ok(Text(s))
  {
    assert !IsBlank(input);
    assert s == input.value;
  }

  /** Typing `str(n)` into an integer column stores the integer `n`, as long
      as `n` has no more digits than `int()` reads. */
  lemma IntegerColumnAcceptsRendering(col: Column, n: int, parseFloat: FloatParser)
    requires IsIntegerType(Upper(col.declType))
    ensures DecimalDigits(n) <= MaxStrDigits ==>
              ValidateValue(Some(IntToString(n)), Some(col), parseFloat) == Ok(Int(n))
    ensures DecimalDigits(n) > MaxStrDigits ==>
              ValidateValue(Some(IntToString(n)), Some(col), parseFloat) == Err(InvalidInteger(IntToString(n)))
  {
    ParseIntRoundTrip(n);
    Text.NatToStringDigits(if n < 0 then -n else n);
  }
}

/** The handful of Python string built-ins the engine relies on: `str.upper`,
    `str.strip`, `in`, `startswith`, `', '.join`, `str(int)` and `int(str)`.
    Only the ASCII behaviour of these built-ins is modelled. */
module Text {
  import opened Wrappers

  /** The ASCII characters for which Python's `str.isspace()` holds; `strip()`
      and `int()` skip exactly these (within ASCII). */
  predicate IsSpace(c: char) {
    c == ' ' || c == '\t' || c == '\n' || c == '\r' || c == '\U{000B}' || c == '\U{000C}'
    || ('\U{001C}' <= c <= '\U{001F}')
  }

  predicate IsDigit(c: char) {
    '0' <= c <= '9'
  }

  function UpperChar(c: char): char {
    if 'a' <= c <= 'z' then (c as int - 32) as char else c
  }

  /** `s.upper()`, ASCII letters only. */
  function Upper(s: string): (r: string)
    ensures |r| == |s|
    ensures forall i :: 0 <= i < |s| ==> r[i] == UpperChar(s[i])
  {
    if s == [] then [] else [UpperChar(s[0])] + Upper(s[1..])
  }

  predicate StartsWith(s: string, prefix: string) {
    |prefix| <= |s| && s[..|prefix|] == prefix
  }

  /** Python's `sub in s`. */
  predicate Contains(s: string, sub: string)
    decreases |s|
  {
    StartsWith(s, sub) || (|s| > 0 && Contains(s[1..], sub))
  }

  function TrimLeft(s: string): (r: string)
    ensures |r| <= |s| && r == s[|s| - |r|..]
    ensures r == [] || !IsSpace(r[0])
  {
    if |s| > 0 && IsSpace(s[0]) then TrimLeft(s[1..]) else s
  }

  function TrimRight(s: string): (r: string)
    ensures |r| <= |s| && r == s[..|r|]
    ensures r == [] || !IsSpace(r[|r| - 1])
  {
    if |s| > 0 && IsSpace(s[|s| - 1]) then TrimRight(s[..|s| - 1]) else s
  }

  /** `s.strip()`. */
  function Strip(s: string): string {
    TrimRight(TrimLeft(s))
  }

  /** `', '.join(items)`. */
  function Join(items: seq<string>, sep: string): string {
    if items == [] then ""
    else if |items| == 1 then items[0]
    else items[0] + sep + Join(items[1..], sep)
  }

  /** Joining puts the separator between the first item and the rest. */
  lemma JoinCons(x: string, rest: seq<string>, sep: string)
    requires rest != []
    ensures Join([x] + rest, sep) == x + sep + Join(rest, sep)
  {
    assert ([x] + rest)[1..] == rest;
  }

  function DigitChar(d: nat): char
    requires d < 10
  {
    ('0' as int + d) as char
  }

  function NatToString(n: nat): string
    decreases n
  {
    if n < 10 then [DigitChar(n)] else NatToString(n / 10) + [DigitChar(n % 10)]
  }

  /** `str(n)` for a Python int. */
  function IntToString(n: int): string {
    if n < 0 then "-" + NatToString(-n) else NatToString(n)
  }

  /** The digit run Python's `int()` accepts in base 10: one or more digits,
      a single underscore allowed between two digits. */
  predicate WellFormedDigits(b: string) {
    |b| > 0 && IsDigit(b[0]) && IsDigit(b[|b| - 1]) &&
    forall i :: 0 <= i < |b| ==> DigitOrJoiner(b, i)
  }

  /** Position `i` of `b` holds a digit, or an underscore followed by a digit. */
  predicate DigitOrJoiner(b: string, i: nat)
    requires i < |b|
  {
    IsDigit(b[i]) || (b[i] == '_' && i + 1 < |b| && IsDigit(b[i + 1]))
  }

  /** The number a digit run denotes; underscores are skipped. */
  function DigitsValue(b: string): nat
    decreases |b|
  {
    if |b| == 0 then 0
    else if IsDigit(b[|b| - 1]) then DigitsValue(b[..|b| - 1]) * 10 + (b[|b| - 1] as int - '0' as int)
    else DigitsValue(b[..|b| - 1])
  }

  /** The default of `sys.get_int_max_str_digits()`: `int()` refuses a
      decimal text of more digits than this, and `str()` an integer whose
      decimal form would have more. */
  const MaxStrDigits := 4300

  /** The digits of a digit run; underscores do not count. */
  function DigitCount(b: string): nat
    decreases |b|
  {
    if |b| == 0 then 0
    else DigitCount(b[..|b| - 1]) + (if IsDigit(b[|b| - 1]) then 1 else 0)
  }

  /** `int(s)` for a string `s`: surrounding white space, then an optional sign,
      then a digit run of at most `MaxStrDigits` digits. `None` stands for the
      `ValueError` Python raises. */
  function ParseInt(s: string): Option<int> {
    var t := Strip(s);
    if |t| > 0 && (t[0] == '+' || t[0] == '-') then
      if WellFormedDigits(t[1..]) && DigitCount(t[1..]) <= MaxStrDigits then
        Some(if t[0] == '-' then 0 - DigitsValue(t[1..]) as int else DigitsValue(t[1..]))
      else None
    else if WellFormedDigits(t) && DigitCount(t) <= MaxStrDigits then Some(DigitsValue(t))
    else None
  }

  /** The number of digits `str(n)` writes, the sign not counted. */
  function DecimalDigits(n: int): nat {
    |NatToString(if n < 0 then -n else n)|
  }

  function Pow10(k: nat): (r: nat)
    ensures r >= 1
  {
    if k == 0 then 1 else 10 * Pow10(k - 1)
  }

  lemma {:induction false} NatToStringDigits(n: nat)
    ensures |NatToString(n)| > 0
    ensures forall i :: 0 <= i < |NatToString(n)| ==> IsDigit(NatToString(n)[i])
    decreases n
  {
    if n >= 10 {
      NatToStringDigits(n / 10);
    }
  }

  lemma {:induction false} NatToStringValue(n: nat)
    ensures DigitsValue(NatToString(n)) == n
    decreases n
  {
    if n >= 10 {
      var p := NatToString(n / 10);
      var s := NatToString(n);
      assert s == p + [DigitChar(n % 10)];
      assert s[..|s| - 1] == p;
      NatToStringValue(n / 10);
    } else {
      var s := NatToString(n);
      assert s[..|s| - 1] == [];
    }
  }

  /** `str(n)` has no surrounding white space. */
  lemma IntToStringStripped(n: int)
    ensures Strip(IntToString(n)) == IntToString(n)
  {
    var s := IntToString(n);
    NatToStringDigits(if n < 0 then -n else n);
    assert |s| > 0 && !IsSpace(s[0]);
    assert TrimLeft(s) == s;
    assert !IsSpace(s[|s| - 1]);
  }

  /** The decimal rendering of a natural is a digit run `int()` accepts,
      denoting that natural. */
  lemma NatToStringParses(n: nat)
    ensures WellFormedDigits(NatToString(n)) && DigitsValue(NatToString(n)) == n
    ensures IsDigit(NatToString(n)[0])
  {
    NatToStringDigits(n);
    NatToStringValue(n);
  }

  /** Every character of a rendering is a digit, so all of them count. */
  lemma {:induction false} NatToStringDigitCount(n: nat)
    ensures DigitCount(NatToString(n)) == |NatToString(n)|
    decreases n
  {
    var s := NatToString(n);
    if n >= 10 {
      assert s[..|s| - 1] == NatToString(n / 10);
      NatToStringDigitCount(n / 10);
    } else {
      assert s[..|s| - 1] == [];
    }
  }

  /** A run of k digits denotes a number below 10^k. */
  lemma {:induction false} DigitsValueBound(b: string)
    ensures DigitsValue(b) < Pow10(DigitCount(b))
    decreases |b|
  {
    if |b| > 0 {
      DigitsValueBound(b[..|b| - 1]);
    }
  }

  lemma {:induction false} Pow10Sum(a: nat, b: nat)
    ensures Pow10(a + b) == Pow10(a) * Pow10(b)
    decreases a
  {
    if a > 0 {
      Pow10Sum(a - 1, b);
    }
  }

  /** A number below 10^k is written with at most k digits. */
  lemma {:induction false} RenderingLength(m: nat, k: nat)
    requires k >= 1 && m < Pow10(k)
    ensures |NatToString(m)| <= k
    decreases m
  {
    if m >= 10 {
      assert Pow10(1) == 10;
      assert k >= 2;
      assert m / 10 < Pow10(k - 1);
      RenderingLength(m / 10, k - 1);
    }
  }

  /** Whatever `int()` returns, `str()` writes back within the digit limit. */
  lemma ParsedIntFits(s: string)
    requires ParseInt(s).Some?
    ensures DecimalDigits(ParseInt(s).value) <= MaxStrDigits
  {
    var t := Strip(s);
    var b := if |t| > 0 && (t[0] == '+' || t[0] == '-') then t[1..] else t;
    assert WellFormedDigits(b) && DigitCount(b) <= MaxStrDigits;
    assert DigitCount(b) >= 1 by {
      assert IsDigit(b[|b| - 1]);
    }
    DigitsValueBound(b);
    RenderingLength(DigitsValue(b), DigitCount(b));
  }

  /** A digit run with nothing around it parses to its value, unless it has
      too many digits. */
  lemma PlainDigitsParse(t: string)
    requires WellFormedDigits(t)
    ensures ParseInt(t) == if DigitCount(t) <= MaxStrDigits then Some(DigitsValue(t)) else None
  {
    assert !IsSpace(t[0]) && !IsSpace(t[|t| - 1]);
    assert TrimLeft(t) == t;
    assert TrimRight(t) == t;
    assert Strip(t) == t;
    assert t[0] != '+' && t[0] != '-';
  }

  /** A minus sign before a digit run negates its value, within the same
      digit limit. */
  lemma NegatedDigitsParse(t: string)
    requires WellFormedDigits(t)
    ensures ParseInt("-" + t) == if DigitCount(t) <= MaxStrDigits then Some(0 - DigitsValue(t) as int) else None
  {
    var u := "-" + t;
    assert TrimLeft(u) == u;
    assert u[|u| - 1] == t[|t| - 1];
    assert TrimRight(u) == u;
    assert Strip(u) == u && u[0] == '-' && u[1..] == t;
  }

  /** `int(str(n)) == n` for every integer `str()` can write: the rendering
      the grid shows parses back to the same integer. Past the digit limit
      `int()` refuses the text. */
  lemma ParseIntRoundTrip(n: int)
    ensures DecimalDigits(n) <= MaxStrDigits ==> ParseInt(IntToString(n)) == Some(n)
    ensures DecimalDigits(n) > MaxStrDigits ==> ParseInt(IntToString(n)) == None
  {
    var m := if n < 0 then -n else n;
    NatToStringParses(m);
    NatToStringDigitCount(m);
    if n < 0 {
      NegatedDigitsParse(NatToString(m));
    } else {
      PlainDigitsParse(NatToString(m));
    }
  }

  /** A string that lacks the first character of `sub` does not contain `sub`. */
  lemma {:induction false} MissingFirstCharNotContained(s: string, sub: string)
    requires |sub| > 0 && sub[0] !in s
    ensures !Contains(s, sub)
    decreases |s|
  {
    if |s| > 0 {
      assert forall c :: c in s[1..] ==> c in s;
      MissingFirstCharNotContained(s[1..], sub);
    }
  }
}

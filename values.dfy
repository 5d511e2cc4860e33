/** The loosely typed values a product record holds after JSON decoding, and the Python
    built-ins the services apply to them: `isinstance`, truthiness, `int()`, `float()`,
    `str()` and `==`. */
module Values {
  import opened Wrappers
  import opened Text

  /** A JSON value as Python sees it: `None`, `bool`, `int`, `float`, `str` or a `dict`.
      Floats are exact reals. JSON arrays are not part of this model. */
  datatype RawValue =
    | Null
    | Bool(b: bool)
    | Int(i: int)
    | Real(r: real)
    | Str(s: string)
    | Obj(fields: map<string, RawValue>)

  /** A product record: field name to value. */
  type Record = map<string, RawValue>

  /** `d.get(k)`: the value under `k`, or `None`. */
  function Get(d: map<string, RawValue>, k: string): (v: RawValue)
    ensures k !in d ==> v == Null
    ensures k in d ==> v == d[k]
  {
    if k in d then d[k] else Null
  }

  /** `isinstance(v, (int, float))`; a Python `bool` is an `int`. */
  predicate IsNumber(v: RawValue) {
    v.Bool? || v.Int? || v.Real?
  }

  /** `isinstance(v, dict) and "value" in v` */
  predicate IsValueObject(v: RawValue) {
    v.Obj? && "value" in v.fields
  }

  /** Python truthiness. */
  predicate Truthy(v: RawValue) {
    match v
    case Null => false
    case Bool(b) => b
    case Int(i) => i != 0
    case Real(r) => r != 0.0
    case Str(s) => s != ""
    case Obj(f) => f != map[]
  }

  /** `int(r)` for a float: truncation toward zero. */
  function Truncate(r: real): (i: int)
    ensures r >= 0.0 ==> i as real <= r < i as real + 1.0
    ensures r < 0.0 ==> i as real - 1.0 < r <= i as real
  {
    if r >= 0.0 then r.Floor else -((-r).Floor)
  }

  /** `int(v)`: `None` where Python raises ValueError or TypeError. */
  function PyInt(v: RawValue): (r: Option<int>)
    ensures IsNumber(v) ==> r.Some?
    ensures v.Null? || v.Obj? ==> r.None?
  {
    match v
    case Null => None
    case Bool(b) => Some(if b then 1 else 0)
    case Int(i) => Some(i)
    case Real(x) => Some(Truncate(x))
    case Str(s) => ParseIntText(s)
    case Obj(_) => None
  }

  /** `float(v)`: `None` where Python raises ValueError or TypeError. */
  function PyFloat(v: RawValue): (r: Option<real>)
    ensures IsNumber(v) ==> r.Some?
    ensures v.Null? || v.Obj? ==> r.None?
  {
    match v
    case Null => None
    case Bool(b) => Some(if b then 1.0 else 0.0)
    case Int(i) => Some(i as real)
    case Real(x) => Some(x)
    case Str(s) => ParseFloatText(s)
    case Obj(_) => None
  }

  /** `float()` of a string is `float()` of its text. */
  lemma PyFloatText(s: string, x: real)
    requires ParseFloatText(s) == Some(x)
    ensures PyFloat(Str(s)) == Some(x)
  {
  }

  /** `float("1e3")` is 1000.0: an exponent scales the mantissa. */
  lemma ExponentTextConverts(s: string)
    requires |s| == 3 && s[0] == '1' && s[1] == 'e' && s[2] == '3'
    ensures PyFloat(Str(s)) == Some(1000.0)
  {
    StripNoEdgeSpace(s);
    NoUnderscoresBetween(s, 0);
    DropNoUnderscores(s);
    assert ExponentMark(s, 0) == 1;
    var mantissa, exponent := s[..1], s[2..];
    assert mantissa[0] == '1' && exponent[0] == '3';
    DigitRunExact(mantissa, 0, 1);
    assert mantissa[..1] == mantissa && mantissa[..0] == [];
    assert DigitsValue(mantissa) == 1;
    assert MantissaValue(mantissa) == 1.0;
    assert ExponentValue(exponent) == Some(3);
    assert Scale(3) == 1000.0;
  }

  /** `int("1_000")` is 1000: an underscore between digits is dropped. */
  lemma UnderscoredTextConverts(s: string)
    requires |s| == 5 && s[0] == '1' && s[1] == '_' && s[2] == '0' && s[3] == '0' && s[4] == '0'
    ensures PyInt(Str(s)) == Some(1000)
  {
    StripNoEdgeSpace(s);
    DropSecondUnderscore(s);
    NoUnderscoresBetween(s, 2);
    assert UnderscoresBetweenDigits(s, 1);
    assert UnderscoresBetweenDigits(s, 0);
    var digits := [s[0]] + s[2..];
    assert digits[0] == '1' && digits[1] == '0' && digits[2] == '0' && digits[3] == '0';
    ThousandValue(digits);
    assert ParseIntText(s) == Some(DigitsValue(digits) as int);
  }

  /** Dropping the underscores of a text whose only underscore is its second character. */
  lemma DropSecondUnderscore(s: string)
    requires |s| >= 2 && s[0] != '_' && s[1] == '_'
    requires forall k :: 2 <= k < |s| ==> s[k] != '_'
    ensures DropUnderscores(s) == [s[0]] + s[2..]
  {
    var rest := s[2..];
    assert forall k :: 0 <= k < |rest| ==> rest[k] == s[k + 2];
    DropNoUnderscores(rest);
    assert s[1..][0] == '_' && s[1..][1..] == rest;
  }

  /** The digits "1000" have the value 1000. */
  lemma ThousandValue(d: string)
    requires |d| == 4 && d[0] == '1' && d[1] == '0' && d[2] == '0' && d[3] == '0'
    ensures AllDigits(d) && DigitsValue(d) == 1000
  {
    assert d[..1][..0] == [] && d[..2][..1] == d[..1] && d[..3][..2] == d[..2] && d[..4] == d;
    assert DigitsValue(d[..1]) == 1;
    assert DigitsValue(d[..2]) == 10;
    assert DigitsValue(d[..3]) == 100;
  }

  /** The first `n` decimal digits of a fraction in [0, 1). */
  function FractionDigits(x: real, n: nat): (r: string)
    requires 0.0 <= x < 1.0
    ensures |r| == n && AllDigits(r)
    decreases n
  {
    if n == 0 then []
    else
      var d := (x * 10.0).Floor;
      [DigitChar(d)] + FractionDigits(x * 10.0 - d as real, n - 1)
  }

  /** Drops trailing zeros, keeping at least one digit. */
  function DropTrailingZeros(s: string): (r: string)
    requires |s| >= 1
    ensures 1 <= |r| <= |s| && r == s[..|r|]
  {
    if |s| > 1 && s[|s| - 1] == '0' then DropTrailingZeros(s[..|s| - 1]) else s
  }

  /** `str(r)` for a float in positional notation with up to 16 fractional digits, as in
      `2000.0` or `1.6`. */
  function FloatToString(r: real): (s: string)
    ensures '.' in s
  {
    var a := if r < 0.0 then -r else r;
    var whole := a.Floor;
    var frac := DropTrailingZeros(FractionDigits(a - whole as real, 16));
    var body := NatToString(whole) + "." + frac;
    assert body[|NatToString(whole)|] == '.';
    if r < 0.0 then "-" + body else body
  }

  /** `str(v)`. A dict is rendered by a fixed stand-in for its `repr`. */
  function PyStr(v: RawValue): (s: string)
    ensures v.Str? ==> s == v.s
  {
    match v
    case Null => "None"
    case Bool(b) => if b then "True" else "False"
    case Int(i) => IntToString(i)
    case Real(x) => FloatToString(x)
    case Str(t) => t
    case Obj(f) => if f == map[] then "{}" else "{...}"
  }

  /** Python `==` between two JSON values: numbers compare by value across bool, int
      and float; strings, `None` and dicts compare structurally. */
  predicate PyEq(a: RawValue, b: RawValue) {
    match (a, b)
    case (Null, Null) => true
    case (Str(s), Str(t)) => s == t
    case (Obj(f), Obj(g)) =>
      f.Keys == g.Keys && forall k :: k in f ==> PyEq(f[k], g[k])
    case _ =>
      IsNumber(a) && IsNumber(b) && PyFloat(a).value == PyFloat(b).value
  }

  /** `==` is reflexive on JSON values. */
  lemma {:induction false} PyEqReflexive(v: RawValue)
    ensures PyEq(v, v)
  {
    match v
    case Obj(f) =>
      forall k | k in f ensures PyEq(f[k], f[k]) {
        PyEqReflexive(f[k]);
      }
    case _ =>
  }

  /** `==` is symmetric on JSON values. */
  lemma {:induction false} PyEqSymmetric(a: RawValue, b: RawValue)
    requires PyEq(a, b)
    ensures PyEq(b, a)
  {
    match (a, b)
    case (Obj(f), Obj(g)) =>
      forall k | k in g ensures PyEq(g[k], f[k]) {
        PyEqSymmetric(f[k], g[k]);
      }
    case _ =>
  }

  /** `1 == 1.0 == True` in Python. */
  lemma NumericTowerEquality()
    ensures PyEq(Int(1), Real(1.0)) && PyEq(Real(1.0), Bool(true))
    ensures !PyEq(Int(1), Str("1"))
  {
  }
}

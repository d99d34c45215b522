/**
 * JSON-like values as the RamSleuth sources hold them in dictionaries, with the
 * Python semantics the sources apply to them: truthiness, `a or b or c` chains,
 * str(), == between numbers of different types, and float().
 */
module Values {
  import opened Outcome
  import opened Text

  datatype Json =
    | Null
    | Bool(b: bool)
    | Int(i: int)
    | Real(r: real)
    | Str(s: string)
    | List(items: seq<Json>)
    | Object(fields: map<string, Json>)

  /** A DIMM record or a database entry: a Python dict with string keys. */
  type Record = map<string, Json>

  /** Python's d.get(k): None when the key is absent. */
  function Get(d: Record, k: string): Json
  {
    if k in d then d[k] else Null
  }

  /** Python's d.get(k, default). */
  function GetOr(d: Record, k: string, default: Json): Json
  {
    if k in d then d[k] else default
  }

  /** Python's bool(v): the falsy values are exactly None, False, 0, 0.0, "", [] and {}. */
  predicate Truthy(v: Json)
    ensures !Truthy(v) <==>
      v == Null || v == Bool(false) || v == Int(0) || v == Real(0.0) || v == Str("") || v == List([]) || v == Object(map[])
  {
    match v
    case Null => false
    case Bool(b) => b
    case Int(i) => i != 0
    case Real(r) => r != 0.0
    case Str(s) => s != ""
    case List(items) => items != []
    case Object(fields) => fields != map[]
  }

  /** Python's `v0 or v1 or ... or vn`: the first truthy operand, else the last one. */
  function FirstTruthy(vs: seq<Json>): (r: Json)
    requires vs != []
    ensures r in vs
    ensures Truthy(r) <==> exists k :: 0 <= k < |vs| && Truthy(vs[k])
  {
    if |vs| == 1 || Truthy(vs[0]) then vs[0] else FirstTruthy(vs[1..])
  }

  /** The `d.get(k0) or d.get(k1) or ...` chain over a list of keys. */
  function GetFirst(d: Record, keys: seq<string>): Json
    requires keys != []
  {
    FirstTruthy(seq(|keys|, i requires 0 <= i < |keys| => Get(d, keys[i])))
  }

  /** The numeric value of a bool, int or float (Python's bool is an int). */
  function NumValue(v: Json): Option<real>
  {
    match v
    case Bool(b) => Some(if b then 1.0 else 0.0)
    case Int(i) => Some(i as real)
    case Real(r) => Some(r)
    case _ => None
  }

  /**
   * Python's a == b: numbers compare by value across bool, int and float, lists
   * element by element, dicts key by key; any other pair only when identical.
   */
  predicate PyEq(a: Json, b: Json)
    ensures a == b ==> PyEq(a, b)
    decreases a
  {
    if NumValue(a).Some? && NumValue(b).Some? then NumValue(a).value == NumValue(b).value
    else
      match (a, b)
      case (List(xs), List(ys)) => |xs| == |ys| && forall i :: 0 <= i < |xs| ==> PyEq(xs[i], ys[i])
      case (Object(f), Object(g)) => f.Keys == g.Keys && forall k :: k in f ==> PyEq(f[k], g[k])
      case _ => a == b
  }

  /** Python's == is symmetric. */
  lemma {:induction false} PyEqSymmetric(a: Json, b: Json)
    ensures PyEq(a, b) <==> PyEq(b, a)
    decreases a
  {
    match (a, b)
    case (List(xs), List(ys)) =>
      if |xs| == |ys| {
        forall i | 0 <= i < |xs| ensures PyEq(xs[i], ys[i]) <==> PyEq(ys[i], xs[i]) {
          PyEqSymmetric(xs[i], ys[i]);
        }
      }
    case (Object(f), Object(g)) =>
      if f.Keys == g.Keys {
        forall k | k in f ensures PyEq(f[k], g[k]) <==> PyEq(g[k], f[k]) {
          PyEqSymmetric(f[k], g[k]);
        }
      }
    case _ =>
  }

  /** Without numbers or containers on both sides, Python's == is identity of values. */
  lemma PyEqPlain(a: Json, b: Json)
    requires !(NumValue(a).Some? && NumValue(b).Some?)
    requires !(a.List? && b.List?) && !(a.Object? && b.Object?)
    ensures PyEq(a, b) <==> a == b
  {
  }

  /** Numbers inside lists and dicts compare by value too: [1] == [1.0] and {"a": 1} == {"a": 1.0}. */
  lemma PyEqNested()
    ensures PyEq(List([Int(1)]), List([Real(1.0)]))
    ensures PyEq(Object(map["a" := Int(1)]), Object(map["a" := Real(1.0)]))
    ensures !PyEq(List([Int(1)]), List([Int(1), Int(1)]))
  {
    assert PyEq(Int(1), Real(1.0));
    assert [Int(1)][0] == Int(1) && [Real(1.0)][0] == Real(1.0);
    assert map["a" := Int(1)]["a"] == Int(1);
  }

  predicate IsWhole(x: real)
  {
    x.Floor as real == x
  }

  /** The fewest decimal places, from k up to 15, that x needs. */
  function DecimalPlaces(x: real, k: nat): (r: Option<nat>)
    requires k <= 16
    ensures r.Some? ==> k <= r.value <= 15
    decreases 16 - k
  {
    if k == 16 then None
    else if IsWhole(x * Pow10(k) as real) then Some(k)
    else DecimalPlaces(x, k + 1)
  }

  /** `digits` left-padded with zeros to at least `width` characters. */
  function PadZeros(digits: string, width: nat): (r: string)
    ensures |r| >= width && |r| >= |digits|
    decreases width - |digits|
  {
    if |digits| >= width then digits else PadZeros("0" + digits, width)
  }

  /**
   * Python's repr of a float, for the values it writes in fixed notation: a non-zero
   * magnitude from 0.0001 up, at most 15 significant digits and at most 15 decimal
   * places. Other floats get None: their rendering is not modelled.
   */
  function RealText(x: real): Option<string>
  {
    var a := if x < 0.0 then -x else x;
    match DecimalPlaces(a, 0)
    case None => None
    case Some(k) =>
      var n := (a * Pow10(k) as real).Floor;
      if n < 0 || n >= Pow10(15) || (a != 0.0 && a < 0.0001) then None
      else
        var digits := PadZeros(NatToString(n), k + 1);
        var whole := digits[..|digits| - k];
        var frac := if k == 0 then "0" else digits[|digits| - k..];
        Some((if x < 0.0 then "-" else "") + whole + "." + frac)
  }

  /** Python's str(v); None where the rendering is not modelled (lists, dicts, some floats). */
  function PyStr(v: Json): (r: Option<string>)
    ensures v.Str? ==> r == Some(v.s)
    ensures v.Int? && v.i >= 0 ==> r.Some? && IsDigitString(r.value) && DecimalValue(r.value) == v.i
    ensures v.Int? && v.i < 0 ==>
      r.Some? && |r.value| > 1 && r.value[0] == '-' && IsDigitString(r.value[1..]) && DecimalValue(r.value[1..]) == -v.i
    ensures v.List? || v.Object? ==> r.None?
  {
    match v
    case Null => Some("None")
    case Bool(b) => Some(if b then "True" else "False")
    case Int(i) => Some(IntToString(i))
    case Real(r) => RealText(r)
    case Str(s) => Some(s)
    case _ => None
  }

  /** str(v), or "" where the rendering is not modelled. */
  function TextOf(v: Json): string
  {
    PyStr(v).GetOr("")
  }

  /** A digit string is already stripped, unsigned, one run of digits, and its numeral is its value. */
  lemma DigitStringParts(s: string)
    ensures IsDigitString(s) ==>
      Strip(s) == s && s[0] != '-' && s[0] != '+' && RunEnd(s, 0, IsDigit) == |s| &&
      NumeralValue(s) == DecimalValue(s) as real
  {
    DigitsTrimmed(s);
    NumeralOfDigits(s);
    if IsDigitString(s) {
      assert IsDigit(s[0]);
    }
  }

  /** Python's float(s) for a string: optional sign, then digits with an optional fraction. */
  function ParseFloat(s: string): (r: Option<real>)
    ensures IsDigitString(s) ==> r == Some(DecimalValue(s) as real)
    ensures r.Some? ==> Strip(s) != []
  {
    DigitStringParts(s);
    var t := Strip(s);
    var sign := if t != [] && t[0] == '-' then -1.0 else 1.0;
    var u := if t != [] && (t[0] == '-' || t[0] == '+') then t[1..] else t;
    var e := RunEnd(u, 0, IsDigit);
    if e == |u| && e > 0 then Some(sign * NumeralValue(u))
    else if e < |u| && u[e] == '.' && RunEnd(u, e + 1, IsDigit) == |u| && |u| > 1 then
      Some(sign * NumeralValue(u))
    else None
  }

  /** Python's float(v); None where Python raises TypeError or ValueError. */
  function PyFloat(v: Json): (r: Option<real>)
    ensures NumValue(v).Some? ==> r == NumValue(v)
    ensures v.Null? || v.List? || v.Object? ==> r.None?
  {
    match v
    case Str(s) => ParseFloat(s)
    case _ => NumValue(v)
  }
}

/** The JavaScript values the application handles (parsed JSON, form values,
    component state) and the few language operators it relies on: truthiness,
    `||`, `??`, optional chaining, strict equality, numeric coercion,
    multiplication and string conversion. */
module Js {
  import opened Optional

  /** A JavaScript value. Numbers are exact reals; `NaN` is kept apart because
      the application can produce it (`undefined * 3`). */
  datatype JsValue =
    | Undefined
    | Null
    | Bool(b: bool)
    | Num(n: real)
    | NaN
    | Str(s: string)
    | Arr(items: seq<JsValue>)
    | Obj(fields: map<string, JsValue>)

  /** A plain object: its own properties by name. */
  type JsObject = map<string, JsValue>

  /** The result of evaluating an expression that may throw. */
  datatype Completion = Normal(value: JsValue) | Throw(error: string)

  const TypeError := "TypeError"

  /** `!!v` */
  predicate Truthy(v: JsValue) {
    match v
    case Undefined => false
    case Null => false
    case NaN => false
    case Bool(b) => b
    case Num(n) => n != 0.0
    case Str(s) => s != ""
    case Arr(_) => true
    case Obj(_) => true
  }

  /** `v === null || v === undefined` */
  predicate Nullish(v: JsValue) {
    v.Undefined? || v.Null?
  }

  /** `typeof v === 'number'` */
  predicate IsNumber(v: JsValue) {
    v.Num? || v.NaN?
  }

  /** `typeof v === 'object'` (true of `null` as well) */
  predicate IsObjectType(v: JsValue) {
    v.Null? || v.Arr? || v.Obj?
  }

  /** `a || b` */
  function Or(a: JsValue, b: JsValue): JsValue {
    if Truthy(a) then a else b
  }

  /** `a ?? b` */
  function Coalesce(a: JsValue, b: JsValue): JsValue {
    if Nullish(a) then b else a
  }

  /** `o.key` on a plain object; a missing property reads as `undefined`. */
  function Get(o: JsObject, key: string): JsValue {
    if key in o then o[key] else Undefined
  }

  /** `v?.key`: `undefined` on a nullish base, the own property on an object,
      and `undefined` on the other values (the keys the application reads are
      none of the built-in properties of strings, numbers or arrays). */
  function OptGet(v: JsValue, key: string): JsValue {
    if v.Obj? then Get(v.fields, key) else Undefined
  }

  /** `a === b`; NaN equals nothing, not even itself. */
  predicate StrictEquals(a: JsValue, b: JsValue) {
    a == b && !a.NaN?
  }

  // ---- decimal digits -------------------------------------------------------

  predicate IsDigit(c: char) {
    '0' <= c <= '9'
  }

  predicate AllDigits(s: string) {
    forall i :: 0 <= i < |s| ==> IsDigit(s[i])
  }

  function DigitValue(c: char): nat
    requires IsDigit(c)
  {
    (c as int) - ('0' as int)
  }

  function DigitChar(d: nat): (c: char)
    requires d < 10
    ensures IsDigit(c) && DigitValue(c) == d
  {
    (('0' as int) + d) as char
  }

  /** The decimal spelling of a natural number, without leading zeros. */
  function NatToDecimal(n: nat): (s: string)
    ensures |s| >= 1 && AllDigits(s)
    ensures s[0] == '0' ==> s == "0"
  {
    if n < 10 then [DigitChar(n)] else NatToDecimal(n / 10) + [DigitChar(n % 10)]
  }

  /** `parseInt(s, 10)` on a string of decimal digits (the empty string reads
      as 0, as `Number('')` does). */
  function ParseNat(s: string): nat
    requires AllDigits(s)
  {
    if s == [] then 0 else 10 * ParseNat(s[..|s| - 1]) + DigitValue(s[|s| - 1])
  }

  /** Reading back the decimal spelling of n gives n. */
  lemma {:induction false} ParseNatToDecimal(n: nat)
    ensures ParseNat(NatToDecimal(n)) == n
  {
    var s := NatToDecimal(n);
    if n >= 10 {
      var prefix := NatToDecimal(n / 10);
      assert s[..|s| - 1] == prefix;
      ParseNatToDecimal(n / 10);
    }
  }

  /** The decimal spelling of an integer, with a leading '-' when negative. */
  function IntToDecimal(i: int): (s: string)
    ensures |s| >= 1
  {
    if i < 0 then "-" + NatToDecimal(-i) else NatToDecimal(i)
  }

  // ---- numbers to strings ---------------------------------------------------

  /** How many fractional digits NumberToString writes at most. */
  const MaxFractionDigits: nat := 20

  /** The digits after the decimal point of a fraction 0 <= f < 1, stopping at
      the first zero remainder or after `fuel` digits. */
  function FractionDigits(f: real, fuel: nat): (s: string)
    requires 0.0 <= f < 1.0
    ensures AllDigits(s) && |s| <= fuel
    decreases fuel
  {
    if f == 0.0 || fuel == 0 then ""
    else
      var t := f * 10.0;
      var d := t.Floor;
      [DigitChar(d)] + FractionDigits(t - d as real, fuel - 1)
  }

  function UnsignedNumberToString(x: real): (s: string)
    requires x >= 0.0
    ensures x == x.Floor as real ==> s == NatToDecimal(x.Floor)
  {
    var whole := x.Floor;
    var fraction := x - whole as real;
    NatToDecimal(whole) + (if fraction == 0.0 then "" else "." + FractionDigits(fraction, MaxFractionDigits))
  }

  /** `String(x)` for a number: the integer part in decimal, then the
      fractional digits, if any, after a '.'. */
  function NumberToString(x: real): (s: string)
    ensures x == x.Floor as real ==> s == IntToDecimal(x.Floor)
  {
    if x < 0.0 then
      assert x == x.Floor as real ==> (-x).Floor == -x.Floor;
      "-" + UnsignedNumberToString(-x)
    else UnsignedNumberToString(x)
  }

  /** `parts.join(sep)` */
  function Join(parts: seq<string>, sep: string): string {
    if |parts| == 0 then ""
    else if |parts| == 1 then parts[0]
    else parts[0] + sep + Join(parts[1..], sep)
  }

  /** `String(v)`, which template literals and `encodeURIComponent` apply to
      their operands. */
  function ToJsString(v: JsValue): string
    decreases v
  {
    match v
    case Undefined => "undefined"
    case Null => "null"
    case Bool(b) => if b then "true" else "false"
    case Num(n) => NumberToString(n)
    case NaN => "NaN"
    case Str(s) => s
    case Arr(items) =>
      Join(seq(|items|, i requires 0 <= i < |items| =>
                          if Nullish(items[i]) then "" else ToJsString(items[i])), ",")
    case Obj(_) => "[object Object]"
  }

  // ---- numeric coercion -----------------------------------------------------

  /** `Number(v)`, with `None` for NaN. Strings are converted when they are
      plain decimal digit strings (the empty string gives 0); an array is
      converted through its string form, so `[]` gives 0 and `[7]` gives 7. */
  function ToNumber(v: JsValue): Option<real> {
    match v
    case Num(n) => Some(n)
    case Null => Some(0.0)
    case Bool(b) => Some(if b then 1.0 else 0.0)
    case Str(s) => DigitsToNumber(s)
    case Arr(_) => DigitsToNumber(ToJsString(v))
    case _ => None
  }

  /** `Number([])` is 0, `Number([n])` is n, and an array of two numbers,
      whose string form holds a comma, is NaN. */
  lemma ArrayToNumber(n: nat)
    ensures ToNumber(Arr([])) == Some(0.0)
    ensures ToNumber(Arr([Num(n as real)])) == Some(n as real)
    ensures ToNumber(Arr([Num(n as real), Num(n as real)])).None?
  {
    var digits := NatToDecimal(n);
    assert NumberToString(n as real) == digits;
    ParseNatToDecimal(n);
    var one := seq(1, i requires 0 <= i < 1 => ToJsString(Num(n as real)));
    assert ToJsString(Arr([Num(n as real)])) == Join(one, ",") == digits;
    var pair := [Num(n as real), Num(n as real)];
    var two := seq(|pair|, i requires 0 <= i < |pair| => if Nullish(pair[i]) then "" else ToJsString(pair[i]));
    assert two == [digits, digits];
    assert Join(two, ",") == digits + "," + Join([digits], ",");
    assert ToJsString(Arr(pair)) == digits + "," + digits;
    assert !IsDigit((digits + "," + digits)[|digits|]);
  }

  /** `Number(s)` for the strings the model converts: plain decimal digits. */
  function DigitsToNumber(s: string): Option<real> {
    if AllDigits(s) then Some(ParseNat(s) as real) else None
  }

  /** `v * k` for an integer k. */
  function Multiply(v: JsValue, k: int): (r: JsValue)
    ensures r.Num? <==> ToNumber(v).Some?
    ensures v.Num? ==> r == Num(v.n * k as real)
  {
    match ToNumber(v)
    case Some(x) => Num(x * k as real)
    case None => NaN
  }
}

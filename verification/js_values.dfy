/**
 * The fragment of JavaScript values that the agent's background worker
 * reads and builds: JSON-shaped data plus `undefined`, the truthiness test
 * behind every `||`, `?.` and `if (x)` of the worker, property reads, and
 * the string coercion that template literals and `join` apply.
 * Numbers are modelled as integers.
 */
module JsValues {
  datatype Json =
    | Undefined
    | Null
    | Bool(b: bool)
    | Num(n: int)
    | Str(s: string)
    | Arr(items: seq<Json>)
    | Obj(fields: map<string, Json>)

  /** JavaScript truthiness: `undefined`, `null`, `false`, `0` and `''` are falsy. */
  predicate Truthy(v: Json) {
    match v
    case Undefined => false
    case Null => false
    case Bool(b) => b
    case Num(n) => n != 0
    case Str(s) => s != ""
    case Arr(_) => true
    case Obj(_) => true
  }

  /** `null` or `undefined`: the values on which a plain property access throws. */
  predicate Nullish(v: Json) {
    v.Undefined? || v.Null?
  }

  /**
   * The property read `v?.k` for the data keys the worker reads: an own key of
   * an object, and `undefined` for every other value (primitives and arrays have
   * no such own data property).
   */
  function Get(v: Json, k: string): Json {
    if v.Obj? && k in v.fields then v.fields[k] else Undefined
  }

  /** `a || b` */
  function Or(a: Json, b: Json): Json {
    if Truthy(a) then a else b
  }

  /** `a?.[0]`: the first element of an array, the own key "0" of an object. */
  function Index0(v: Json): Json {
    match v
    case Arr(items) => if |items| > 0 then items[0] else Undefined
    case Obj(fields) => if "0" in fields then fields["0"] else Undefined
    case Str(s) => if |s| > 0 then Str([s[0]]) else Undefined
    case _ => Undefined
  }

  /** Builds a JavaScript object literal from key/value pairs. */
  function Object1(k: string, v: Json): Json {
    Obj(map[k := v])
  }

  function Object2(k1: string, v1: Json, k2: string, v2: Json): Json {
    Obj(map[k1 := v1, k2 := v2])
  }

  function Object3(k1: string, v1: Json, k2: string, v2: Json, k3: string, v3: Json): Json {
    Obj(map[k1 := v1, k2 := v2, k3 := v3])
  }

  function DigitChar(d: nat): (c: char)
    requires d < 10
    ensures '0' <= c <= '9'
  {
    "0123456789"[d]
  }

  function NatToString(n: nat): (s: string)
    ensures |s| >= 1
    ensures forall i :: 0 <= i < |s| ==> '0' <= s[i] <= '9'
    decreases n
  {
    if n < 10 then [DigitChar(n)] else NatToString(n / 10) + [DigitChar(n % 10)]
  }

  /** Decimal rendering of an integer, as `${n}` produces it. */
  function IntToString(n: int): string {
    if n < 0 then "-" + NatToString(-n) else NatToString(n)
  }

  /** The string coercion `String(v)` applied by template literals and `join`. */
  function ToJsString(v: Json): string
    decreases v, 1
  {
    match v
    case Undefined => "undefined"
    case Null => "null"
    case Bool(b) => if b then "true" else "false"
    case Num(n) => IntToString(n)
    case Str(s) => s
    case Arr(items) => JoinElements(v, items)
    case Obj(_) => "[object Object]"
  }

  /**
   * `Array.prototype.toString` of `whole`, whose elements are `items`: the
   * elements joined by ',', with `null` and `undefined` rendered as ''.
   */
  function JoinElements(whole: Json, items: seq<Json>): string
    requires whole.Arr? && forall x :: x in items ==> x < whole
    decreases whole, 0, |items|
  {
    if items == [] then ""
    else
      assert items[0] in items;
      assert forall x :: x in items[1..] ==> x in items;
      var first := if Nullish(items[0]) then "" else ToJsString(items[0]);
      if |items| == 1 then first else first + "," + JoinElements(whole, items[1..])
  }

  predicate StartsWith(s: string, prefix: string) {
    |prefix| <= |s| && s[..|prefix|] == prefix
  }

  /** `s.includes(sub)` */
  predicate Contains(s: string, sub: string)
    decreases |s|
  {
    StartsWith(s, sub) || (|s| > 0 && Contains(s[1..], sub))
  }

  /** Reading back the decimal rendering of a natural number. */
  function ParseNat(s: string): nat
    requires forall i :: 0 <= i < |s| ==> '0' <= s[i] <= '9'
    decreases |s|
  {
    if s == [] then 0 else ParseNat(s[..|s| - 1]) * 10 + (s[|s| - 1] as int - '0' as int)
  }

  /** The decimal rendering of a status code or number reads back as that number. */
  lemma {:induction false} NatToStringRoundTrip(n: nat)
    ensures ParseNat(NatToString(n)) == n
    decreases n
  {
    if n >= 10 {
      var s := NatToString(n);
      assert s[..|s| - 1] == NatToString(n / 10);
      NatToStringRoundTrip(n / 10);
    }
  }
}

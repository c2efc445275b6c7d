/**
 * The JavaScript values that the integration receives as decoded JSON, with the two
 * operations of the language the core relies on: reading a property (`value.key`)
 * and converting a value to a string (`String(value)`, as `new Error(value)` does).
 */
module JsValues {
  import opened Wrappers

  datatype Json =
    | JUndefined
    | JNull
    | JBool(b: bool)
    | JNum(n: int)
    | JStr(s: string)
    | JArr(items: seq<Json>)
    | JObj(fields: map<string, Json>)

  /**
   * `value.key`: throws a TypeError on `null` and `undefined`; arrays and strings
   * have a `length`; an object yields its own field or `undefined`.
   */
  function Property(value: Json, key: string): (r: Result<Json, string>)
    ensures r.Failure? <==> value.JUndefined? || value.JNull?
    ensures r.Failure? ==> StartsWith(r.error, "Cannot read properties of ")
    ensures value.JObj? ==> r == Success(if key in value.fields then value.fields[key] else JUndefined)
    ensures value.JArr? && key == "length" ==> r == Success(JNum(|value.items|))
  {
    match value
    case JUndefined => Failure("Cannot read properties of undefined (reading '" + key + "')")
    case JNull => Failure("Cannot read properties of null (reading '" + key + "')")
    case JArr(xs) => Success(if key == "length" then JNum(|xs|) else JUndefined)
    case JStr(s) => Success(if key == "length" then JNum(|s|) else JUndefined)
    case JObj(m) => Success(if key in m then m[key] else JUndefined)
    case _ => Success(JUndefined)
  }

  function DigitChar(d: nat): char
    requires d < 10
  {
    "0123456789"[d]
  }

  /** The decimal text of a natural number. */
  function NatText(n: nat): (r: string)
    ensures |r| >= 1
    ensures forall i :: 0 <= i < |r| ==> '0' <= r[i] <= '9'
  {
    if n < 10 then [DigitChar(n)] else NatText(n / 10) + [DigitChar(n % 10)]
  }

  /** The decimal text of an integer, as `String(n)` prints it. */
  function IntText(n: int): string {
    if n < 0 then "-" + NatText(-n) else NatText(n)
  }

  /** `String(value)`; an array is the comma-joined text of its elements, with `null` and `undefined` as "". */
  function ToText(value: Json): string
    decreases value, 1
  {
    match value
    case JUndefined => "undefined"
    case JNull => "null"
    case JBool(b) => if b then "true" else "false"
    case JNum(n) => IntText(n)
    case JStr(s) => s
    case JArr(xs) => JoinItems(value, xs)
    case JObj(_) => "[object Object]"
  }

  function JoinItems(owner: Json, xs: seq<Json>): string
    requires owner.JArr? && forall x :: x in xs ==> x in owner.items
    decreases owner, 0, |xs|
  {
    if xs == [] then ""
    else
      assert xs[0] in owner.items;
      var head := if xs[0].JUndefined? || xs[0].JNull? then "" else ToText(xs[0]);
      if |xs| == 1 then head else head + "," + JoinItems(owner, xs[1..])
  }

  /** The `message` of `new Error(value)`: empty for `undefined`, otherwise `String(value)`. */
  function ErrorMessage(value: Json): string {
    if value.JUndefined? then "" else ToText(value)
  }
}

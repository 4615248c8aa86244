/**
 * The JavaScript values the client code handles: request payloads, parsed
 * response bodies and thrown values, with the language's truthiness and its
 * string conversion (`String(x)`, also what `new Error(x)` stores).
 */
module Js {
  import opened Wrappers

  /** A JSON-like JavaScript value. Numbers are integers here. */
  datatype JsValue =
    | Undefined
    | Null
    | Bool(b: bool)
    | Number(n: int)
    | Str(s: string)
    | Array(items: seq<JsValue>)
    | Object(props: map<string, JsValue>)

  /** What `if (v)` and `v ? a : b` test: everything except `undefined`,
      `null`, `false`, `0` and `""` is truthy; every array and object is. */
  predicate Truthy(v: JsValue) {
    match v
    case Undefined => false
    case Null => false
    case Bool(b) => b
    case Number(n) => n != 0
    case Str(s) => s != ""
    case Array(_) => true
    case Object(_) => true
  }

  /** `localStorage.getItem` answers a string or `null`. */
  function FromItem(item: Option<string>): (v: JsValue)
    ensures v == Null || v.Str?
  {
    match item
    case None => Null
    case Some(s) => Str(s)
  }

  /** Truthiness of a stored item: present and not the empty string. */
  lemma TruthyItem(item: Option<string>)
    ensures Truthy(FromItem(item)) <==> item.Some? && item.value != ""
  {
  }

  /** The result of reading property `name` of `v` (`v.name`); a read on
      `null` or `undefined` throws, which is `None` here. Arrays and primitive
      values have no own properties the client reads, so they give `undefined`. */
  function GetProperty(v: JsValue, name: string): (r: Option<JsValue>)
    ensures r.None? <==> v == Null || v == Undefined
  {
    match v
    case Null => None
    case Undefined => None
    case Object(props) => Some(if name in props then props[name] else Undefined)
    case _ => Some(Undefined)
  }

  function DigitChar(d: nat): (c: char)
    requires d < 10
    ensures '0' <= c <= '9'
  {
    "0123456789"[d]
  }

  /** Decimal digits of a natural number, without leading zeros. */
  function NatToString(n: nat): (r: string)
    ensures r != []
    ensures forall k :: 0 <= k < |r| ==> '0' <= r[k] <= '9'
    ensures r[0] == '0' ==> n == 0
  {
    if n < 10 then [DigitChar(n)] else NatToString(n / 10) + [DigitChar(n % 10)]
  }

  /** The value a string of decimal digits denotes. */
  function DigitsValue(s: string): nat
    requires forall k :: 0 <= k < |s| ==> '0' <= s[k] <= '9'
  {
    if s == [] then 0 else DigitsValue(s[..|s| - 1]) * 10 + (s[|s| - 1] as int - '0' as int)
  }

  /** Reading the digits back gives the number. */
  lemma {:induction false} NatToStringValue(n: nat)
    ensures DigitsValue(NatToString(n)) == n
  {
    if n >= 10 {
      var s := NatToString(n);
      assert s[..|s| - 1] == NatToString(n / 10);
      NatToStringValue(n / 10);
    }
  }

  /** `String(n)` for an integer `n`. */
  function NumberToString(n: int): (r: string)
    ensures r != [] && (r[0] == '-' <==> n < 0)
  {
    if n < 0 then "-" + NatToString(-n) else NatToString(n)
  }

  /** `String(v)`. */
  function ToJsString(v: JsValue): string
    decreases v
  {
    match v
    case Undefined => "undefined"
    case Null => "null"
    case Bool(b) => if b then "true" else "false"
    case Number(n) => NumberToString(n)
    case Str(s) => s
    case Array(items) => JoinElements(items)
    case Object(_) => "[object Object]"
  }

  /** `Array.prototype.join(",")`: `null` and `undefined` elements become "". */
  function JoinElements(items: seq<JsValue>): string
    decreases items
  {
    if items == [] then ""
    else
      var first := if items[0] == Null || items[0] == Undefined then "" else ToJsString(items[0]);
      if |items| == 1 then first else first + "," + JoinElements(items[1..])
  }

  /** Values thrown by the client code or by the platform under it. */
  datatype Exception =
    | Error(message: string)        // new Error(message)
    | TypeError(reading: string)    // a property read on null or undefined
    | SyntaxError                   // response.json() on a body that is not JSON
    | Thrown(value: JsValue)        // any other value passed to throw or reject
}

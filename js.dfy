/**
 * The JavaScript values that reach the handlers from parsed JSON request
 * bodies, with the language's truthiness and `String(...)` conversion.
 */
module Js {
  import opened Text

  /**
   * A JSON-derived value. Numbers are integers; an object or array is kept
   * only as the text `String(...)` gives for it.
   */
  datatype JsValue =
    | Undefined
    | Null
    | Bool(b: bool)
    | Number(n: int)
    | Str(s: string)
    | Object(shown: string)

  /** JavaScript truthiness (`if (v)`, `!v`). */
  predicate Truthy(v: JsValue) {
    match v
    case Undefined => false
    case Null => false
    case Bool(b) => b
    case Number(n) => n != 0
    case Str(s) => s != ""
    case Object(_) => true
  }

  predicate IsNullish(v: JsValue) { v.Undefined? || v.Null? }

  function IntToString(n: int): string {
    if n < 0 then "-" + Decimal(-n) else Decimal(n)
  }

  /** `String(v)`. */
  function ToJsString(v: JsValue): string {
    match v
    case Undefined => "undefined"
    case Null => "null"
    case Bool(b) => if b then "true" else "false"
    case Number(n) => IntToString(n)
    case Str(s) => s
    case Object(shown) => shown
  }

  /** A JSON object's entries, in `Object.entries` order. */
  type Entries = seq<(string, JsValue)>

  /** Property lookup; a missing key reads as `undefined`. */
  function Get(obj: Entries, key: string): JsValue {
    if obj == [] then Undefined
    else if obj[0].0 == key then obj[0].1
    else Get(obj[1..], key)
  }

  predicate DistinctKeys(obj: Entries) {
    forall i, j :: 0 <= i < j < |obj| ==> obj[i].0 != obj[j].0
  }
}

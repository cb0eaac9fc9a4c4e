/**
 * The JavaScript values the automation layer passes around, and the two
 * JavaScript rules its branches depend on: truthiness (`if (x)`, `!x`, `&&`)
 * and string conversion (a template literal or `String.replace` argument).
 *
 * Only the shapes the layer actually meets are represented: the two "no value"
 * values, booleans, strings, a live driver element (or an array of them), and
 * the `{width, height}` / `{x, y}` records the driver reports for sizes and
 * locations.
 */
module Js {

  datatype Value =
    | Undefined
    | Null
    | Bool(b: bool)
    | Str(s: string)
    | Element(id: nat)            // a live element object handed out by the driver
    | Elements(ids: seq<nat>)     // an element array (`$$`)
    | Size(width: real, height: real)
    | Location(x: real, y: real)
    | OtherObject                 // any other object, such as a function read off `Object.prototype`

  /** `null` or `undefined`, the values `== null` accepts. */
  predicate IsNullish(v: Value) {
    v.Undefined? || v.Null?
  }

  /** JavaScript's ToBoolean for the values above: objects are always truthy. */
  predicate Truthy(v: Value) {
    match v
    case Undefined => false
    case Null => false
    case Bool(b) => b
    case Str(s) => s != ""
    case _ => true
  }

  /** JavaScript's `String(v)` for the values above. */
  function ToJsString(v: Value): string {
    match v
    case Undefined => "undefined"
    case Null => "null"
    case Bool(b) => if b then "true" else "false"
    case Str(s) => s
    case _ => "[object Object]"
  }

  datatype Option<+T> = None | Some(value: T)

  /** A call that completes normally with a value or throws an error. */
  datatype Result<+T, +E> = Ok(value: T) | Err(error: E)
}

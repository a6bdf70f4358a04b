/**
 * The JavaScript values a decoded JSON request body can hand to a handler,
 * and the truthiness test that `!x` and `x || y` perform on them.
 */
module Js {
  /** A field of `req.body`: absent, or one of the values `JSON.parse` produces.
      A finite number is a real; a literal too large for a double, such as
      `1e400`, parses to an infinity; NaN cannot arise. An object or an array
      is kept whole by the handlers, so it is carried by the identity `ref` of
      the parsed value: two different objects are two different values. */
  datatype Value =
    | Undefined
    | Null
    | Bool(b: bool)
    | Number(x: real)
    | Infinity(negative: bool)
    | Str(s: string)
    | Compound(ref: nat)   // an object or an array: always truthy

  /** ECMAScript ToBoolean: `undefined`, `null`, `false`, `0` and `""` are
      falsy, and every other value is truthy. */
  predicate Truthy(v: Value): (truthy: bool)
    ensures !truthy <==> v == Undefined || v == Null || v == Bool(false) || v == Number(0.0) || v == Str("")
  {
    match v
    case Undefined => false
    case Null => false
    case Bool(b) => b
    case Number(x) => x != 0.0
    case Infinity(_) => true
    case Str(s) => s != []
    case Compound(_) => true
  }

}

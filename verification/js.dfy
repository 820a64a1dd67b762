/** The part of JavaScript's value model the webhook's decisions depend on. */
module Js {

  /** A JSON/JavaScript value as it reaches the webhook. Numbers are
      integers here; objects and arrays are opaque and only their
      truthiness matters. */
  datatype Value =
    | Undefined
    | Null
    | Bool(b: bool)
    | Number(n: int)
    | Str(s: string)
    | Object

  /** JavaScript truthiness: `undefined`, `null`, `false`, `0` and the
      empty string are falsy; everything else is truthy. */
  predicate Truthy(v: Value) {
    match v
    case Undefined => false
    case Null => false
    case Bool(b) => b
    case Number(n) => n != 0
    case Str(s) => s != ""
    case Object => true
  }
}

/** The JavaScript values the request bodies and the logger handle. */
module JsValue {

  /**
   * A JavaScript value. Numbers are taken as integers; an object lists the property names
   * that `for...in` enumerates (its own and inherited enumerable ones, in order) and maps
   * its own property names to their values.
   */
  datatype Value =
    | Undefined
    | Null
    | Bool(b: bool)
    | Num(n: int)
    | Str(s: string)
    | Object(enumerable: seq<string>, own: map<string, Value>)
    | Function

  /** The `typeof` operator; note that `typeof null` is `"object"`. */
  function TypeOf(v: Value): string
  {
    match v
    case Undefined => "undefined"
    case Null => "object"
    case Bool(_) => "boolean"
    case Num(_) => "number"
    case Str(_) => "string"
    case Object(_, _) => "object"
    case Function => "function"
  }
}

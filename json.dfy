/** JSON values as the relay and the form pass them around, and JavaScript truthiness on them. */
module Json {

  /** A parsed JSON value. A number is kept as the exact decimal it was written as, not
      rounded to a double; an object keeps its members in insertion order. */
  datatype Value =
    | Null
    | Bool(b: bool)
    | Number(n: real)
    | Str(s: string)
    | Array(items: seq<Value>)
    | Object(members: seq<(string, Value)>)

  /** `if (v)` in JavaScript: `null`, `false`, `0` and `""` are falsy; every array and every
      object, even an empty one, is truthy. */
  predicate Truthy(v: Value): (b: bool)
    ensures !b <==> v in {Null, Bool(false), Number(0.0), Str("")}
  {
    match v
    case Null => false
    case Bool(b) => b
    case Number(n) => n != 0.0
    case Str(s) => s != ""
    case Array(_) => true
    case Object(_) => true
  }
}

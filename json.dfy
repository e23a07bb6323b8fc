/**
 * The values that travel through the handlers: decoded JSON request bodies
 * and the scalars the database driver hands back for a row.
 */
module Json {

  /**
   * A JSON value. `Object` holds the members exactly as they appear in the
   * document, duplicates included; the Python dictionary decoded from it is
   * `Dicts.FromPairs(fields)`.
   */
  datatype Value =
    | Null
    | Bool(b: bool)
    | Int(i: int)
    | Float(f: real)
    | Str(s: string)
    | Array(items: seq<Value>)
    | Object(fields: seq<(string, Value)>)

  /** Python truthiness, `bool(v)`: false exactly for None, False, zero and empty containers. */
  predicate Truthy(v: Value)
  {
    match v
    case Null => false
    case Bool(b) => b
    case Int(i) => i != 0
    case Float(f) => f != 0.0
    case Str(s) => |s| > 0
    case Array(items) => |items| > 0
    case Object(fields) => |fields| > 0
  }
}

/** The parsed configuration document, as the TOML reader hands it to the
    loader: a tree of strings, integers, booleans, arrays and tables.
    Python's truthiness and the `x or default` idiom that the loader relies on
    are defined here once. */
module Tree {

  import opened Wrappers

  datatype Node =
    | Str(s: string)
    | Int(i: int)
    | Bool(b: bool)
    | Arr(items: seq<Node>)
    | Table(fields: map<string, Node>)

  /** Python's `bool(v)`: empty strings, zero, `False`, empty arrays and empty
      tables are falsy, everything else is truthy. */
  predicate Truthy(n: Node) {
    match n
    case Str(s) => s != ""
    case Int(i) => i != 0
    case Bool(b) => b
    case Arr(items) => items != []
    case Table(fields) => fields != map[]
  }

  /** `table.get(key)`: `None` when the key is absent. */
  function Get(t: map<string, Node>, key: string): Option<Node> {
    if key in t then Some(t[key]) else None
  }

  /** `table.get(key, default)`. */
  function GetOr(t: map<string, Node>, key: string, default: Node): Node {
    if key in t then t[key] else default
  }

  /** Whether a looked-up value is present and truthy (`not v` is its negation). */
  predicate IsTruthy(v: Option<Node>) {
    v.Some? && Truthy(v.value)
  }

  /** `v or default`: the looked-up value when it is present and truthy,
      otherwise the default. */
  function Or(v: Option<Node>, default: Node): Node {
    if IsTruthy(v) then v.value else default
  }
}

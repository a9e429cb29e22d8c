/** JSON trees. A SHA-256 hex digest is kept symbolic, as the tree that was
    hashed, which makes digests injective by construction. */
module Json {

  datatype Json =
    | Null
    | Bool(b: bool)
    | Int(i: int)
    | Real(x: real)
    | Str(s: string)
    | Sha(of: Json)
    | List(items: seq<Json>)
    | Dict(entries: map<string, Json>)

  type Object = map<string, Json>

  /** `dict.get`: a missing key reads as null. */
  function Get(o: Object, key: string): Json {
    if key in o then o[key] else Null
  }

  /** Python truthiness. */
  predicate Truthy(j: Json) {
    match j
    case Null => false
    case Bool(b) => b
    case Int(i) => i != 0
    case Real(x) => x != 0.0
    case Str(s) => s != ""
    case Sha(_) => true
    case List(xs) => xs != []
    case Dict(m) => m != map[]
  }

  /** A tree with its numbers in one spelling: true is 1 and 1.0 is 1. */
  function Leveled(j: Json): Json {
    match j
    case Bool(b) => Int(if b then 1 else 0)
    case Real(x) => if x.Floor as real == x then Int(x.Floor) else j
    case List(items) => List(seq(|items|, i requires 0 <= i < |items| => Leveled(items[i])))
    case Dict(m) => Dict(map k | k in m :: Leveled(m[k]))
    case _ => j
  }

  /** Python's `==`. */
  predicate Same(a: Json, b: Json) { Leveled(a) == Leveled(b) }
}

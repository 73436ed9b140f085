/** JSON trees, and the leaf view under which two trees hold the same data.

    Numbers are exact reals. An object is a map, so the order in which its keys were written is
    not part of its value. */
module Json {
  datatype Json =
    | Null
    | Bool(b: bool)
    | Num(n: real)
    | Str(s: string)
    | Arr(items: seq<Json>)
    | Obj(fields: map<string, Json>)

  type Path = seq<string>

  /** The fields an editor goes on with: those of an object, none for anything else, because the
      editors replace whatever is not an object by an empty one. */
  function FieldsOf(v: Json): map<string, Json> {
    if v.Obj? then v.fields else map[]
  }

  function ChildOf(v: Json, key: string): Json {
    if v.Obj? && key in v.fields then v.fields[key] else Null
  }

  /** The leaf at `p`: the scalar or array that sits exactly there, `Null` when there is none. Nulls
      and empty objects contribute no leaf. */
  function Leaf(v: Json, p: Path): Json
    decreases |p|
  {
    if v.Obj? then
      if p == [] then Null else Leaf(ChildOf(v, p[0]), p[1..])
    else
      if p == [] then v else Null
  }

  /** Two trees hold the same data: the same leaves at the same paths. */
  ghost predicate SameLeaves(a: Json, b: Json) {
    forall p :: Leaf(a, p) == Leaf(b, p)
  }

  /** The key under which a value with a priority is wrapped. */
  const VALUE_KEY := ".value"

  /** The value under a `.value` wrapper, or the value itself. */
  function ExtractData(v: Json): Json {
    if v.Obj? && VALUE_KEY in v.fields then v.fields[VALUE_KEY] else v
  }

  /** No array and no `.value` wrapper at any depth. */
  predicate Tame(v: Json) {
    match v
    case Obj(f) => VALUE_KEY !in f && forall k | k in f :: Tame(f[k])
    case Arr(_) => false
    case _ => true
  }

  predicate TamePath(p: Path) {
    VALUE_KEY !in p
  }
}

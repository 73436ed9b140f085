/** The two independently written tree editors of the Realtime Database client: the mirror's
    (`apply_realtime_value`, `value_at_path`) and the in-memory backend's (`set_at_path`,
    `delete_at_path`, `get_at_path`).

    Each loop of the source walks a mutable cursor down the tree. Here the cursor is the pair of a
    subtree and the frames above it; `Plug` puts an edited subtree back. */
module TreeEditors {
  import opened Wrappers
  import opened Json
  import opened Text

  // ----- Specifications -----

  /** The mirror's write. A null at the end removes the key, and leaves a parent that is no object
      alone; higher up, whatever is not an object is replaced by one. */
  function Written(root: Json, path: Path, value: Json): Json
    decreases |path|
  {
    if path == [] then value
    else if |path| == 1 then Placed(root, path[0], if value.Null? then None else Some(value))
    else Placed(root, path[0], Some(Written(EntryOr(root, path[0]), path[1..], value)))
  }

  /** A member set, or removed when `member` is `None`. */
  function Placed(root: Json, key: string, member: Option<Json>): Json {
    match member
    case Some(m) => Obj(FieldsOf(root)[key := m])
    case None => if root.Obj? then Obj(root.fields - {key}) else root
  }

  /** The child an `entry(..).or_insert({})` step moves to. */
  function EntryOr(v: Json, key: string): Json {
    var f := FieldsOf(v);
    if key in f then f[key] else Obj(map[])
  }

  /** The backend's write: a null is stored like any other value. */
  function SetAt(root: Json, path: Path, value: Json): Json
    decreases |path|
  {
    if path == [] then value
    else if |path| == 1 then Obj(FieldsOf(root)[path[0] := value])
    else Obj(FieldsOf(root)[path[0] := SetAt(EntryOr(root, path[0]), path[1..], value)])
  }

  /** The backend's delete: stops as soon as the path leaves the tree. */
  function DeletedAt(root: Json, path: Path): Json
    decreases |path|
  {
    if path == [] then Null
    else if !root.Obj? then root
    else if |path| == 1 then Obj(root.fields - {path[0]})
    else if path[0] !in root.fields then root
    else Obj(root.fields[path[0] := DeletedAt(root.fields[path[0]], path[1..])])
  }

  /** The backend's read, `Null` when nothing is there. */
  function GetAt(root: Json, path: Path): Json
    decreases |path|
  {
    if path == [] then root
    else if root.Obj? && path[0] in root.fields then GetAt(root.fields[path[0]], path[1..])
    else Null
  }

  /** Object members lead all the way down `path`. */
  predicate HasPath(root: Json, path: Path)
    decreases |path|
  {
    path == [] || (root.Obj? && path[0] in root.fields && HasPath(root.fields[path[0]], path[1..]))
  }

  /** An array index in decimal, with an optional plus sign, below 2^64. */
  function ParseIndex(s: string): Option<nat> {
    var digits := if s != [] && s[0] == '+' then s[1..] else s;
    if digits != [] && (forall i | 0 <= i < |digits| :: IsDigit(digits[i])) && Decimal(digits) < 0x1_0000_0000_0000_0000
    then Some(Decimal(digits)) else None
  }

  /** An index in decimal is read back, with or without a plus sign. */
  lemma IndexReadsBack(i: nat)
    requires i < 0x1_0000_0000_0000_0000
    ensures ParseIndex(DigitsOf(i)) == ParseIndex("+" + DigitsOf(i)) == Some(i) && DigitsOf(i)[0] != '.'
  {
    DigitsReadBack(i);
    assert IsDigit(DigitsOf(i)[0]) && ("+" + DigitsOf(i))[1..] == DigitsOf(i);
  }

  /** One step of the mirror's reader, which also looks into arrays and through `.value`. */
  function StepInto(v: Json, segment: string): Option<Json> {
    match v
    case Obj(f) =>
      if segment in f then Some(f[segment])
      else if VALUE_KEY in f then
        (match f[VALUE_KEY]
         case Obj(g) => if segment in g then Some(g[segment]) else None
         case Arr(items) => ItemAt(items, segment)
         case _ => None)
      else None
    case Arr(items) => ItemAt(items, segment)
    case _ => None
  }

  function ItemAt(items: seq<Json>, segment: string): Option<Json> {
    match ParseIndex(segment)
    case Some(i) => if i < |items| then Some(items[i]) else None
    case None => None
  }

  /** The mirror's reader gets all the way down `path`. */
  predicate Reaches(root: Json, path: Path) {
    path == [] || (StepInto(root, path[0]).Some? && Reaches(StepInto(root, path[0]).value, path[1..]))
  }

  function Lookup(root: Json, path: Path): Json {
    if path == [] then root
    else match StepInto(root, path[0])
         case Some(child) => Lookup(child, path[1..])
         case None => Null
  }

  /** The mirror's read. */
  function ValueAt(root: Json, path: Path): Json {
    if path == [] then ExtractData(root) else Lookup(root, path)
  }

  // ----- The cursor loops -----

  datatype Frame = Frame(fields: map<string, Json>, key: string)

  /** Puts `hole` back under the frames the cursor came down through, innermost last. */
  function Plug(spine: seq<Frame>, hole: Json): Json {
    if spine == [] then hole
    else
      var top := spine[|spine|-1];
      Plug(spine[..|spine|-1], Obj(top.fields[top.key := hole]))
  }

  lemma PlugPush(spine: seq<Frame>, frame: Frame, hole: Json)
    ensures Plug(spine + [frame], hole) == Plug(spine, Obj(frame.fields[frame.key := hole]))
  {
    assert (spine + [frame])[..|spine|] == spine;
  }

  method ApplyRealtimeValue(root: Json, path: Path, value: Json) returns (edited: Json)
    ensures edited == Written(root, path, value)
  {
    if path == [] {
      return value;
    }
    var current, spine := root, [];
    for i := 0 to |path| - 1
      invariant Plug(spine, Written(current, path[i..], value)) == Written(root, path, value)
    {
      if !current.Obj? {
        current := Obj(map[]);
      }
      var next := if path[i] in current.fields then current.fields[path[i]] else Obj(map[]);
      PlugPush(spine, Frame(current.fields, path[i]), Written(next, path[i+1..], value));
      assert path[i..][1..] == path[i+1..];
      spine, current := spine + [Frame(current.fields, path[i])], next;
    }
    var last := path[|path|-1];
    if value.Null? {
      if current.Obj? {
        current := Obj(current.fields - {last});
      }
    } else {
      if !current.Obj? {
        current := Obj(map[]);
      }
      current := Obj(current.fields[last := value]);
    }
    edited := Plug(spine, current);
  }

  method SetAtPath(root: Json, path: Path, value: Json) returns (edited: Json)
    ensures edited == SetAt(root, path, value)
  {
    if path == [] {
      return value;
    }
    var current, spine := root, [];
    for i := 0 to |path| - 1
      invariant Plug(spine, SetAt(current, path[i..], value)) == SetAt(root, path, value)
    {
      if !current.Obj? {
        current := Obj(map[]);
      }
      var next := if path[i] in current.fields then current.fields[path[i]] else Obj(map[]);
      PlugPush(spine, Frame(current.fields, path[i]), SetAt(next, path[i+1..], value));
      assert path[i..][1..] == path[i+1..];
      spine, current := spine + [Frame(current.fields, path[i])], next;
    }
    if !current.Obj? {
      current := Obj(map[]);
    }
    edited := Plug(spine, Obj(current.fields[path[|path|-1] := value]));
  }

  method DeleteAtPath(root: Json, path: Path) returns (edited: Json)
    ensures edited == DeletedAt(root, path)
  {
    if path == [] {
      return Null;
    }
    var current, spine := root, [];
    for i := 0 to |path| - 1
      invariant Plug(spine, DeletedAt(current, path[i..])) == DeletedAt(root, path)
      invariant Plug(spine, current) == root
    {
      if !current.Obj? || path[i] !in current.fields {
        return root;
      }
      var next := current.fields[path[i]];
      PlugPush(spine, Frame(current.fields, path[i]), DeletedAt(next, path[i+1..]));
      PlugPush(spine, Frame(current.fields, path[i]), next);
      assert current.fields[path[i] := next] == current.fields;
      assert path[i..][1..] == path[i+1..];
      spine, current := spine + [Frame(current.fields, path[i])], next;
    }
    if current.Obj? {
      current := Obj(current.fields - {path[|path|-1]});
    }
    edited := Plug(spine, current);
  }

  method GetAtPath(root: Json, path: Path) returns (found: Option<Json>)
    ensures found == if HasPath(root, path) then Some(GetAt(root, path)) else None
    ensures found.None? ==> GetAt(root, path) == Null
  {
    var current := root;
    for i := 0 to |path|
      invariant GetAt(current, path[i..]) == GetAt(root, path)
      invariant HasPath(current, path[i..]) == HasPath(root, path)
    {
      if !current.Obj? || path[i] !in current.fields {
        return None;
      }
      assert path[i..][1..] == path[i+1..];
      current := current.fields[path[i]];
    }
    return Some(current);
  }

  method GetValueAtPath(root: Json, segments: Path) returns (found: Option<Json>)
    ensures found == if Reaches(root, segments) then Some(ValueAt(root, segments)) else None
    ensures found.None? ==> ValueAt(root, segments) == Null
  {
    if segments == [] {
      return Some(ExtractData(root));
    }
    var current := root;
    for i := 0 to |segments|
      invariant Lookup(current, segments[i..]) == Lookup(root, segments)
      invariant Reaches(current, segments[i..]) == Reaches(root, segments)
    {
      assert segments[i..][1..] == segments[i+1..];
      match StepInto(current, segments[i])
      case Some(child) => current := child;
      case None => return None;
    }
    return Some(current);
  }
}

/** Server-value placeholders (`{".sv": ...}`) and their resolution against the stored data. */
module ServerValue {
  import opened Wrappers
  import opened Json
  import opened TreeEditors
  import opened Text

  const SV_KEY := ".sv"

  datatype SvError = InvalidArgument

  function ServerTimestamp(): Json {
    Obj(map[SV_KEY := Str("timestamp")])
  }

  function Increment(delta: real): Json {
    Obj(map[SV_KEY := Obj(map["increment" := Num(delta)])])
  }

  predicate ContainsServerValue(v: Json) {
    match v
    case Obj(f) => SV_KEY in f || exists k | k in f :: ContainsServerValue(f[k])
    case Arr(items) => exists i | 0 <= i < |items| :: ContainsServerValue(items[i])
    case _ => false
  }

  /** What one placeholder stands for: the clock, or the number stored here plus the delta. */
  function Placeholder(spec: Json, current: Option<Json>, now: nat): Result<Json, SvError> {
    match spec
    case Str(token) => if token == "timestamp" then Ok(Num(now as real)) else Err(InvalidArgument)
    case Obj(m) =>
      if "increment" in m && m["increment"].Num? then
        var base := if current.Some? && current.value.Num? then current.value.n else 0.0;
        Ok(Num(base + m["increment"].n))
      else Err(InvalidArgument)
    case _ => Err(InvalidArgument)
  }

  function Extracted(v: Option<Json>): Option<Json> {
    if v.Some? then Some(ExtractData(v.value)) else None
  }

  /** The stored data that goes with a member of an object, and with an element of an array. */
  function MemberOf(current: Option<Json>, key: string): Option<Json> {
    if current.None? then None
    else match current.value
         case Obj(g) => if key in g then Some(ExtractData(g[key])) else None
         case Arr(items) => Extracted(ItemAt(items, key))
         case _ => None
  }

  function ElementOf(current: Option<Json>, i: nat): Option<Json> {
    if current.Some? && current.value.Arr? && i < |current.value.items|
    then Some(ExtractData(current.value.items[i])) else None
  }

  /** Resolution in full: every placeholder at any depth, or an error if any of them is bad. */
  function Resolved(value: Json, current: Option<Json>, now: nat): Result<Json, SvError> {
    match value
    case Obj(f) =>
      if SV_KEY in f then Placeholder(f[SV_KEY], Extracted(current), now)
      else if forall k | k in f :: Resolved(f[k], MemberOf(current, k), now).Ok? then
        Ok(Obj(map k | k in f :: Resolved(f[k], MemberOf(current, k), now).value))
      else Err(InvalidArgument)
    case Arr(items) =>
      if forall i | 0 <= i < |items| :: Resolved(items[i], ElementOf(current, i), now).Ok? then
        Ok(Arr(seq(|items|, i requires 0 <= i < |items| => Resolved(items[i], ElementOf(current, i), now).value)))
      else Err(InvalidArgument)
    case _ => Ok(value)
  }

  method ResolveServerValues(value: Json, current: Option<Json>, now: nat) returns (r: Result<Json, SvError>)
    ensures r == Resolved(value, current, now)
    decreases value
  {
    match value
    case Obj(f) =>
      if SV_KEY in f {
        return Placeholder(f[SV_KEY], Extracted(current), now);
      }
      var resolved: map<string, Json>, todo := map[], f.Keys;
      while todo != {}
        invariant todo <= f.Keys && resolved.Keys == f.Keys - todo
        invariant forall k | k in resolved :: Resolved(f[k], MemberOf(current, k), now) == Ok(resolved[k])
      {
        var key :| key in todo;
        var child := ResolveServerValues(f[key], MemberOf(current, key), now);
        if child.Err? {
          return child;
        }
        resolved, todo := resolved[key := child.value], todo - {key};
      }
      r := Ok(Obj(resolved));
      assert Resolved(value, current, now).Ok?;
      assert resolved == Resolved(value, current, now).value.fields;
    case Arr(items) =>
      var resolved := [];
      for i := 0 to |items|
        invariant |resolved| == i
        invariant forall j | 0 <= j < i :: Resolved(items[j], ElementOf(current, j), now) == Ok(resolved[j])
      {
        var child := ResolveServerValues(items[i], ElementOf(current, i), now);
        if child.Err? {
          return child;
        }
        resolved := resolved + [child.value];
      }
      r := Ok(Arr(resolved));
      assert Resolved(value, current, now).Ok?;
      assert resolved == Resolved(value, current, now).value.items;
    case _ =>
      return Ok(value);
  }

  // ----- What resolution promises -----

  /** A successful resolve leaves no placeholder at any depth. */
  lemma {:induction false} NothingLeftToResolve(value: Json, current: Option<Json>, now: nat)
    requires Resolved(value, current, now).Ok?
    ensures !ContainsServerValue(Resolved(value, current, now).value)
    decreases value
  {
    match value
    case Obj(f) =>
      if SV_KEY !in f {
        forall k | k in f ensures !ContainsServerValue(Resolved(f[k], MemberOf(current, k), now).value) {
          NothingLeftToResolve(f[k], MemberOf(current, k), now);
        }
      }
    case Arr(items) =>
      forall i | 0 <= i < |items| ensures !ContainsServerValue(Resolved(items[i], ElementOf(current, i), now).value) {
        NothingLeftToResolve(items[i], ElementOf(current, i), now);
      }
    case _ =>
  }

  /** Data without placeholders comes back unchanged. */
  lemma {:induction false} PlainDataUnchanged(value: Json, current: Option<Json>, now: nat)
    requires !ContainsServerValue(value)
    ensures Resolved(value, current, now) == Ok(value)
    decreases value
  {
    match value
    case Obj(f) =>
      forall k | k in f ensures Resolved(f[k], MemberOf(current, k), now) == Ok(f[k]) {
        PlainDataUnchanged(f[k], MemberOf(current, k), now);
      }
      var r := Resolved(value, current, now).value.fields;
      assert r == f;
    case Arr(items) =>
      forall i | 0 <= i < |items| ensures Resolved(items[i], ElementOf(current, i), now) == Ok(items[i]) {
        PlainDataUnchanged(items[i], ElementOf(current, i), now);
      }
      assert Resolved(value, current, now).value.items == items;
    case _ =>
  }

  /** `after` is `before` with each placeholder turned into a number and nothing else touched. */
  ghost predicate OnlyPlaceholdersReplaced(before: Json, after: Json) {
    match before
    case Obj(f) =>
      if SV_KEY in f then after.Num?
      else after.Obj? && after.fields.Keys == f.Keys
           && forall k | k in f :: OnlyPlaceholdersReplaced(f[k], after.fields[k])
    case Arr(items) =>
      after.Arr? && |after.items| == |items|
      && forall i | 0 <= i < |items| :: OnlyPlaceholdersReplaced(items[i], after.items[i])
    case _ => after == before
  }

  lemma {:induction false} KeepsAllOtherData(value: Json, current: Option<Json>, now: nat)
    requires Resolved(value, current, now).Ok?
    ensures OnlyPlaceholdersReplaced(value, Resolved(value, current, now).value)
    decreases value
  {
    match value
    case Obj(f) =>
      if SV_KEY !in f {
        forall k | k in f ensures OnlyPlaceholdersReplaced(f[k], Resolved(f[k], MemberOf(current, k), now).value) {
          KeepsAllOtherData(f[k], MemberOf(current, k), now);
        }
      }
    case Arr(items) =>
      forall i | 0 <= i < |items|
        ensures OnlyPlaceholdersReplaced(items[i], Resolved(items[i], ElementOf(current, i), now).value)
      {
        KeepsAllOtherData(items[i], ElementOf(current, i), now);
      }
    case _ =>
  }

  /** Every placeholder is the timestamp or a numeric increment. */
  ghost predicate WellFormed(v: Json) {
    match v
    case Obj(f) =>
      if ".sv" in f then
        f[".sv"] == Str("timestamp")
        || (f[".sv"].Obj? && "increment" in f[".sv"].fields && f[".sv"].fields["increment"].Num?)
      else forall k | k in f :: WellFormed(f[k])
    case Arr(items) => forall i | 0 <= i < |items| :: WellFormed(items[i])
    case _ => true
  }

  /** Resolution fails exactly on a malformed placeholder, whatever is stored. */
  lemma {:induction false} FailsIffMalformed(value: Json, current: Option<Json>, now: nat)
    ensures Resolved(value, current, now).Ok? <==> WellFormed(value)
    decreases value
  {
    match value
    case Obj(f) =>
      if SV_KEY !in f {
        forall k | k in f ensures Resolved(f[k], MemberOf(current, k), now).Ok? <==> WellFormed(f[k]) {
          FailsIffMalformed(f[k], MemberOf(current, k), now);
        }
      }
    case Arr(items) =>
      forall i | 0 <= i < |items| ensures Resolved(items[i], ElementOf(current, i), now).Ok? <==> WellFormed(items[i]) {
        FailsIffMalformed(items[i], ElementOf(current, i), now);
      }
    case _ =>
  }

  function NumberOr0(v: Json): real {
    if v.Num? then v.n else 0.0
  }

  /** Members of objects lead from `v` to `p`, past no placeholder. */
  predicate OpenTo(v: Json, p: Path)
    decreases |p|
  {
    p == [] || (v.Obj? && SV_KEY !in v.fields && p[0] in v.fields && OpenTo(v.fields[p[0]], p[1..]))
  }

  function StoredAt(current: Option<Json>, p: Path): Json {
    if current.Some? then GetAt(current.value, p) else Null
  }

  /** An increment buried at `p` adds to the number stored at `p`, at any depth. */
  lemma {:induction false} IncrementAddsAtDepth(value: Json, current: Option<Json>, now: nat, p: Path, delta: real)
    requires OpenTo(value, p) && GetAt(value, p) == Increment(delta)
    requires current.Some? ==> Tame(current.value)
    requires Resolved(value, current, now).Ok?
    ensures GetAt(Resolved(value, current, now).value, p) == Num(NumberOr0(StoredAt(current, p)) + delta)
    decreases |p|
  {
    if p == [] {
      assert value.fields[SV_KEY].fields["increment"] == Num(delta);
    } else {
      IncrementAddsAtDepth(value.fields[p[0]], MemberOf(current, p[0]), now, p[1..], delta);
    }
  }

  /** A timestamp buried at `p` becomes the clock's reading. */
  lemma {:induction false} TimestampIsNow(value: Json, current: Option<Json>, now: nat, p: Path)
    requires OpenTo(value, p) && GetAt(value, p) == ServerTimestamp()
    requires Resolved(value, current, now).Ok?
    ensures GetAt(Resolved(value, current, now).value, p) == Num(now as real)
    decreases |p|
  {
    if p != [] { TimestampIsNow(value.fields[p[0]], MemberOf(current, p[0]), now, p[1..]); }
  }

  function GetItem(v: Json, i: nat): Option<Json> {
    if v.Arr? && i < |v.items| then Some(v.items[i]) else None
  }

  lemma IncrementOn(current: Option<Json>, delta: real, now: nat)
    ensures Resolved(Increment(delta), current, now)
         == Ok(Num((if current.Some? then NumberOr0(ExtractData(current.value)) else 0.0) + delta))
  {
    assert Increment(delta).fields[SV_KEY].fields["increment"] == Num(delta);
  }

  /** In an array, and for a member named by an index, an increment adds to the element of a stored array
      at the same index, to zero past its end. A `.value` wrapper is looked through, even a double one. */
  lemma IncrementAddsInArrays(items: seq<Json>, stored: seq<Json>, i: nat, delta: real, now: nat)
    requires i < |items| && items[i] == Increment(delta) && |items| <= 0x1_0000_0000_0000_0000
    ensures var sum := Num((if i < |stored| then NumberOr0(ExtractData(ExtractData(stored[i]))) else 0.0) + delta);
            && (Resolved(Arr(items), Some(Arr(stored)), now).Ok? ==>
                  GetItem(Resolved(Arr(items), Some(Arr(stored)), now).value, i) == Some(sum))
            && Resolved(Obj(map[DigitsOf(i) := items[i]]), Some(Arr(stored)), now) == Ok(Obj(map[DigitsOf(i) := sum]))
    ensures forall f: map<string, Json> | Resolved(Arr(items), Some(Obj(f)), now).Ok? ::
            GetItem(Resolved(Arr(items), Some(Obj(f)), now).value, i) == Some(Num(delta))
  {
    hide Resolved, ParseIndex, DigitsOf, ExtractData;
    IncrementOn(ElementOf(Some(Arr(stored)), i), delta, now);
    ElementResolved(items, Some(Arr(stored)), i, now);
    IndexReadsBack(i);
    MemberResolved(DigitsOf(i), items[i], Some(Arr(stored)), now);
    forall f: map<string, Json> | Resolved(Arr(items), Some(Obj(f)), now).Ok?
      ensures GetItem(Resolved(Arr(items), Some(Obj(f)), now).value, i) == Some(Num(delta))
    {
      IncrementOn(None, delta, now);
      ElementResolved(items, Some(Obj(f)), i, now);
    }
  }

  lemma ElementResolved(items: seq<Json>, current: Option<Json>, i: nat, now: nat)
    requires i < |items|
    ensures var r := Resolved(Arr(items), current, now);
            r.Ok? ==> r.value.Arr? && |r.value.items| == |items|
                      && Resolved(items[i], ElementOf(current, i), now) == Ok(r.value.items[i])
  {}

  lemma MemberResolved(key: string, value: Json, current: Option<Json>, now: nat)
    requires key != SV_KEY && Resolved(value, MemberOf(current, key), now).Ok?
    ensures Resolved(Obj(map[key := value]), current, now)
         == Ok(Obj(map[key := Resolved(value, MemberOf(current, key), now).value]))
  {
    var f := map[key := value];
    assert forall k | k in f :: Resolved(f[k], MemberOf(current, k), now).Ok?;
    assert Resolved(Obj(f), current, now).value.fields ==
           map[key := Resolved(value, MemberOf(current, key), now).value];
  }

  lemma {:induction false} ResolvedTame(value: Json, current: Option<Json>, now: nat)
    requires Tame(value) && Resolved(value, current, now).Ok?
    ensures Tame(Resolved(value, current, now).value)
    decreases value
  {
    if value.Obj? && SV_KEY !in value.fields {
      var f := value.fields;
      forall k | k in f ensures Tame(Resolved(f[k], MemberOf(current, k), now).value) {
        ResolvedTame(f[k], MemberOf(current, k), now);
      }
    }
  }

  // ----- Resolution against a local tree -----

  /** What storing `value` at `path` of `root` stores. */
  function Stored(root: Json, path: Path, value: Json, now: nat): Result<Json, SvError> {
    Resolved(value, Some(ExtractData(GetAt(root, path))), now)
  }

  lemma {:induction false} GetBelow(root: Json, p: Path, q: Path)
    ensures GetAt(GetAt(root, p), q) == GetAt(root, p + q)
    decreases |p|
  {
    if p == [] {
      assert p + q == q;
    } else if root.Obj? && p[0] in root.fields {
      assert (p + q)[1..] == p[1..] + q;
      GetBelow(root.fields[p[0]], p[1..], q);
    } else if q != [] {
      assert (p + q)[0] == p[0];
    }
  }

  lemma {:induction false} GetTame(root: Json, p: Path)
    requires Tame(root)
    ensures Tame(GetAt(root, p))
    decreases |p|
  {
    if p != [] && root.Obj? && p[0] in root.fields { GetTame(root.fields[p[0]], p[1..]); }
  }

  /** An increment or a timestamp at `q` in what is stored at `path`: the number that was there plus the
      delta, or the clock's reading. */
  lemma StoredPlaceholders(root: Json, path: Path, value: Json, now: nat, q: Path, delta: real)
    requires Stored(root, path, value, now).Ok? && OpenTo(value, q)
    ensures GetAt(value, q) == Obj(map[".sv" := Str("timestamp")]) ==>
            GetAt(Stored(root, path, value, now).value, q) == Num(now as real)
    ensures GetAt(value, q) == Obj(map[".sv" := Obj(map["increment" := Num(delta)])]) && Tame(root) ==>
            GetAt(Stored(root, path, value, now).value, q) == Num(NumberOr0(GetAt(root, path + q)) + delta)
  {
    if GetAt(value, q) == ServerTimestamp() {
      TimestampIsNow(value, Some(ExtractData(GetAt(root, path))), now, q);
    }
    if GetAt(value, q) == Increment(delta) && Tame(root) {
      GetTame(root, path);
      GetBelow(root, path, q);
      IncrementAddsAtDepth(value, Some(GetAt(root, path)), now, q, delta);
    }
  }

  /** The shortcut for values without placeholders refines full resolution. */
  method ResolveLocally(root: Json, path: Path, value: Json, now: nat) returns (r: Result<Json, SvError>)
    ensures r == Stored(root, path, value, now)
  {
    if !ContainsServerValue(value) {
      PlainDataUnchanged(value, Some(ExtractData(GetAt(root, path))), now);
      return Ok(value);
    }
    var found := GetAtPath(root, path);
    var current := if found.Some? then found.value else Null;
    r := ResolveServerValues(value, Some(ExtractData(current)), now);
  }
}

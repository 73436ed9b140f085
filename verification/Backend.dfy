/** The in-memory backend: one tree behind a lock, so each operation is one atomic step. */
module Backend {
  import opened Wrappers
  import opened Json
  import opened TreeEditors
  import opened TreeLaws
  import opened ServerValue

  /** A stored value under compare-and-set: a null removes. */
  function Put(data: Json, path: Path, value: Json): Json {
    if value.Null? then DeletedAt(data, path) else SetAt(data, path, value)
  }

  /** What a transaction without rivals stores, if anything. */
  function TransactionStores(data: Json, path: Path, update: Json -> Option<Json>, now: nat): Option<Json> {
    match update(ExtractData(GetAt(data, path)))
    case None => None
    case Some(next) =>
      match Stored(data, path, next, now)
      case Err(_) => None
      case Ok(v) => Some(v)
  }

  datatype UpdateOutcome = UpdateOutcome(data: Json, stored: Result<seq<Write>, SvError>)

  /** A multi-path update, path by path; the first bad placeholder stops it, and what has been
      written by then stays. */
  function UpdateAll(data: Json, updates: seq<Write>, now: nat): UpdateOutcome
    decreases |updates|
  {
    if updates == [] then UpdateOutcome(data, Ok([]))
    else
      match Stored(data, updates[0].path, updates[0].value, now)
      case Err(e) => UpdateOutcome(data, Err(e))
      case Ok(v) =>
        var rest := UpdateAll(SetAt(data, updates[0].path, v), updates[1..], now);
        if rest.stored.Ok? then rest.(stored := Ok([Write(updates[0].path, v)] + rest.stored.value)) else rest
  }

  /** An update fails exactly if one of its values holds a malformed placeholder, whatever is stored. */
  lemma {:induction false} UpdateFailsIff(data: Json, updates: seq<Write>, now: nat)
    ensures UpdateAll(data, updates, now).stored.Ok? <==> forall w | w in updates :: WellFormed(w.value)
    decreases |updates|
  {
    if updates != [] {
      var stored := Stored(data, updates[0].path, updates[0].value, now);
      FailsIffMalformed(updates[0].value, Some(ExtractData(GetAt(data, updates[0].path))), now);
      if stored.Ok? { UpdateFailsIff(SetAt(data, updates[0].path, stored.value), updates[1..], now); }
      assert updates == [updates[0]] + updates[1..];
    }
  }

  // ----- What a reader finds afterwards -----

  lemma GetAfterPut(data: Json, p: Path, v: Json)
    ensures GetAt(Put(data, p, v), p) == v
  {
    if v.Null? { GetAfterDelete(data, p); } else { GetAfterSet(data, p, v); }
  }

  lemma {:induction false} UpdateElsewhere(data: Json, ws: seq<Write>, now: nat, p: Path)
    requires forall w | w in ws :: !PathsRelated(w.path, p)
    ensures GetAt(UpdateAll(data, ws, now).data, p) == GetAt(data, p)
    decreases |ws|
  {
    if ws != [] {
      assert ws[0] in ws;
      var stored := Stored(data, ws[0].path, ws[0].value, now);
      if stored.Ok? {
        GetAfterUnrelatedSet(data, ws[0].path, stored.value, p);
        UpdateElsewhere(SetAt(data, ws[0].path, stored.value), ws[1..], now, p);
      }
    }
  }

  /** After an update of unrelated paths every path holds its own value, resolved against what was
      stored there before. */
  lemma {:induction false} UpdateReads(data: Json, ws: seq<Write>, now: nat, i: nat)
    requires UpdateAll(data, ws, now).stored.Ok? && PairwiseUnrelated(ws) && i < |ws|
    ensures Stored(data, ws[i].path, ws[i].value, now) == Ok(GetAt(UpdateAll(data, ws, now).data, ws[i].path))
    decreases |ws|
  {
    var stored := Stored(data, ws[0].path, ws[0].value, now).value;
    var next := SetAt(data, ws[0].path, stored);
    if i == 0 {
      GetAfterSet(data, ws[0].path, stored);
      UpdateElsewhere(next, ws[1..], now, ws[0].path);
    } else {
      UpdateReads(next, ws[1..], now, i - 1);
      GetAfterUnrelatedSet(data, ws[0].path, stored, ws[i].path);
    }
  }

  // ----- Failing updates -----

  /** The value of the last write a failing update gets to store. */
  ghost function LastStored(updates: seq<Write>): Json
    requires updates != []
  {
    if |updates| == 1 || !WellFormed(updates[1].value) then updates[0].value else LastStored(updates[1..])
  }

  lemma {:induction false} LateFailureStores(data: Json, updates: seq<Write>, now: nat, s: string)
    requires updates != [] && WellFormed(updates[0].value) && exists w | w in updates :: !WellFormed(w.value)
    requires LastStored(updates) != Str(s)
    ensures UpdateAll(data, updates, now).stored.Err? && UpdateAll(data, updates, now).data != Str(s)
    decreases |updates|
  {
    UpdateFailsIff(data, updates, now);
    var stored := Stored(data, updates[0].path, updates[0].value, now);
    FailsIffMalformed(updates[0].value, Some(ExtractData(GetAt(data, updates[0].path))), now);
    var first := SetAt(data, updates[0].path, stored.value);
    assert updates == [updates[0]] + updates[1..];
    if WellFormed(updates[1].value) {
      LateFailureStores(first, updates[1..], now, s);
    } else {
      FailsIffMalformed(updates[1].value, Some(ExtractData(GetAt(first, updates[1].path))), now);
    }
  }

  /** A failing update is sure to change nothing exactly if it fails on its first value. */
  lemma FailureChangesNothingIff(updates: seq<Write>, now: nat)
    requires updates != []
    ensures (forall data | UpdateAll(data, updates, now).stored.Err? :: UpdateAll(data, updates, now).data == data)
            <==> !WellFormed(updates[0].value) || forall w | w in updates :: WellFormed(w.value)
  {
    if !WellFormed(updates[0].value) {
      forall data ensures UpdateAll(data, updates, now).data == data {
        FailsIffMalformed(updates[0].value, Some(ExtractData(GetAt(data, updates[0].path))), now);
      }
    } else if forall w | w in updates :: WellFormed(w.value) {
      forall data ensures UpdateAll(data, updates, now).stored.Ok? { UpdateFailsIff(data, updates, now); }
    } else {
      var s := if LastStored(updates) == Str("") then "0" else "";
      LateFailureStores(Str(s), updates, now, s);
    }
  }

  datatype VersionedValue = VersionedValue(value: Json, version: Option<nat>)

  datatype CasOutcome = Committed(stored: Json) | Conflict(latest: VersionedValue)

  class InMemoryBackend {
    var data: Json
    /** The hash that stands in for the server's entity tag. */
    const tag: Json -> nat

    constructor (tag: Json -> nat)
      ensures data == Obj(map[]) && this.tag == tag
    {
      data := Obj(map[]);
      this.tag := tag;
    }

    method Set(path: Path, value: Json, now: nat) returns (r: Result<Json, SvError>)
      modifies this
      ensures r == Stored(old(data), path, value, now)
      ensures data == if r.Ok? then SetAt(old(data), path, r.value) else old(data)
    {
      r := ResolveLocally(data, path, value, now);
      if r.Ok? {
        data := SetAtPath(data, path, r.value);
      }
    }

    method Update(updates: seq<Write>, now: nat) returns (r: Result<seq<Write>, SvError>)
      modifies this
      ensures UpdateOutcome(data, r) == UpdateAll(old(data), updates, now)
    {
      var stored: seq<Write> := [];
      ghost var whole := UpdateAll(data, updates, now);
      assert updates[0..] == updates && (whole.stored.Ok? ==> [] + whole.stored.value == whole.stored.value);
      for i := 0 to |updates|
        invariant var rest := UpdateAll(data, updates[i..], now);
                  rest.data == whole.data
                  && whole.stored == if rest.stored.Ok? then Ok(stored + rest.stored.value) else rest.stored
      {
        assert updates[i..][1..] == updates[i+1..];
        var resolved := ResolveLocally(data, updates[i].path, updates[i].value, now);
        if resolved.Err? {
          return Err(resolved.error);
        }
        data := SetAtPath(data, updates[i].path, resolved.value);
        ghost var rest := UpdateAll(data, updates[i+1..], now);
        if rest.stored.Ok? {
          assert stored + ([Write(updates[i].path, resolved.value)] + rest.stored.value)
              == (stored + [Write(updates[i].path, resolved.value)]) + rest.stored.value;
        }
        stored := stored + [Write(updates[i].path, resolved.value)];
      }
      assert stored + [] == stored;
      return Ok(stored);
    }

    method Delete(path: Path)
      modifies this
      ensures data == DeletedAt(old(data), path)
    {
      data := DeleteAtPath(data, path);
    }

    method Get(path: Path) returns (value: Json)
      ensures value == GetAt(data, path)
    {
      var found := GetAtPath(data, path);
      value := if found.Some? then found.value else Null;
    }

    method ReadForUpdate(path: Path) returns (current: VersionedValue)
      ensures current == VersionedValue(GetAt(data, path), Some(tag(GetAt(data, path))))
    {
      var value := Get(path);
      return VersionedValue(value, Some(tag(value)));
    }

    /** Writes only if the stored value still carries `version`; writes nothing on a conflict or a bad
        placeholder. */
    method CompareAndSet(path: Path, value: Json, version: Option<nat>,
        now: nat) returns (r: Result<CasOutcome, SvError>)
      modifies this
      ensures var current := GetAt(old(data), path);
              if version.Some? && version.value != tag(current) then
                r == Ok(Conflict(VersionedValue(current, Some(tag(current))))) && data == old(data)
              else match Stored(old(data), path, value, now)
                   case Err(e) => r == Err(e) && data == old(data)
                   case Ok(v) => r == Ok(Committed(v)) && data == Put(old(data), path, v)
    {
      var current := Get(path);
      if version.Some? && version.value != tag(current) {
        return Ok(Conflict(VersionedValue(current, Some(tag(current)))));
      }
      var resolved := ResolveLocally(data, path, value, now);
      if resolved.Err? {
        return Err(resolved.error);
      }
      if resolved.value.Null? {
        data := DeleteAtPath(data, path);
      } else {
        data := SetAtPath(data, path, resolved.value);
      }
      return Ok(Committed(resolved.value));
    }
  }
}

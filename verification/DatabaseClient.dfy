/** The database client as an object: its mirror, its listeners and its backend. Each handler is one
    atomic step, and each method is tied to the step it takes on the local view. */
module DatabaseClient {
  import opened Wrappers
  import opened Json
  import opened TreeEditors
  import opened TreeLaws
  import opened ServerValue
  import opened Backend
  import opened Paths
  import opened Ordering
  import opened ChildEvents
  import opened LocalView
  import Transactions
  import Text

  /** The inboxes when the listeners in `todo` are still to be called. */
  ghost function PartlyDispatched(v: View, todo: set<nat>, changed: Path, before: Json, after: Json)
    : map<nat, seq<Notice>>
  {
    map id | id in v.inbox ::
      if id in v.listeners && id !in todo then v.inbox[id] + Raised(v.listeners[id], changed, before, after)
      else v.inbox[id]
  }

  /** The listeners a change concerns. */
  function Matching(listeners: map<nat, Listener>, changed: Path): set<nat> {
    set id | id in listeners && PathsRelated(listeners[id].path, changed)
  }

  function ListenersAt(listeners: map<nat, Listener>, path: Path): set<nat> {
    set id | id in listeners && listeners[id].path == path
  }

  /** What the server said, kept for the listeners it turns away. */
  function RevocationError(status: string, detail: Option<string>): CancelError {
    var text := if detail.Some? then detail.value else "listener revoked by server";
    if status == "permission_denied" then PermissionDenied(text) else Internal(text)
  }

  /** What a transaction without rivals reports. */
  function TransactionReport(data: Json, path: Path, update: Json -> Option<Json>, now: nat)
    : Result<Transactions.TransactionResult, Transactions.TransactionError>
  {
    var current := GetAt(data, path);
    if update(ExtractData(current)).None? then Ok(Transactions.TransactionResult(false, current))
    else match TransactionStores(data, path, update, now)
         case Some(v) => Ok(Transactions.TransactionResult(true, v))
         case None => Err(Transactions.BadPlaceholder)
  }

  lemma NothingDispatched(v: View, changed: Path, before: Json, after: Json)
    ensures PartlyDispatched(v, Matching(v.listeners, changed), changed, before, after) == v.inbox
  {
    var m := PartlyDispatched(v, Matching(v.listeners, changed), changed, before, after);
    forall id | id in v.inbox ensures m[id] == v.inbox[id] {
      assert v.inbox[id] + [] == v.inbox[id];
    }
  }

  lemma OneMoreDispatched(v: View, todo: set<nat>, id: nat, changed: Path, before: Json, after: Json)
    requires id in todo && id in v.listeners && id in v.inbox
    ensures PartlyDispatched(v, todo - {id}, changed, before, after)
         == var was := PartlyDispatched(v, todo, changed, before, after);
            was[id := v.inbox[id] + Raised(v.listeners[id], changed, before, after)]
    ensures PartlyDispatched(v, todo, changed, before, after)[id] == v.inbox[id]
  {}

  lemma AllDispatched(v: View, changed: Path, before: Json, after: Json)
    ensures PartlyDispatched(v, {}, changed, before, after) == Dispatched(v, changed, before, after)
  {}

  /** The loop over a merge frame's entries, on a copy of the mirror. */
  method MergeInto(root: Json, base: Path, entries: map<string, Json>) returns (r: Result<Json, FrameError>)
    ensures var ws := MergeWrites(base, SortedKeys(entries.Keys), entries);
            if ws.Ok? then r == Ok(WrittenAll(root, ws.value)) else r == Err(ws.error)
  {
    var keys := SortKeys(entries.Keys);
    var newRoot := root;
    ghost var whole := MergeWrites(base, keys, entries);
    assert keys[0..] == keys;
    for i := 0 to |keys|
      invariant forall k | k in keys[i..] :: k in entries
      invariant whole.Ok? <==> MergeWrites(base, keys[i..], entries).Ok?
      invariant whole.Err? ==> whole == MergeWrites(base, keys[i..], entries)
      invariant whole.Ok? ==>
        WrittenAll(newRoot, MergeWrites(base, keys[i..], entries).value) == WrittenAll(root, whole.value)
    {
      assert keys[i] in keys[i..] && keys[i..][1..] == keys[i+1..];
      var relative := NormalizePath(keys[i]);
      if relative.Err? {
        return Err(BadPath);
      }
      ghost var rest := MergeWrites(base, keys[i+1..], entries);
      if rest.Ok? {
        var w := Write(base + relative.value, entries[keys[i]]);
        assert ([w] + rest.value)[1..] == rest.value;
      }
      newRoot := ApplyRealtimeValue(newRoot, base + relative.value, entries[keys[i]]);
    }
    return Ok(newRoot);
  }

  /** What a frame at a good path does, or why it is refused. */
  ghost predicate TakesFrame(action: Action, base: Path, data: Json, after: Json, r: Result<(), FrameError>) {
    match action
    case Data => r == Ok(()) && Shows(after, base, data)
    case Merge =>
      if !data.Obj? then r == Err(MergeNotAnObject)
      else if exists k | k in data.fields :: Normalized(k).Err? then r == Err(BadPath)
      else r == Ok(())
  }

  lemma FrameTaken(v: View, action: Action, path: string, data: Json)
    requires Normalized(path).Ok?
    ensures var r := Framed(v, action, Some(path), data);
            if r.Ok? then TakesFrame(action, Normalized(path).value, data, r.value.mirror, Ok(()))
            else TakesFrame(action, Normalized(path).value, data, v.mirror, Err(r.error))
  {
    hide Normalized, Written, Shows, Dispatched;
    if action.Data? {
      WrittenShows(v.mirror, Normalized(path).value, data);
    } else if data.Obj? {
      MergeWritesMean(Normalized(path).value, SortedKeys(data.fields.Keys), data.fields);
    }
  }

  method ToOperations(base: Path, updates: seq<(string, Json)>) returns (r: Result<seq<Write>, UpdateError>)
    ensures r == Operations(base, updates)
    ensures WriteByWrite(base, updates, r)
  {
    OperationsMean(base, updates);
    hide Refused, WriteByWrite;
    var operations: seq<Write> := [];
    ghost var whole := Operations(base, updates);
    assert updates[0..] == updates && (whole.Ok? ==> [] + whole.value == whole.value);
    for i := 0 to |updates|
      invariant Operations(base, updates[i..]).Err? ==> whole == Operations(base, updates[i..])
      invariant Operations(base, updates[i..]).Ok? ==> whole == Ok(operations + Operations(base, updates[i..]).value)
    {
      assert updates[i..][1..] == updates[i+1..];
      var key, value := updates[i].0, updates[i].1;
      if Text.Trim(key, Text.WhiteSpace) == "" {
        return Err(EmptyKey);
      }
      var relative := NormalizePath(key);
      if relative.Err? {
        return Err(BadKey);
      }
      if relative.value == [] {
        return Err(CurrentLocation);
      }
      ghost var rest := Operations(base, updates[i+1..]);
      var w := Write(base + relative.value, value);
      if rest.Ok? {
        assert operations + ([w] + rest.value) == (operations + [w]) + rest.value;
      }
      operations := operations + [w];
    }
    assert operations + [] == operations;
    return Ok(operations);
  }

  class Database {
    const backend: InMemoryBackend
    var mirror: Json
    var listeners: map<nat, Listener>
    var inbox: map<nat, seq<Notice>>
    var nextId: nat

    ghost predicate Valid()
      reads this
    {
      listeners.Keys <= inbox.Keys && forall id | id in inbox :: id < nextId
    }

    ghost function Now(): View
      reads this
    {
      View(mirror, listeners, inbox, nextId)
    }

    ghost function Whole(): State
      reads this, backend
    {
      State(Now(), backend.data)
    }

    constructor (tag: Json -> nat)
      ensures Valid() && fresh(backend) && Whole() == INITIAL
    {
      backend := new InMemoryBackend(tag);
      mirror, listeners, inbox, nextId := Obj(map[]), map[], map[], 1;
    }

    method IsSynced(path: Path) returns (synced: bool)
      ensures synced <==> Synced(Now(), path)
      ensures synced <==> exists id | id in listeners :: listeners[id].path <= path
    {
      synced := exists id | id in listeners :: listeners[id].path <= path;
    }

    /** Calls one related listener, if the change is one it has to hear about. */
    method Notify(id: nat, changed: Path, oldRoot: Json, newRoot: Json)
      requires Valid() && id in Matching(listeners, changed)
      modifies this`inbox
      ensures inbox == old(inbox)[id := old(inbox)[id] + Raised(listeners[id], changed, oldRoot, newRoot)]
    {
      var path := listeners[id].path;
      var before := GetValueAtPath(oldRoot, path);
      var after := GetValueAtPath(newRoot, path);
      var was := if before.Some? then before.value else Null;
      var now := if after.Some? then after.value else Null;
      match listeners[id].kind {
        case OnValue =>
          if was == now {
            assert inbox[id] + [] == inbox[id];
            return;
          }
          inbox := inbox[id := inbox[id] + [Value(now)]];
        case OnChild(event) =>
          var events := EmitChildEvents(event, was, now);
          inbox := inbox[id := inbox[id] + AsNotices(events)];
      }
    }

    method DispatchListeners(changed: Path, oldRoot: Json, newRoot: Json)
      requires Valid()
      modifies this`inbox
      ensures Valid() && inbox == Dispatched(old(Now()), changed, oldRoot, newRoot)
      ensures forall id | id in listeners && listeners[id].kind.OnValue? ::
              var p := listeners[id].path;
              inbox[id] == old(inbox)[id] +
                if (p <= changed || changed <= p) && ValueAt(oldRoot, p) != ValueAt(newRoot, p)
                then [Value(ValueAt(newRoot, p))] else []
    {
      ghost var v := Now();
      var todo := Matching(listeners, changed);
      NothingDispatched(v, changed, oldRoot, newRoot);
      while todo != {}
        invariant todo <= Matching(listeners, changed)
        invariant inbox == PartlyDispatched(v, todo, changed, oldRoot, newRoot)
      {
        var id :| id in todo;
        OneMoreDispatched(v, todo, id, changed, oldRoot, newRoot);
        Notify(id, changed, oldRoot, newRoot);
        todo := todo - {id};
      }
      AllDispatched(v, changed, oldRoot, newRoot);
    }

    method ApplyLocalWrite(path: Path, value: Json)
      requires Valid()
      modifies this
      ensures Valid() && Now() == LocalWrite(old(Now()), path, value)
    {
      var oldRoot := mirror;
      mirror := ApplyRealtimeValue(mirror, path, value);
      DispatchListeners(path, oldRoot, mirror);
    }

    method ApplyLocalWrites(ws: seq<Write>)
      requires Valid()
      modifies this
      ensures Valid() && Now() == LocalWrites(old(Now()), ws)
    {
      assert ws[0..] == ws;
      for i := 0 to |ws|
        invariant Valid() && LocalWrites(Now(), ws[i..]) == LocalWrites(old(Now()), ws)
      {
        assert ws[i..][1..] == ws[i+1..];
        ApplyLocalWrite(ws[i].path, ws[i].value);
      }
    }

    method HandleRealtimeData(action: Action, path: Option<string>, data: Json) returns (r: Result<(), FrameError>)
      requires Valid()
      modifies this
      ensures Valid()
      ensures match Framed(old(Now()), action, path, data)
              case Ok(v) => r == Ok(()) && Now() == v
              case Err(e) => r == Err(e) && Now() == old(Now())
      ensures path.None? ==> r == Ok(()) && Now() == old(Now())
      ensures path.Some? && Normalized(path.value).Err? ==> r == Err(BadPath)
      ensures path.Some? && Normalized(path.value).Ok? ==>
              TakesFrame(action, Normalized(path.value).value, data, mirror, r)
    {
      if path.Some? && Normalized(path.value).Ok? { FrameTaken(Now(), action, path.value, data); }
      hide TakesFrame;
      if path.None? {
        return Ok(());
      }
      var parsed := NormalizePath(path.value);
      if parsed.Err? {
        return Err(BadPath);
      }
      var base, oldRoot, newRoot := parsed.value, mirror, mirror;
      match action {
        case Data =>
          newRoot := ApplyRealtimeValue(newRoot, base, data);
        case Merge =>
          if !data.Obj? {
            return Err(MergeNotAnObject);
          }
          var merged := MergeInto(newRoot, base, data.fields);
          if merged.Err? {
            return Err(merged.error);
          }
          newRoot := merged.value;
      }
      mirror := newRoot;
      DispatchListeners(base, oldRoot, newRoot);
      return Ok(());
    }

    method Insert(path: Path, kind: Kind) returns (mine: nat)
      requires Valid()
      modifies this`listeners, this`inbox, this`nextId
      ensures Valid() && mine == old(nextId) && nextId == mine + 1
      ensures listeners == old(listeners)[mine := Listener(path, kind)] && inbox == old(inbox)[mine := []]
    {
      mine := nextId;
      nextId := nextId + 1;
      listeners := listeners[mine := Listener(path, kind)];
      inbox := inbox[mine := []];
    }

    method Seed(path: Path)
      modifies this`mirror
      ensures mirror == Written(old(mirror), path, GetAt(backend.data, path))
    {
      var seed := backend.Get(path);
      mirror := ApplyRealtimeValue(mirror, path, seed);
    }

    /** Attaches a listener; one the connection refuses, or whose seed cannot be read, leaves nothing behind
        but a used id. */
    method RegisterListener(path: Path, kind: Kind, accepted: bool) returns (id: Option<nat>)
      requires Valid()
      modifies this
      ensures Valid()
      ensures accepted ==> id == Some(old(nextId))
      ensures accepted ==> Now() == Attached(old(Now()), path, kind, GetAt(backend.data, path))
      ensures accepted ==> listeners == old(listeners)[id.value := Listener(path, kind)]
      ensures accepted ==> Shows(mirror, path, GetAt(backend.data, path))
      ensures accepted && kind == OnChild(Added) ==>
              inbox == old(inbox)[id.value := AsNotices(Events(Added, map[], ChildrenOf(ValueAt(mirror, path))))]
      ensures accepted && kind.OnValue? ==> inbox == old(inbox)[id.value := [Value(ValueAt(mirror, path))]]
      ensures accepted && kind.OnChild? && !kind.event.Added? ==> inbox == old(inbox)[id.value := []]
      ensures !accepted ==> id == None && Now() == old(Now()).(nextId := old(nextId) + 1)
    {
      WrittenShows(mirror, path, GetAt(backend.data, path));
      NoChildrenOfNull();
      hide Written, GetAt, ValueAt, Events, ChildrenOf, Shows;
      var mine := Insert(path, kind);
      if !accepted {
        listeners, inbox := listeners - {mine}, inbox - {mine};
        assert listeners == old(listeners) && inbox == old(inbox);
        return None;
      }
      Seed(path);
      var first := Introduce(path, kind);
      inbox := inbox[mine := first];
      assert inbox == old(inbox)[mine := first];
      return Some(mine);
    }

    static lemma NoChildrenOfNull()
      ensures ChildrenOf(Null) == map[]
    {}

    method Introduce(path: Path, kind: Kind) returns (first: seq<Notice>)
      ensures first == FirstNotices(kind, ValueAt(mirror, path))
    {
      var found := GetValueAtPath(mirror, path);
      var value := if found.Some? then found.value else Null;
      match kind
      case OnValue => first := [Value(value)];
      case OnChild(event) =>
        first := [];
        if event.Added? {
          var events := EmitChildEvents(event, Null, value);
          first := AsNotices(events);
        }
    }

    method RemoveListener(id: nat)
      requires Valid()
      modifies this`listeners
      ensures Valid() && Now() == Detached(old(Now()), id)
      ensures listeners == old(listeners) - {id} && inbox == old(inbox) && mirror == old(mirror)
    {
      listeners := listeners - {id};
    }

    method Cancel(dropped: set<nat>, error: CancelError)
      requires Valid() && dropped <= listeners.Keys
      modifies this
      ensures Valid() && Now() == Revoked(old(Now()), dropped, error)
    {
      listeners := listeners - dropped;
      ghost var before := inbox;
      var todo := dropped;
      while todo != {}
        modifies this`inbox
        invariant todo <= dropped && inbox.Keys == before.Keys
        invariant forall id | id in inbox ::
                  inbox[id] == if id in dropped && id !in todo then before[id] + [Cancelled(error)] else before[id]
      {
        var id :| id in todo;
        inbox, todo := inbox[id := inbox[id] + [Cancelled(error)]], todo - {id};
      }
    }

    /** The server revoked the listeners of exactly this path, for the status and detail it gives; a bad
        path is ignored. */
    method RevokeListener(path: Option<string>, status: string, detail: Option<string>)
      requires Valid()
      modifies this
      ensures Valid()
      ensures path.None? || Normalized(path.value).Err? ==> Now() == old(Now())
      ensures path.Some? && Normalized(path.value).Ok? ==>
              && (forall id :: id in listeners <==>
                    id in old(listeners) && old(listeners)[id].path != Normalized(path.value).value)
              && (forall id | id in listeners :: listeners[id] == old(listeners)[id])
              && inbox.Keys == old(inbox).Keys && mirror == old(mirror) && nextId == old(nextId)
              && forall id | id in inbox ::
                   inbox[id] == old(inbox)[id] +
                     if id in old(listeners) && old(listeners)[id].path == Normalized(path.value).value
                     then var text := if detail.Some? then detail.value else "listener revoked by server";
                          [Cancelled(if status == "permission_denied" then PermissionDenied(text) else Internal(text))]
                     else []
    {
      if path.Some? {
        var parsed := NormalizePath(path.value);
        if parsed.Ok? {
          Cancel(ListenersAt(listeners, parsed.value), RevocationError(status, detail));
        }
      }
    }

    method FailListeners(error: CancelError)
      requires Valid()
      modifies this
      ensures Valid() && Now() == Revoked(old(Now()), old(listeners).Keys, error)
      ensures listeners == map[] && inbox.Keys == old(inbox).Keys
      ensures forall id | id in inbox ::
              inbox[id] == old(inbox)[id] + if id in old(listeners) then [Cancelled(error)] else []
    {
      Cancel(listeners.Keys, error);
    }

    method Set(path: Path, value: Json, now: nat) returns (r: Result<(), SvError>)
      requires Valid()
      modifies this, backend
      ensures Valid() && Whole() == Step(old(Whole()), Op.Set(path, value, now))
      ensures r.Ok? <==> WellFormed(value)
      ensures r.Ok? ==>
              && Resolved(value, Some(ExtractData(GetAt(old(backend.data), path))), now)
                 == Ok(GetAt(backend.data, path))
              && SameElsewhere(old(backend.data), backend.data, path)
              && Shows(mirror, path, GetAt(backend.data, path))
      ensures r.Err? ==> Whole() == old(Whole())
    {
      hide Shows, SameElsewhere;
      FailsIffMalformed(value, Some(ExtractData(GetAt(backend.data, path))), now);
      var stored := backend.Set(path, value, now);
      if stored.Err? {
        return Err(stored.error);
      }
      GetAfterSet(old(backend.data), path, stored.value);
      SetElsewhere(old(backend.data), path, stored.value);
      WrittenShows(mirror, path, stored.value);
      ApplyLocalWrite(path, stored.value);
      return Ok(());
    }

    method Remove(path: Path)
      requires Valid()
      modifies this, backend
      ensures Valid() && Whole() == Step(old(Whole()), Op.Remove(path))
      ensures GetAt(backend.data, path) == Null && SameElsewhere(old(backend.data), backend.data, path)
      ensures Shows(mirror, path, Null)
    {
      hide Shows, SameElsewhere;
      GetAfterDelete(backend.data, path);
      SetElsewhere(backend.data, path, Null);
      WrittenShows(mirror, path, Null);
      backend.Delete(path);
      ApplyLocalWrite(path, Null);
    }

    method Update(base: Path, updates: seq<(string, Json)>, now: nat) returns (r: Result<(), UpdateFailure>)
      requires Valid()
      modifies this, backend
      ensures Valid() && Whole() == Step(old(Whole()), Op.Update(base, updates, now))
      ensures match Operations(base, updates)
              case Err(e) => r == Err(BadUpdate(e))
              case Ok(ws) =>
                match UpdateAll(old(backend.data), ws, now).stored
                case Err(e) => r == Err(BadValue(e))
                case Ok(_) => r == Ok(())
      ensures r.Ok? && KeysUnrelated(base, updates) ==>
              UpdateShows(base, updates, old(backend.data), backend.data, now)
    {
      hide Refused, UpdateShows, KeysUnrelated;
      if Operations(base, updates).Ok? && KeysUnrelated(base, updates)
        && UpdateAll(backend.data, Operations(base, updates).value, now).stored.Ok? {
        UpdateIsRead(base, updates, backend.data, now);
      }
      if updates == [] {
        assert UpdateAll(backend.data, [], now) == UpdateOutcome(backend.data, Ok([]));
        return Ok(());
      }
      var operations := ToOperations(base, updates);
      if operations.Err? {
        return Err(BadUpdate(operations.error));
      }
      var stored := backend.Update(operations.value, now);
      if stored.Err? {
        return Err(BadValue(stored.error));
      }
      ApplyLocalWrites(stored.value);
      return Ok(());
    }

    method RunTransaction(path: Path, update: Json -> Option<Json>, now: nat)
      returns (r: Result<Transactions.TransactionResult, Transactions.TransactionError>)
      requires Valid()
      modifies this, backend
      ensures Valid() && Whole() == Step(old(Whole()), Transact(path, update, now))
      ensures r == TransactionReport(old(backend.data), path, update, now)
      ensures r.Ok? && r.value.committed ==>
              && GetAt(backend.data, path) == r.value.value && SameElsewhere(old(backend.data), backend.data, path)
              && Shows(mirror, path, r.value.value)
      ensures !(r.Ok? && r.value.committed) ==> Whole() == old(Whole())
    {
      hide Shows, SameElsewhere;
      ghost var schedule;
      ghost var data := backend.data;
      r, schedule := Transactions.RunTransaction(backend, Transactions.Txn(path, update), _ => [], now);
      AloneNeverConflicts(data, path, update, now, backend.tag);
      if r.Ok? && r.value.committed {
        SetElsewhere(data, path, r.value.value);
        WrittenShows(mirror, path, r.value.value);
        ApplyLocalWrite(path, r.value.value);
      }
    }

    method Get(path: Path) returns (value: Json)
      requires Valid()
      ensures value == Got(Whole(), path)
      ensures value == if exists id | id in listeners :: listeners[id].path <= path then ValueAt(mirror, path)
                       else GetAt(backend.data, path)
    {
      var synced := IsSynced(path);
      if synced {
        var found := GetValueAtPath(mirror, path);
        return if found.Some? then found.value else Null;
      }
      value := backend.Get(path);
    }
  }

  datatype UpdateFailure = BadUpdate(why: UpdateError) | BadValue(sv: SvError)

  /** Without rivals the first attempt decides. */
  lemma AloneNeverConflicts(data: Json, path: Path, update: Json -> Option<Json>, now: nat, tag: Json -> nat)
    ensures var w := Transactions.Execute(Transactions.Fresh(data),
                                          [Transactions.Begin(0), Transactions.Attempt(0, now)],
                                          Transactions.Only(Transactions.Txn(path, update)), tag);
            var stores := TransactionStores(data, path, update, now);
            (stores.Some? ==> w.data == Put(data, path, stores.value)
                              && Transactions.ClientOf(w, 0) == Transactions.Client.Committed(stores.value))
            && (stores.None? ==> w.data == data && !Transactions.ClientOf(w, 0).Committed?)
            && forall r | Transactions.Reports(Transactions.ClientOf(w, 0), r) ::
                 r == TransactionReport(data, path, update, now)
  {
    var txns := Transactions.Only(Transactions.Txn(path, update));
    Transactions.ExecuteOneMore(Transactions.Fresh(data), [], Transactions.Begin(0), txns, tag);
    Transactions.ExecuteOneMore(
      Transactions.Fresh(data), [Transactions.Begin(0)], Transactions.Attempt(0, now), txns, tag);
    assert [] + [Transactions.Begin(0)] == [Transactions.Begin(0)];
    assert [Transactions.Begin(0)] + [Transactions.Attempt(0, now)] ==
           [Transactions.Begin(0), Transactions.Attempt(0, now)];
  }
}

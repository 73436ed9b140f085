/** Child listeners over whole runs: the events raised at a path replay to the path's present children,
    as long as no seed read changes them silently. */
module ChildRuns {
  import opened Wrappers
  import opened Json
  import opened TreeEditors
  import opened TreeLaws
  import opened ServerValue
  import opened Backend
  import opened ManyWrites
  import opened Ordering
  import opened ChildEvents
  import opened LocalView

  // ----- What a run raises -----

  /** One dispatch: a change at a path that took the mirror from one tree to another. */
  datatype Move = Move(changed: Path, before: Json, after: Json)

  ghost function WriteMoves(root: Json, ws: seq<Write>): seq<Move>
    decreases |ws|
  {
    if ws == [] then []
    else
      var after := Written(root, ws[0].path, ws[0].value);
      [Move(ws[0].path, root, after)] + WriteMoves(after, ws[1..])
  }

  /** The dispatches of one operation, in order. Attaching seeds the mirror without any. */
  ghost function Moves(s: State, op: Op): seq<Move> {
    var mirror := s.view.mirror;
    match op
    case Set(path, value, now) =>
      var stored := Stored(s.data, path, value, now);
      if stored.Ok? then WriteMoves(mirror, [Write(path, stored.value)]) else []
    case Update(base, updates, now) =>
      (match Operations(base, updates)
       case Err(_) => []
       case Ok(ws) =>
         var stored := UpdateAll(s.data, ws, now).stored;
         if stored.Ok? then WriteMoves(mirror, stored.value) else [])
    case Remove(path) => WriteMoves(mirror, [Write(path, Null)])
    case Transact(path, update, now) =>
      var stored := TransactionStores(s.data, path, update, now);
      if stored.Some? then WriteMoves(mirror, [Write(path, stored.value)]) else []
    case Attach(_, _) => []
    case Detach(_) => []
    case Remote(path, value) => if SomeoneListens(s.view, path) then WriteMoves(mirror, [Write(path, value)]) else []
    case RemoteMerge(base, ws) =>
      if SomeoneListens(s.view, base) then [Move(base, mirror, WrittenAll(mirror, ws))] else []
  }

  /** What a child listener at `p` hears of one dispatch, by kind of event. */
  ghost function Raises(event: EventType, m: Move, p: Path): seq<ChildEvent> {
    if !PathsRelated(p, m.changed) then []
    else Events(event, ChildrenOf(ValueAt(m.before, p)), ChildrenOf(ValueAt(m.after, p)))
  }

  ghost function Heard(event: EventType, moves: seq<Move>, p: Path): seq<ChildEvent> {
    if moves == [] then [] else Raises(event, moves[0], p) + Heard(event, moves[1..], p)
  }

  /** All events at `p`, dispatch by dispatch: removals, changes, additions. */
  ghost function Feed(moves: seq<Move>, p: Path): seq<ChildEvent> {
    if moves == [] then []
    else Raises(Removed, moves[0], p) + Raises(Changed, moves[0], p) + Raises(Added, moves[0], p) + Feed(moves[1..], p)
  }

  ghost function RunMoves(s: State, ops: seq<Op>): seq<Move>
    decreases |ops|
  {
    if ops == [] then [] else Moves(s, ops[0]) + RunMoves(Step(s, ops[0]), ops[1..])
  }

  function OfKind(event: EventType, events: seq<ChildEvent>): seq<ChildEvent> {
    if events == [] then [] else (if events[0].event == event then [events[0]] else []) + OfKind(event, events[1..])
  }

  // ----- The inboxes -----

  lemma HeardStep(event: EventType, m: Move, rest: seq<Move>, p: Path)
    ensures Heard(event, [m] + rest, p) == Raises(event, m, p) + Heard(event, rest, p)
  {
    hide Raises;
    assert ([m] + rest)[1..] == rest;
  }

  lemma HeardNothing(event: EventType, p: Path)
    ensures Heard(event, [], p) == []
  {}

  lemma {:induction false} HeardSplit(event: EventType, a: seq<Move>, b: seq<Move>, p: Path)
    ensures Heard(event, a + b, p) == Heard(event, a, p) + Heard(event, b, p)
  {
    hide Raises, Heard;
    if a == [] {
      assert a + b == b;
      HeardNothing(event, p);
    } else {
      assert a == [a[0]] + a[1..] && a + b == [a[0]] + (a[1..] + b);
      HeardStep(event, a[0], a[1..] + b, p);
      HeardStep(event, a[0], a[1..], p);
      HeardSplit(event, a[1..], b, p);
      Regroup(Raises(event, a[0], p), Heard(event, a[1..], p), Heard(event, b, p));
    }
  }

  lemma NoticesSplit(a: seq<ChildEvent>, b: seq<ChildEvent>)
    ensures AsNotices(a + b) == AsNotices(a) + AsNotices(b)
  {}

  lemma WriteIsHeard(v: View, w: Write, id: nat, p: Path, event: EventType)
    requires id in v.listeners && v.listeners[id] == Listener(p, OnChild(event)) && id in v.inbox
    ensures var next := LocalWrite(v, w.path, w.value);
            && next.listeners == v.listeners && next.nextId == v.nextId && id in next.inbox
            && next.inbox[id] == v.inbox[id] + AsNotices(Raises(event, Move(w.path, v.mirror, next.mirror), p))
  {
    hide Written, Events, PathsRelated, ValueAt;
  }

  lemma {:induction false} WritesAreHeard(v: View, ws: seq<Write>, id: nat, p: Path, event: EventType)
    requires id in v.listeners && v.listeners[id] == Listener(p, OnChild(event)) && id in v.inbox
    ensures var w := LocalWrites(v, ws);
            && w.listeners == v.listeners && w.nextId == v.nextId && id in w.inbox
            && w.inbox[id] == v.inbox[id] + AsNotices(Heard(event, WriteMoves(v.mirror, ws), p))
    decreases |ws|
  {
    hide Heard, Raises, Written, AsNotices, Dispatched;
    if ws == [] {
      HeardNothing(event, p);
      NoNotices(v.inbox[id]);
    } else {
      var next := LocalWrite(v, ws[0].path, ws[0].value);
      var m, rest := Move(ws[0].path, v.mirror, next.mirror), WriteMoves(next.mirror, ws[1..]);
      WriteIsHeard(v, ws[0], id, p, event);
      WritesAreHeard(next, ws[1..], id, p, event);
      HeardStep(event, m, rest, p);
      NoticesSplit(Raises(event, m, p), Heard(event, rest, p));
      Regroup(v.inbox[id], AsNotices(Raises(event, m, p)), AsNotices(Heard(event, rest, p)));
    }
  }

  lemma NoNotices(inbox: seq<Notice>)
    ensures inbox + AsNotices([]) == inbox
  {}

  lemma OneWrite(v: View, path: Path, value: Json)
    ensures LocalWrites(v, [Write(path, value)]) == LocalWrite(v, path, value)
  {
    assert [Write(path, value)][1..] == [];
  }

  lemma StepIsHeard(s: State, op: Op, id: nat, p: Path, event: EventType)
    requires id in s.view.listeners && s.view.listeners[id] == Listener(p, OnChild(event)) && id in s.view.inbox
    requires id < s.view.nextId && op != Detach(id)
    ensures var v := Step(s, op).view;
            && id in v.listeners && v.listeners[id] == s.view.listeners[id] && id < v.nextId && id in v.inbox
            && v.inbox[id] == s.view.inbox[id] + AsNotices(Heard(event, Moves(s, op), p))
  {
    hide Written, WrittenAll, UpdateAll, Operations, Stored, Events, PathsRelated;
    match op
    case Set(path, value, now) =>
      var stored := Stored(s.data, path, value, now);
      if stored.Ok? {
        OneWrite(s.view, path, stored.value);
        WritesAreHeard(s.view, [Write(path, stored.value)], id, p, event);
      }
    case Update(base, updates, now) =>
      if Operations(base, updates).Ok? {
        var stored := UpdateAll(s.data, Operations(base, updates).value, now).stored;
        if stored.Ok? { WritesAreHeard(s.view, stored.value, id, p, event); }
      }
    case Remove(path) =>
      OneWrite(s.view, path, Null);
      WritesAreHeard(s.view, [Write(path, Null)], id, p, event);
    case Transact(path, update, now) =>
      var stored := TransactionStores(s.data, path, update, now);
      if stored.Some? {
        OneWrite(s.view, path, stored.value);
        WritesAreHeard(s.view, [Write(path, stored.value)], id, p, event);
      }
    case Attach(_, _) =>
    case Detach(_) =>
    case Remote(path, value) =>
      if SomeoneListens(s.view, path) {
        OneWrite(s.view, path, value);
        WritesAreHeard(s.view, [Write(path, value)], id, p, event);
      }
    case RemoteMerge(base, ws) =>
      if SomeoneListens(s.view, base) { MergeIsHeard(s.view, base, ws, id, p, event); }
  }

  lemma MergeIsHeard(v: View, base: Path, ws: seq<Write>, id: nat, p: Path, event: EventType)
    requires id in v.listeners && v.listeners[id] == Listener(p, OnChild(event)) && id in v.inbox
    ensures Merged(v, base, ws).inbox[id]
         == v.inbox[id] + AsNotices(Heard(event, [Move(base, v.mirror, WrittenAll(v.mirror, ws))], p))
  {
    var m := Move(base, v.mirror, WrittenAll(v.mirror, ws));
    assert [m][1..] == [] && Raises(event, m, p) + [] == Raises(event, m, p);
  }

  lemma {:induction false} RunIsHeard(s: State, ops: seq<Op>, id: nat, p: Path, event: EventType)
    requires id in s.view.listeners && s.view.listeners[id] == Listener(p, OnChild(event)) && id in s.view.inbox
    requires id < s.view.nextId && Detach(id) !in ops
    ensures id in Run(s, ops).view.inbox
    ensures Run(s, ops).view.inbox[id] == s.view.inbox[id] + AsNotices(Heard(event, RunMoves(s, ops), p))
    decreases |ops|
  {
    hide Step, Moves, Heard, AsNotices;
    if ops == [] {
      HeardNothing(event, p);
      NoNotices(s.view.inbox[id]);
    } else {
      var first, rest := Moves(s, ops[0]), RunMoves(Step(s, ops[0]), ops[1..]);
      assert ops[0] in ops && forall op | op in ops[1..] :: op in ops;
      StepIsHeard(s, ops[0], id, p, event);
      RunIsHeard(Step(s, ops[0]), ops[1..], id, p, event);
      HeardSplit(event, first, rest, p);
      NoticesSplit(Heard(event, first, p), Heard(event, rest, p));
      Regroup(s.view.inbox[id], AsNotices(Heard(event, first, p)), AsNotices(Heard(event, rest, p)));
    }
  }

  /** A child listener that stays attached has been told exactly its kind of events, in order. */
  lemma ListenerHearsItsKind(s: State, ops: seq<Op>, id: nat, p: Path, event: EventType)
    requires id in s.view.listeners && s.view.listeners[id] == Listener(p, OnChild(event)) && id in s.view.inbox
    requires id < s.view.nextId && Detach(id) !in ops
    ensures id in Run(s, ops).view.inbox
    ensures Run(s, ops).view.inbox[id] == s.view.inbox[id] + AsNotices(OfKind(event, Feed(RunMoves(s, ops), p)))
  {
    RunIsHeard(s, ops, id, p, event);
    HeardIsOfKind(event, RunMoves(s, ops), p);
  }

  lemma OfKindStep(event: EventType, e: ChildEvent, rest: seq<ChildEvent>)
    ensures OfKind(event, [e] + rest) == (if e.event == event then [e] else []) + OfKind(event, rest)
    ensures OfKind(event, []) == []
  {
    assert ([e] + rest)[1..] == rest;
  }

  lemma {:induction false} OfKindSplit(event: EventType, a: seq<ChildEvent>, b: seq<ChildEvent>)
    ensures OfKind(event, a + b) == OfKind(event, a) + OfKind(event, b)
  {
    if a == [] {
      assert a + b == b;
    } else {
      hide OfKind;
      assert a == [a[0]] + a[1..] && a + b == [a[0]] + (a[1..] + b);
      OfKindStep(event, a[0], a[1..] + b);
      OfKindStep(event, a[0], a[1..]);
      OfKindSplit(event, a[1..], b);
      Regroup(if a[0].event == event then [a[0]] else [], OfKind(event, a[1..]), OfKind(event, b));
    }
  }

  lemma {:induction false} OneKind(event: EventType, kind: EventType, events: seq<ChildEvent>)
    requires forall e | e in events :: e.event == kind
    ensures OfKind(event, events) == if event == kind then events else []
  {
    if events != [] {
      assert events[0] in events && events == [events[0]] + events[1..];
      OneKind(event, kind, events[1..]);
    }
  }

  lemma {:induction false} EventsAreOfKind(
      event: EventType, was: map<string, Json>, now: map<string, Json>, keys: seq<string>, n: nat)
    requires n <= |keys|
    ensures forall e | e in EventsUpTo(event, was, now, keys, n) :: e.event == event
  {
    if n > 0 { EventsAreOfKind(event, was, now, keys, n - 1); }
  }

  lemma RaisesKind(event: EventType, kind: EventType, m: Move, p: Path)
    ensures OfKind(event, Raises(kind, m, p)) == if event == kind then Raises(kind, m, p) else []
  {
    var was, now := ChildrenOf(ValueAt(m.before, p)), ChildrenOf(ValueAt(m.after, p));
    EventsAreOfKind(kind, was, now, KeysFor(kind, was, now), |KeysFor(kind, was, now)|);
    OneKind(event, kind, Raises(kind, m, p));
  }

  lemma {:induction false} HeardIsOfKind(event: EventType, moves: seq<Move>, p: Path)
    ensures OfKind(event, Feed(moves, p)) == Heard(event, moves, p)
  {
    hide Raises, OfKind;
    if moves == [] {
      assert OfKind(event, []) == [] by { OneKind(event, event, []); }
    } else {
      var r, c, a := Raises(Removed, moves[0], p), Raises(Changed, moves[0], p), Raises(Added, moves[0], p);
      var rest := Feed(moves[1..], p);
      HeardIsOfKind(event, moves[1..], p);
      OfKindSplit(event, r + c + a, rest);
      OfKindSplit(event, r + c, a);
      OfKindSplit(event, r, c);
      RaisesKind(event, Removed, moves[0], p);
      RaisesKind(event, Changed, moves[0], p);
      RaisesKind(event, Added, moves[0], p);
    }
  }

  // ----- Replaying a run -----

  ghost function ListOf(children: map<string, Json>): seq<Child> {
    Pairs(SortedKeys(children.Keys), children)
  }

  ghost function ChildList(mirror: Json, p: Path): seq<Child> {
    ListOf(ChildrenOf(ValueAt(mirror, p)))
  }

  /** Each dispatch starts where the one before ended, and what it does not tell `p` it leaves alone. */
  ghost predicate Chained(root: Json, moves: seq<Move>, end: Json, p: Path)
    decreases |moves|
  {
    if moves == [] then root == end
    else
      && moves[0].before == root
      && (!PathsRelated(p, moves[0].changed) ==> ValueAt(moves[0].after, p) == ValueAt(root, p))
      && Chained(moves[0].after, moves[1..], end, p)
  }

  lemma {:induction false} ApplySplit(list: seq<Child>, a: seq<ChildEvent>, b: seq<ChildEvent>)
    ensures ApplyAll(list, a + b) == ApplyAll(ApplyAll(list, a), b)
  {
    hide Apply;
    if b == [] {
      assert a + b == a;
    } else {
      var n := |b| - 1;
      ApplySplit(list, a, b[..n]);
      assert a + b == (a + b[..n]) + [b[n]];
      ApplyOneMore(list, a + b[..n], b[n]);
    }
  }

  lemma MoveReplays(m: Move, p: Path)
    requires !PathsRelated(p, m.changed) ==> ValueAt(m.after, p) == ValueAt(m.before, p)
    ensures ApplyAll(ChildList(m.before, p), Raises(Removed, m, p) + Raises(Changed, m, p) + Raises(Added, m, p))
         == ChildList(m.after, p)
  {
    hide ApplyAll, ValueAt, ChildrenOf, Events, SortedKeys;
    var list := ChildList(m.before, p);
    if PathsRelated(p, m.changed) {
      var was, now := ChildrenOf(ValueAt(m.before, p)), ChildrenOf(ValueAt(m.after, p));
      ApplySplit(list, Raises(Removed, m, p) + Raises(Changed, m, p), Raises(Added, m, p));
      ApplySplit(list, Raises(Removed, m, p), Raises(Changed, m, p));
      ReplayGivesNewChildren(was, now);
    } else {
      assert ApplyAll(list, []) == list by { ApplyNothing(list); }
      assert Raises(Removed, m, p) + Raises(Changed, m, p) + Raises(Added, m, p) == [];
    }
  }

  lemma ApplyNothing(list: seq<Child>)
    ensures ApplyAll(list, []) == list
  {}

  lemma {:induction false} MovesReplay(root: Json, moves: seq<Move>, end: Json, p: Path)
    requires Chained(root, moves, end, p)
    ensures ApplyAll(ChildList(root, p), Feed(moves, p)) == ChildList(end, p)
    decreases |moves|
  {
    hide Raises, ChildList, ApplyAll, ValueAt;
    if moves == [] {
      ApplyNothing(ChildList(root, p));
    } else {
      var m := moves[0];
      MoveReplays(m, p);
      MovesReplay(m.after, moves[1..], end, p);
      ApplySplit(ChildList(root, p), Raises(Removed, m, p) + Raises(Changed, m, p) + Raises(Added, m, p),
          Feed(moves[1..], p));
    }
  }

  lemma FeedStep(m: Move, rest: seq<Move>, p: Path)
    ensures Feed([m] + rest, p) == Raises(Removed, m, p) + Raises(Changed, m, p) + Raises(Added, m, p) + Feed(rest, p)
  {
    hide Raises;
    assert ([m] + rest)[1..] == rest;
  }

  lemma {:induction false} FeedSplit(a: seq<Move>, b: seq<Move>, p: Path)
    ensures Feed(a + b, p) == Feed(a, p) + Feed(b, p)
  {
    hide Raises, Feed;
    if a == [] {
      assert a + b == b;
      FeedOfNothing(p);
    } else {
      assert a == [a[0]] + a[1..] && a + b == [a[0]] + (a[1..] + b);
      FeedStep(a[0], a[1..] + b, p);
      FeedStep(a[0], a[1..], p);
      FeedSplit(a[1..], b, p);
      Regroup(Raises(Removed, a[0], p) + Raises(Changed, a[0], p) + Raises(Added, a[0], p), Feed(a[1..], p),
          Feed(b, p));
    }
  }

  lemma {:induction false} WritesChain(v: View, ws: seq<Write>, p: Path)
    requires Tame(v.mirror) && TamePath(p) && forall w | w in ws :: TamePath(w.path) && Tame(w.value)
    ensures Chained(v.mirror, WriteMoves(v.mirror, ws), LocalWrites(v, ws).mirror, p)
    decreases |ws|
  {
    if ws != [] {
      var w, next := ws[0], LocalWrite(v, ws[0].path, ws[0].value);
      assert w in ws;
      WrittenTame(v.mirror, w.path, w.value);
      if !PathsRelated(p, w.path) { UnrelatedReadUnchanged(v.mirror, w.path, w.value, p); }
      WritesChain(next, ws[1..], p);
      var m := Move(w.path, v.mirror, next.mirror);
      assert ([m] + WriteMoves(next.mirror, ws[1..]))[1..] == WriteMoves(next.mirror, ws[1..]);
    }
  }

  lemma OneWriteChains(v: View, path: Path, value: Json, p: Path)
    requires Tame(v.mirror) && TamePath(p) && TamePath(path) && Tame(value)
    ensures Chained(v.mirror, WriteMoves(v.mirror, [Write(path, value)]), LocalWrite(v, path, value).mirror, p)
  {
    OneWrite(v, path, value);
    WritesChain(v, [Write(path, value)], p);
  }

  lemma MergeChains(v: View, base: Path, ws: seq<Write>, p: Path)
    requires Tame(v.mirror) && TamePath(p) && AllBelow(base, ws) && TameWrites(ws)
    ensures Chained(v.mirror, [Move(base, v.mirror, WrittenAll(v.mirror, ws))], WrittenAll(v.mirror, ws), p)
  {
    if !PathsRelated(p, base) { UnrelatedToAll(v.mirror, base, ws, p); }
    assert [Move(base, v.mirror, WrittenAll(v.mirror, ws))][1..] == [];
  }

  lemma StepChains(s: State, op: Op, p: Path)
    requires InSync(s) && Guard(s, op) && TamePath(p) && !op.Attach?
    ensures Chained(s.view.mirror, Moves(s, op), Step(s, op).view.mirror, p)
  {
    hide Chained, WriteMoves, WrittenAll, UpdateAll, Operations, Stored, WritesClear, UpdateClear;
    match op
    case Set(path, value, now) =>
      var stored := Stored(s.data, path, value, now);
      if stored.Ok? {
        ResolvedStaysTame(s.data, path, value, now);
        OneWriteChains(s.view, path, stored.value, p);
      } else {
        NothingChains(s.view.mirror, p);
      }
    case Update(base, updates, now) => UpdateChains(s, base, updates, now, p);
    case Remove(path) => OneWriteChains(s.view, path, Null, p);
    case Transact(path, update, now) =>
      var stored := TransactionStores(s.data, path, update, now);
      if stored.Some? { OneWriteChains(s.view, path, stored.value, p); } else { NothingChains(s.view.mirror, p); }
    case Detach(_) => NothingChains(s.view.mirror, p);
    case Remote(path, value) =>
      NothingChains(s.view.mirror, p);
      if SomeoneListens(s.view, path) { OneWriteChains(s.view, path, value, p); }
    case RemoteMerge(base, ws) =>
      NothingChains(s.view.mirror, p);
      if SomeoneListens(s.view, base) { MergeChains(s.view, base, ws, p); }
  }

  lemma NothingChains(root: Json, p: Path)
    ensures Chained(root, [], root, p)
  {}

  lemma ResolvedStaysTame(data: Json, path: Path, value: Json, now: nat)
    requires Tame(value) && Stored(data, path, value, now).Ok?
    ensures Tame(Stored(data, path, value, now).value)
  {
    ResolvedTame(value, Some(ExtractData(GetAt(data, path))), now);
  }

  lemma UpdateChains(s: State, base: Path, updates: seq<(string, Json)>, now: nat, p: Path)
    requires InSync(s) && Guard(s, Update(base, updates, now)) && TamePath(p)
    ensures Chained(s.view.mirror, Moves(s, Update(base, updates, now)),
            Step(s, Update(base, updates, now)).view.mirror, p)
  {
    hide Chained, WriteMoves, UpdateClear;
    NothingChains(s.view.mirror, p);
    if Operations(base, updates).Ok? {
      var ws := Operations(base, updates).value;
      StoredAreTame(s.data, ws, now);
      if UpdateAll(s.data, ws, now).stored.Ok? { WritesChain(s.view, UpdateAll(s.data, ws, now).stored.value, p); }
    }
  }

  // ----- Silent seeds -----

  /** Writing `value` at `r` below `m` would change nothing: `m` holds it there already, or it is a null
      and the node above is there without that member. */
  predicate HoldsAlready(m: Json, r: Path, value: Json)
    requires r != []
  {
    if value.Null? then
      var node := PlainNode(m, r[..|r|-1]);
      node.Some? && r[|r|-1] !in FieldsOf(node.value)
    else GetAt(m, r) == value
  }

  /** Seeding `q` leaves the children of `p` alone. */
  ghost predicate SeedFits(mirror: Json, q: Path, seed: Json, p: Path) {
    if !PathsRelated(p, q) then true
    else if q <= p then ChildrenOf(GetAt(seed, p[|q|..])) == ChildrenOf(GetAt(mirror, p))
    else HoldsAlready(GetAt(mirror, p), q[|p|..], seed)
  }

  lemma {:induction false} WriteIsIdentityIff(x: Json, r: Path, value: Json)
    requires r != []
    ensures Written(x, r, value) == x <==> HoldsAlready(x, r, value)
    decreases |r|
  {
    if |r| == 1 {
      assert r[1..] == [] && r[..0] == [];
      var f := FieldsOf(x);
      if x.Obj? && value.Null? {
        assert f - {r[0]} == f <==> r[0] !in f;
      } else if x.Obj? {
        assert r[0] in f ==> GetAt(x, r) == GetAt(f[r[0]], []) == f[r[0]];
        assert Written(x, r, value) == Obj(f[r[0] := value]);
        assert f[r[0] := value] == f <==> r[0] in f && f[r[0]] == value;
      }
    } else {
      var f := FieldsOf(x);
      assert r[..|r|-1][0] == r[0] && r[..|r|-1][1..] == r[1..][..|r|-2];
      if r[0] in f {
        WriteIsIdentityIff(f[r[0]], r[1..], value);
        assert f[r[0] := Written(f[r[0]], r[1..], value)] == f <==> Written(f[r[0]], r[1..], value) == f[r[0]];
      }
    }
  }

  lemma FieldsUnchangedIff(m: Json, r: Path, value: Json)
    requires r != []
    ensures FieldsOf(Written(m, r, value)) == FieldsOf(m) <==> HoldsAlready(m, r, value)
  {
    WriteIsIdentityIff(m, r, value);
    WrittenMembers(m, r, value);
    if !m.Obj? && Written(m, r, value).Obj? {
      assert |r| > 1 || !value.Null?;
      assert r[0] in FieldsOf(Written(m, r, value));
    }
  }

  lemma {:induction false} FieldsAfterDeeperWrite(mirror: Json, p: Path, r: Path, value: Json)
    requires r != []
    ensures FieldsOf(GetAt(Written(mirror, p + r, value), p)) == FieldsOf(Written(GetAt(mirror, p), r, value))
    decreases |p|
  {
    if p == [] {
      assert p + r == r;
    } else {
      assert (p + r)[0] == p[0] && (p + r)[1..] == p[1..] + r;
      var child := EntryOr(mirror, p[0]);
      FieldsAfterDeeperWrite(child, p[1..], r, value);
      if !(mirror.Obj? && p[0] in mirror.fields) { SameFieldsFromNothing(p[1..], r, value); }
    }
  }

  lemma SameFieldsFromNothing(p: Path, r: Path, value: Json)
    requires r != []
    ensures FieldsOf(Written(GetAt(Obj(map[]), p), r, value)) == FieldsOf(Written(Null, r, value))
  {
    assert Obj(map[]).fields - {r[0]} == map[];
  }

  lemma {:induction false} ReadThroughWrite(mirror: Json, q: Path, value: Json, rest: Path)
    ensures GetAt(Written(mirror, q, value), q + rest) == GetAt(value, rest)
    decreases |q|
  {
    if q == [] {
      assert q + rest == rest;
    } else {
      assert (q + rest)[0] == q[0] && (q + rest)[1..] == q[1..] + rest;
      if |q| > 1 {
        ReadThroughWrite(EntryOr(mirror, q[0]), q[1..], value, rest);
      } else {
        assert q[1..] + rest == rest;
      }
    }
  }

  lemma TameChildren(v: Json)
    requires Tame(v)
    ensures ChildrenOf(v) == FieldsOf(v)
  {}

  lemma SeedAboveFits(mirror: Json, q: Path, seed: Json, p: Path)
    requires q <= p
    ensures GetAt(Written(mirror, q, seed), p) == GetAt(seed, p[|q|..])
  {
    ReadThroughWrite(mirror, q, seed, p[|q|..]);
    assert q + p[|q|..] == p;
  }

  lemma SeedBelowFitsIff(mirror: Json, q: Path, seed: Json, p: Path)
    requires p < q
    ensures FieldsOf(GetAt(Written(mirror, q, seed), p)) == FieldsOf(GetAt(mirror, p))
            <==> HoldsAlready(GetAt(mirror, p), q[|p|..], seed)
  {
    hide Written, HoldsAlready;
    assert p + q[|p|..] == q;
    FieldsAfterDeeperWrite(mirror, p, q[|p|..], seed);
    FieldsUnchangedIff(GetAt(mirror, p), q[|p|..], seed);
  }

  /** Exactly when attaching at `q` leaves the child list of `p` alone, although it tells nobody. */
  lemma SeedFitsIff(mirror: Json, q: Path, seed: Json, p: Path)
    requires Tame(mirror) && Tame(seed) && TamePath(q)
    ensures ChildrenOf(ValueAt(Written(mirror, q, seed), p)) == ChildrenOf(ValueAt(mirror, p)) <==>
            SeedFits(mirror, q, seed, p)
  {
    hide Written, HoldsAlready, Tame, ChildrenOf, GetAt, ValueAt;
    var after := Written(mirror, q, seed);
    WrittenTame(mirror, q, seed);
    ReadersAgree(mirror, p);
    ReadersAgree(after, p);
    if !PathsRelated(p, q) {
      UnrelatedReadUnchanged(mirror, q, seed, p);
    } else if q <= p {
      SeedAboveFits(mirror, q, seed, p);
    } else {
      SeedBelowFitsIff(mirror, q, seed, p);
      TameChildren(GetAt(mirror, p));
      TameChildren(GetAt(after, p));
    }
  }

  /** No attachment of the run changes the children of `p` silently. */
  ghost predicate SeedsFit(s: State, ops: seq<Op>, p: Path)
    decreases |ops|
  {
    ops == [] ||
    ((ops[0].Attach? ==> SeedFits(s.view.mirror, ops[0].path, GetAt(s.data, ops[0].path), p))
     && SeedsFit(Step(s, ops[0]), ops[1..], p))
  }

  lemma StepReplays(s: State, op: Op, p: Path)
    requires InSync(s) && Guard(s, op) && TamePath(p)
    requires op.Attach? ==> SeedFits(s.view.mirror, op.path, GetAt(s.data, op.path), p)
    ensures ApplyAll(ChildList(s.view.mirror, p), Feed(Moves(s, op), p)) == ChildList(Step(s, op).view.mirror, p)
  {
    if op.Attach? {
      ReadersAgree(s.data, op.path);
      SeedFitsIff(s.view.mirror, op.path, GetAt(s.data, op.path), p);
      hide ApplyAll;
      ApplyNothing(ChildList(s.view.mirror, p));
    } else {
      StepChains(s, op, p);
      MovesReplay(s.view.mirror, Moves(s, op), Step(s, op).view.mirror, p);
    }
  }

  /** Over every guarded run without silent seeds, the events raised at a path, applied to its old child
      list, give exactly its new one. */
  lemma {:induction false} RunReplays(s: State, ops: seq<Op>, p: Path)
    requires InSync(s) && Guarded(s, ops) && TamePath(p) && SeedsFit(s, ops, p)
    ensures ApplyAll(ChildList(s.view.mirror, p), Feed(RunMoves(s, ops), p)) == ChildList(Run(s, ops).view.mirror, p)
    decreases |ops|
  {
    hide ApplyAll, ChildList, Feed, Moves, Step, SeedFits, Guard, InSync;
    if ops == [] {
      assert Feed([], p) == [] by { FeedOfNothing(p); }
      ApplyNothing(ChildList(s.view.mirror, p));
    } else {
      var next, first := Step(s, ops[0]), Moves(s, ops[0]);
      StepReplays(s, ops[0], p);
      StepInSync(s, ops[0]);
      RunReplays(next, ops[1..], p);
      FeedSplit(first, RunMoves(next, ops[1..]), p);
      ApplySplit(ChildList(s.view.mirror, p), Feed(first, p), Feed(RunMoves(next, ops[1..]), p));
    }
  }

  lemma FeedOfNothing(p: Path)
    ensures Feed([], p) == []
  {}

  // ----- Exactly the runs that replay -----

  lemma PairsTell(keys: seq<string>, a: map<string, Json>, other: seq<string>, b: map<string, Json>)
    requires Pairs(keys, a) == Pairs(other, b)
    requires (forall k | k in keys :: k in a) && (forall k | k in other :: k in b)
    ensures keys == other && forall k | k in keys :: a[k] == b[k]
  {
    assert |Pairs(keys, a)| == |keys| && |Pairs(other, b)| == |other|;
    forall i | 0 <= i < |keys| ensures keys[i] == other[i] && At(a, keys[i]) == At(b, keys[i]) {
      assert Pairs(keys, a)[i] == Child.Child(keys[i], At(a, keys[i]));
      assert Pairs(other, b)[i] == Child.Child(other[i], At(b, other[i]));
    }
  }

  lemma ListTells(a: map<string, Json>, b: map<string, Json>)
    ensures ListOf(a) == ListOf(b) ==> a == b
  {
    if ListOf(a) == ListOf(b) {
      PairsTell(SortedKeys(a.Keys), a, SortedKeys(b.Keys), b);
      forall k ensures k in a <==> k in b {
        assert k in a.Keys <==> k in SortedKeys(a.Keys);
        assert k in b.Keys <==> k in SortedKeys(b.Keys);
      }
    }
  }

  lemma StepReplaysIff(s: State, op: Op, p: Path)
    requires InSync(s) && Guard(s, op) && TamePath(p)
    ensures ApplyAll(ChildList(s.view.mirror, p), Feed(Moves(s, op), p)) == ChildList(Step(s, op).view.mirror, p)
            <==> (op.Attach? ==> SeedFits(s.view.mirror, op.path, GetAt(s.data, op.path), p))
  {
    if op.Attach? {
      ReadersAgree(s.data, op.path);
      SeedFitsIff(s.view.mirror, op.path, GetAt(s.data, op.path), p);
      ListTells(ChildrenOf(ValueAt(s.view.mirror, p)), ChildrenOf(ValueAt(Step(s, op).view.mirror, p)));
      hide ApplyAll, SeedFits, ListOf;
      ApplyNothing(ChildList(s.view.mirror, p));
    } else {
      StepReplays(s, op, p);
    }
  }

  lemma {:induction false} RunSplit(s: State, ops: seq<Op>, p: Path)
    requires ops != []
    ensures var n := |ops| - 1;
            var t, last := Run(s, ops[..n]), ops[n];
            && Run(s, ops) == Step(t, last)
            && RunMoves(s, ops) == RunMoves(s, ops[..n]) + Moves(t, last)
            && (Guarded(s, ops) <==> Guarded(s, ops[..n]) && Guard(t, last))
            && (SeedsFit(s, ops, p) <==>
                  (SeedsFit(s, ops[..n], p)
                   && (last.Attach? ==> SeedFits(t.view.mirror, last.path, GetAt(t.data, last.path), p))))
    decreases |ops|
  {
    hide Step, Guard, Moves, SeedFits;
    var n := |ops| - 1;
    if n == 0 {
      assert ops[..0] == [] && ops[1..] == [];
      assert Run(s, ops) == Run(Step(s, ops[0]), ops[1..]);
      assert RunMoves(s, ops) == Moves(s, ops[0]) + RunMoves(Step(s, ops[0]), ops[1..]);
    } else {
      var next := Step(s, ops[0]);
      RunSplit(next, ops[1..], p);
      assert ops[..n][0] == ops[0] && ops[..n][1..] == ops[1..][..n-1] && ops[1..][n-1] == ops[n];
      Regroup(Moves(s, ops[0]), RunMoves(next, ops[1..][..n-1]), Moves(Run(next, ops[1..][..n-1]), ops[n]));
    }
  }

  /** The events raised so far, applied to the old child list, give the present one. */
  ghost predicate Replays(s: State, ops: seq<Op>, p: Path) {
    ApplyAll(ChildList(s.view.mirror, p), Feed(RunMoves(s, ops), p)) == ChildList(Run(s, ops).view.mirror, p)
  }

  lemma ReplaysOneMore(s: State, ops: seq<Op>, p: Path)
    requires ops != [] && InSync(s) && Guarded(s, ops) && TamePath(p) && Replays(s, ops[..|ops|-1], p)
    ensures var t, last := Run(s, ops[..|ops|-1]), ops[|ops|-1];
            Replays(s, ops, p) <==> (last.Attach? ==> SeedFits(t.view.mirror, last.path, GetAt(t.data, last.path), p))
  {
    hide ApplyAll, ChildList, Feed, Moves, Step, SeedFits, InSync, Guard;
    var before, last := ops[..|ops|-1], ops[|ops|-1];
    var t := Run(s, before);
    RunSplit(s, ops, p);
    RunInSync(s, before);
    StepReplaysIff(t, last, p);
    FeedSplit(RunMoves(s, before), Moves(t, last), p);
    ApplySplit(ChildList(s.view.mirror, p), Feed(RunMoves(s, before), p), Feed(Moves(t, last), p));
  }

  ghost predicate AlwaysReplays(s: State, ops: seq<Op>, p: Path) {
    forall i | 0 <= i <= |ops| :: Replays(s, ops[..i], p)
  }

  lemma AlwaysReplaysSplit(s: State, ops: seq<Op>, p: Path)
    requires ops != []
    ensures AlwaysReplays(s, ops, p) <==> (AlwaysReplays(s, ops[..|ops|-1], p) && Replays(s, ops, p))
  {
    hide Replays;
    var n := |ops| - 1;
    assert ops[..n+1] == ops;
    assert forall i | 0 <= i <= n :: ops[..n][..i] == ops[..i];
  }

  lemma AlwaysReplaysNow(s: State, ops: seq<Op>, p: Path)
    ensures AlwaysReplays(s, ops, p) ==> Replays(s, ops, p)
    ensures ops == [] ==> (AlwaysReplays(s, ops, p) <==> Replays(s, ops, p))
  {
    hide Replays;
    assert ops[..|ops|] == ops;
  }

  /** Over a guarded run the events at a path replay to its children at every moment if and only if no
      attachment changed them silently. */
  lemma {:induction false} RunReplaysIff(s: State, ops: seq<Op>, p: Path)
    requires InSync(s) && Guarded(s, ops) && TamePath(p)
    ensures AlwaysReplays(s, ops, p) <==> SeedsFit(s, ops, p)
    decreases |ops|
  {
    hide InSync, Guard, Replays, SeedFits, AlwaysReplays, Step, Moves, RunMoves, Run;
    if ops == [] {
      ReplaysMeans(s, ops, p);
      AlwaysReplaysNow(s, ops, p);
    } else {
      RunSplit(s, ops, p);
      RunReplaysIff(s, ops[..|ops|-1], p);
      AlwaysReplaysSplit(s, ops, p);
      AlwaysReplaysNow(s, ops[..|ops|-1], p);
      if Replays(s, ops[..|ops|-1], p) { ReplaysOneMore(s, ops, p); }
    }
  }

  lemma ReplaysMeans(s: State, ops: seq<Op>, p: Path)
    requires InSync(s) && Guarded(s, ops) && TamePath(p) && SeedsFit(s, ops, p)
    ensures Replays(s, ops, p)
  {
    RunReplays(s, ops, p);
  }

  /** A new listener for added children is told of all there are: from nothing, they build the list. */
  lemma FirstEventsBuildTheList(children: map<string, Json>)
    ensures ApplyAll([], Events(Added, map[], children)) == ListOf(children)
  {
    AllAdded(map[], children);
    NothingKept(SortedKeys(children.Keys));
    assert Pairs([], children) == [];
  }

  lemma {:induction false} NothingKept(keys: seq<string>)
    ensures Keep(keys, map[]) == []
  {
    if keys != [] { NothingKept(keys[1..]); }
  }

  /** The client with a listener for children of the root, before and after a second attachment. */
  const WAITING: State := State(View(Obj(map[]), map[1 := Listener([], OnChild(Added))], map[1 := []], 2), Obj(map[]))
  const ATTACHING: Op := Attach(["a", "b"], OnValue)

  lemma FirstAttachment()
    ensures Step(INITIAL, Attach([], OnChild(Added))) == WAITING && Guard(INITIAL, Attach([], OnChild(Added)))
  {
    assert ChildrenOf(Null) == ChildrenOf(Obj(map[])) == map[];
    NoChildrenNoEvents();
    assert Step(INITIAL, Attach([], OnChild(Added))).view.inbox == WAITING.view.inbox;
  }

  lemma NoChildrenNoEvents()
    ensures AsNotices(Events(Added, map[], map[])) == []
  {
    var keys := SortedKeys({});
    ListsUnique([], keys, {});
  }

  lemma SecondAttachment()
    ensures var s := Step(WAITING, ATTACHING);
            s.view.mirror == Obj(map["a" := Obj(map[])]) && s.data == Obj(map[]) && s.view.inbox[1] == []
            && s.view.listeners == map[1 := Listener([], OnChild(Added)), 2 := Listener(["a", "b"], OnValue)]
            && s.view.inbox.Keys == {1, 2} && Guard(WAITING, ATTACHING)
  {
    var p := ["a", "b"];
    assert p[1..] == ["b"] && p[..0] == [];
    assert Obj(map[]).fields - {"b"} == map[];
    assert GetAt(Obj(map[]), p) == Null;
  }

  lemma NoNewChild(was: map<string, Json>, now: map<string, Json>)
    requires was.Keys == now.Keys
    ensures Events(Added, was, now) == []
  {
    EventsPartitionDifference(Added, was, now);
    ListsUnique([], KeysOf(Events(Added, was, now)), {});
  }

  lemma WriteBelowEmpty()
    ensures Written(Obj(map["a" := Obj(map[])]), ["a", "x"], Num(1.0)) == Obj(map["a" := Obj(map["x" := Num(1.0)])])
  {
    assert ["a", "x"][1..] == ["x"];
  }

  /** The write adds no child at the root: the empty object was one already. */
  lemma QuietWrite(v: View)
    requires v.mirror == Obj(map["a" := Obj(map[])]) && v.inbox.Keys == {1, 2} && v.inbox[1] == []
    requires v.listeners == map[1 := Listener([], OnChild(Added)), 2 := Listener(["a", "b"], OnValue)]
    ensures var v' := LocalWrite(v, ["a", "x"], Num(1.0));
            1 in v'.inbox && v'.inbox[1] == [] && "a" in ChildrenOf(ValueAt(v'.mirror, []))
  {
    WriteBelowEmpty();
    hide Written;
    var after := Obj(map["a" := Obj(map["x" := Num(1.0)])]);
    var was, now := ChildrenOf(v.mirror), ChildrenOf(after);
    assert was.Keys == now.Keys == {"a"};
    NoNewChild(was, now);
  }

  lemma SilentWrite(s: State)
    requires s.view.mirror == Obj(map["a" := Obj(map[])]) && s.data == Obj(map[]) && s.view.inbox.Keys == {1, 2}
    requires s.view.inbox[1] == []
    requires s.view.listeners == map[1 := Listener([], OnChild(Added)), 2 := Listener(["a", "b"], OnValue)]
    ensures var t := Step(s, Set(["a", "x"], Num(1.0), 0));
            1 in t.view.inbox && t.view.inbox[1] == [] && "a" in ChildrenOf(ValueAt(t.view.mirror, []))
            && Guard(s, Set(["a", "x"], Num(1.0), 0))
  {
    QuietWrite(s.view);
    hide LocalWrite, ValueAt, ChildrenOf;
    PlainDataUnchanged(Num(1.0), Some(ExtractData(GetAt(s.data, ["a", "x"]))), 0);
  }

  /** Attaching below a path that is not there puts an empty object on the way, silently: a listener for
      children added at the root never hears of one that is there. */
  lemma SilentSeed()
    ensures var ops := [Attach([], OnChild(Added)), ATTACHING, Set(["a", "x"], Num(1.0), 0)];
            var s := Run(INITIAL, ops);
            Guarded(INITIAL, ops) && 1 in s.view.inbox && s.view.inbox[1] == []
            && "a" in ChildrenOf(ValueAt(s.view.mirror, []))
  {
    var first, last := Attach([], OnChild(Added)), Set(["a", "x"], Num(1.0), 0);
    FirstAttachment();
    SecondAttachment();
    SilentWrite(Step(WAITING, ATTACHING));
    hide Step, Guard;
    assert [first, ATTACHING, last][1..] == [ATTACHING, last] && [ATTACHING, last][1..] == [last] && [last][1..] == [];
    assert Run(WAITING, [ATTACHING, last]) == Run(Step(WAITING, ATTACHING), [last]);
    assert Run(Step(WAITING, ATTACHING), [last]) == Run(Step(Step(WAITING, ATTACHING), last), []);
    assert Guarded(Step(WAITING, ATTACHING), [last]);
    assert Guarded(WAITING, [ATTACHING, last]);
  }
}

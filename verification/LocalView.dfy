/** The client's local view of the Realtime Database: a partial mirror of the server's tree, the
    listeners attached to it, and what each of them has been told.

    A listener's callback is represented by its inbox: the notices it has received, in order. The
    order in which different listeners are called is not specified by the source. */
module LocalView {
  import opened Wrappers
  import opened Json
  import opened TreeEditors
  import opened TreeLaws
  import opened ServerValue
  import opened Backend
  import opened ManyWrites
  import opened Paths
  import opened Ordering
  import opened ChildEvents
  import Text

  datatype Kind = OnValue | OnChild(event: EventType)

  datatype Listener = Listener(path: Path, kind: Kind)

  datatype CancelError = PermissionDenied(detail: string) | Internal(detail: string)

  datatype Notice = Value(value: Json) | Child(child: ChildEvent) | Cancelled(error: CancelError)

  datatype View = View(
    mirror: Json,
    listeners: map<nat, Listener>,
    inbox: map<nat, seq<Notice>>,
    nextId: nat)

  // ----- What the handlers do -----

  function AsNotices(events: seq<ChildEvent>): seq<Notice> {
    seq(|events|, i requires 0 <= i < |events| => Notice.Child(events[i]))
  }

  /** What one listener is told about a change from `before` to `after` at `changed`. */
  ghost function Raised(l: Listener, changed: Path, before: Json, after: Json): seq<Notice> {
    if !PathsRelated(l.path, changed) then []
    else
      var was, now := ValueAt(before, l.path), ValueAt(after, l.path);
      match l.kind
      case OnValue => if was == now then [] else [Value(now)]
      case OnChild(event) => AsNotices(Events(event, ChildrenOf(was), ChildrenOf(now)))
  }

  ghost function Dispatched(v: View, changed: Path, before: Json, after: Json): map<nat, seq<Notice>> {
    map id | id in v.inbox ::
      if id in v.listeners then v.inbox[id] + Raised(v.listeners[id], changed, before, after) else v.inbox[id]
  }

  /** A local write, and equally a data frame pushed by the server. */
  ghost function LocalWrite(v: View, path: Path, value: Json): View {
    var after := Written(v.mirror, path, value);
    v.(mirror := after, inbox := Dispatched(v, path, v.mirror, after))
  }

  ghost function LocalWrites(v: View, ws: seq<Write>): View
    decreases |ws|
  {
    if ws == [] then v else LocalWrites(LocalWrite(v, ws[0].path, ws[0].value), ws[1..])
  }

  /** A merge frame: all writes first, then one dispatch for the path they share. */
  ghost function Merged(v: View, base: Path, ws: seq<Write>): View {
    var after := WrittenAll(v.mirror, ws);
    v.(mirror := after, inbox := Dispatched(v, base, v.mirror, after))
  }

  datatype FrameError = BadPath | MergeNotAnObject

  datatype Action = Data | Merge

  function MergeWrites(base: Path, keys: seq<string>, entries: map<string, Json>): Result<seq<Write>, FrameError>
    requires forall k | k in keys :: k in entries
  {
    if keys == [] then Ok([])
    else match Normalized(keys[0])
         case Err(_) => Err(BadPath)
         case Ok(relative) =>
           assert keys[0] in keys && forall k | k in keys[1..] :: k in keys;
           match MergeWrites(base, keys[1..], entries)
           case Err(e) => Err(e)
           case Ok(rest) => Ok([Write(base + relative, entries[keys[0]])] + rest)
  }

  /** A frame from the server; a bad one changes nothing. */
  ghost function Framed(v: View, action: Action, path: Option<string>, data: Json): Result<View, FrameError> {
    if path.None? then Ok(v)
    else match Normalized(path.value)
         case Err(_) => Err(BadPath)
         case Ok(base) =>
           match action
           case Data => Ok(LocalWrite(v, base, data))
           case Merge =>
             if !data.Obj? then Err(MergeNotAnObject)
             else match MergeWrites(base, SortedKeys(data.fields.Keys), data.fields)
                  case Err(e) => Err(e)
                  case Ok(ws) => Ok(Merged(v, base, ws))
  }

  /** What a new listener is told at once. */
  ghost function FirstNotices(kind: Kind, value: Json): seq<Notice> {
    match kind
    case OnValue => [Value(value)]
    case OnChild(event) => if event.Added? then AsNotices(Events(Added, ChildrenOf(Null), ChildrenOf(value))) else []
  }

  /** A new listener: the mirror is seeded with what the backend holds at its path, without telling
      anyone else, and the listener gets its first notices. */
  ghost function Attached(v: View, path: Path, kind: Kind, seed: Json): View {
    var after := Written(v.mirror, path, seed);
    View(after,
         v.listeners[v.nextId := Listener(path, kind)],
         v.inbox[v.nextId := FirstNotices(kind, ValueAt(after, path))],
         v.nextId + 1)
  }

  ghost function Detached(v: View, id: nat): View {
    v.(listeners := v.listeners - {id})
  }

  /** Listeners whose path the server revokes are told once and dropped. */
  ghost function Revoked(v: View, dropped: set<nat>, error: CancelError): View {
    v.(listeners := v.listeners - dropped,
       inbox := map id | id in v.inbox ::
         if id in dropped && id in v.listeners then v.inbox[id] + [Cancelled(error)] else v.inbox[id])
  }

  ghost predicate Synced(v: View, path: Path) {
    exists id | id in v.listeners :: v.listeners[id].path <= path
  }

  // ----- One client on one backend -----

  datatype State = State(view: View, data: Json)

  datatype UpdateError = EmptyKey | CurrentLocation | BadKey

  /** The absolute writes of a multi-path update. */
  function Operations(base: Path, updates: seq<(string, Json)>): Result<seq<Write>, UpdateError> {
    if updates == [] then Ok([])
    else if Text.Trim(updates[0].0, Text.WhiteSpace) == "" then Err(EmptyKey)
    else match Normalized(updates[0].0)
         case Err(_) => Err(BadKey)
         case Ok(relative) =>
           if relative == [] then Err(CurrentLocation)
           else match Operations(base, updates[1..])
                case Err(e) => Err(e)
                case Ok(rest) => Ok([Write(base + relative, updates[0].1)] + rest)
  }

  datatype Op =
    | Set(path: Path, value: Json, now: nat)
    | Update(base: Path, updates: seq<(string, Json)>, now: nat)
    | Remove(path: Path)
    | Transact(path: Path, update: Json -> Option<Json>, now: nat)
    | Attach(path: Path, kind: Kind)
    | Detach(id: nat)
      /** Another client's write, which the server pushes as a data frame to whoever listens. */
    | Remote(path: Path, value: Json)
      /** Another client's multi-path update, which the server pushes as one merge frame. */
    | RemoteMerge(base: Path, writes: seq<Write>)

  ghost predicate SomeoneListens(v: View, path: Path) {
    exists id | id in v.listeners :: PathsRelated(v.listeners[id].path, path)
  }

  ghost function Step(s: State, op: Op): State {
    match op
    case Set(path, value, now) =>
      (match Stored(s.data, path, value, now)
       case Err(_) => s
       case Ok(v) => State(LocalWrite(s.view, path, v), SetAt(s.data, path, v)))
    case Update(base, updates, now) =>
      (match Operations(base, updates)
       case Err(_) => s
       case Ok(ws) =>
         var outcome := UpdateAll(s.data, ws, now);
         State(if outcome.stored.Ok? then LocalWrites(s.view, outcome.stored.value) else s.view, outcome.data))
    case Remove(path) => State(LocalWrite(s.view, path, Null), DeletedAt(s.data, path))
    case Transact(path, update, now) =>
      (match TransactionStores(s.data, path, update, now)
       case None => s
       case Some(v) => State(LocalWrite(s.view, path, v), Put(s.data, path, v)))
    case Attach(path, kind) => s.(view := Attached(s.view, path, kind, GetAt(s.data, path)))
    case Detach(id) => s.(view := Detached(s.view, id))
    case Remote(path, value) =>
      State(if SomeoneListens(s.view, path) then LocalWrite(s.view, path, value) else s.view, Put(s.data, path, value))
    case RemoteMerge(base, ws) =>
      State(if SomeoneListens(s.view, base) then Merged(s.view, base, ws) else s.view, StoresAll(s.data, ws, Putting))
  }

  ghost function Run(s: State, ops: seq<Op>): State
    decreases |ops|
  {
    if ops == [] then s else Run(Step(s, ops[0]), ops[1..])
  }

  const INITIAL := State(View(Obj(map[]), map[], map[], 1), Obj(map[]))

  /** What `get()` returns. */
  ghost function Got(s: State, path: Path): Json {
    if Synced(s.view, path) then ValueAt(s.view.mirror, path) else GetAt(s.data, path)
  }

  // ----- What a caller reads after an update or a frame -----

  /** Why an update turns a key away. */
  predicate Refused(key: string, e: UpdateError) {
    match e
    case EmptyKey => forall c | c in key :: Text.Drops(Text.WhiteSpace, c)
    case BadKey => Normalized(key).Err? && exists c | c in key :: !Text.Drops(Text.WhiteSpace, c)
    case CurrentLocation => Normalized(key) == Ok([]) && exists c | c in key :: !Text.Drops(Text.WhiteSpace, c)
  }

  /** The i-th key is the first one turned away. */
  predicate FirstRefused(updates: seq<(string, Json)>, i: nat, e: UpdateError)
    requires i < |updates|
  {
    Refused(updates[i].0, e) && forall j, other | 0 <= j < i :: !Refused(updates[j].0, other)
  }

  lemma KeyDecides(base: Path, updates: seq<(string, Json)>)
    requires updates != []
    ensures (forall e :: !Refused(updates[0].0, e)) ==>
            Normalized(updates[0].0).Ok? &&
            var rest := Operations(base, updates[1..]);
            Operations(base, updates) ==
              if rest.Err? then rest
              else Ok([Write(base + Normalized(updates[0].0).value, updates[0].1)] + rest.value)
    ensures (exists e :: Refused(updates[0].0, e)) ==>
            Operations(base, updates).Err? && Refused(updates[0].0, Operations(base, updates).error)
  {
    var key := updates[0].0;
    Text.TrimsToNothing(key, Text.WhiteSpace);
    if Text.Trim(key, Text.WhiteSpace) == "" {
      assert Refused(key, EmptyKey);
    } else if Normalized(key).Err? {
      assert Refused(key, BadKey);
    } else if Normalized(key) == Ok([]) {
      assert Refused(key, CurrentLocation);
    }
  }

  /** The first key turned away decides the error; without any, each entry is written at its own key
      below the base. */
  ghost predicate WriteByWrite(base: Path, updates: seq<(string, Json)>, r: Result<seq<Write>, UpdateError>) {
    match r
    case Err(e) => exists i | 0 <= i < |updates| :: FirstRefused(updates, i, e)
    case Ok(ws) =>
      |ws| == |updates|
      && forall i | 0 <= i < |updates| ::
           && Normalized(updates[i].0).Ok? && (forall e :: !Refused(updates[i].0, e))
           && ws[i] == Write(base + Normalized(updates[i].0).value, updates[i].1)
  }

  lemma {:induction false} OperationsMean(base: Path, updates: seq<(string, Json)>)
    ensures WriteByWrite(base, updates, Operations(base, updates))
  {
    if updates != [] {
      KeyDecides(base, updates);
      OperationsMean(base, updates[1..]);
      hide Refused, Operations, Normalized;
      if exists e :: Refused(updates[0].0, e) {
        assert FirstRefused(updates, 0, Operations(base, updates).error);
      } else if Operations(base, updates).Err? {
        RefusedLater(updates, Operations(base, updates).error);
      } else {
        assert forall i | 0 < i < |updates| :: updates[i] == updates[1..][i-1];
      }
    }
  }

  lemma RefusedLater(updates: seq<(string, Json)>, e: UpdateError)
    requires updates != [] && forall other :: !Refused(updates[0].0, other)
    requires exists i | 0 <= i < |updates[1..]| :: FirstRefused(updates[1..], i, e)
    ensures exists i | 0 <= i < |updates| :: FirstRefused(updates, i, e)
  {
    hide Refused;
    var i :| 0 <= i < |updates[1..]| && FirstRefused(updates[1..], i, e);
    forall j, other | 0 <= j < i + 1 ensures !Refused(updates[j].0, other) {
      if j > 0 { assert updates[j] == updates[1..][j-1]; }
    }
    assert FirstRefused(updates, i + 1, e);
  }

  /** No key of the update leads above, below or to where another one leads. */
  ghost predicate KeysUnrelated(base: Path, updates: seq<(string, Json)>) {
    forall i, j | 0 <= i < j < |updates| && Normalized(updates[i].0).Ok? && Normalized(updates[j].0).Ok? ::
      !PathsRelated(base + Normalized(updates[i].0).value, base + Normalized(updates[j].0).value)
  }

  /** Every key reads as its own value, resolved against what was there, and all other data is as it was. */
  ghost predicate UpdateShows(base: Path, updates: seq<(string, Json)>, was: Json, data: Json, now: nat) {
    && (forall i | 0 <= i < |updates| ::
          && Normalized(updates[i].0).Ok?
          && var p := base + Normalized(updates[i].0).value;
             Resolved(updates[i].1, Some(ExtractData(GetAt(was, p))), now) == Ok(GetAt(data, p)))
    && forall q: Path ::
         (forall i | 0 <= i < |updates| && Normalized(updates[i].0).Ok? ::
            !PathsRelated(base + Normalized(updates[i].0).value, q))
         ==> GetAt(data, q) == GetAt(was, q)
  }

  lemma UpdateIsRead(base: Path, updates: seq<(string, Json)>, data: Json, now: nat)
    requires Operations(base, updates).Ok? && KeysUnrelated(base, updates)
    requires UpdateAll(data, Operations(base, updates).value, now).stored.Ok?
    ensures UpdateShows(base, updates, data, UpdateAll(data, Operations(base, updates).value, now).data, now)
  {
    hide Operations, UpdateAll, Resolved, Normalized;
    var ws := Operations(base, updates).value;
    OperationsMean(base, updates);
    forall i | 0 <= i < |updates|
      ensures Resolved(ws[i].value, Some(ExtractData(GetAt(data, ws[i].path))), now)
           == Ok(GetAt(UpdateAll(data, ws, now).data, ws[i].path))
    {
      UpdateReads(data, ws, now, i);
    }
    forall q: Path | forall i | 0 <= i < |ws| :: !PathsRelated(ws[i].path, q)
      ensures GetAt(UpdateAll(data, ws, now).data, q) == GetAt(data, q)
    {
      UpdateElsewhere(data, ws, now, q);
    }
  }

  lemma {:induction false} MergeWritesMean(base: Path, keys: seq<string>, entries: map<string, Json>)
    requires forall k | k in keys :: k in entries
    ensures MergeWrites(base, keys, entries).Ok? <==> forall k | k in keys :: Normalized(k).Ok?
    ensures MergeWrites(base, keys, entries).Err? ==> MergeWrites(base, keys, entries).error == BadPath
    ensures MergeWrites(base, keys, entries).Ok? ==>
            && |MergeWrites(base, keys, entries).value| == |keys|
            && forall i | 0 <= i < |keys| :: keys[i] in keys &&
                 MergeWrites(base, keys, entries).value[i]
                 == Write(base + Normalized(keys[i]).value, entries[keys[i]])
  {
    if keys != [] {
      assert keys == [keys[0]] + keys[1..];
      MergeWritesMean(base, keys[1..], entries);
    }
  }

  /** Whatever the mirror held, after a data frame it has the frame's leaves at and below the path. */
  lemma DataFrameShows(v: View, path: string, data: Json, q: Path)
    requires Normalized(path).Ok?
    ensures var r := Framed(v, Data, Some(path), data);
            r.Ok? && Leaf(r.value.mirror, Normalized(path).value + q) == Leaf(data, q)
  {
    WrittenLeaf(v.mirror, Normalized(path).value, data, Normalized(path).value + q);
    assert (Normalized(path).value + q)[|Normalized(path).value|..] == q;
  }

  /** After a merge frame of unrelated keys it has each entry's leaves at and below that entry's key. */
  lemma MergeFrameShows(v: View, path: string, entries: map<string, Json>, key: string, q: Path)
    requires Normalized(path).Ok? && (forall k | k in entries :: Normalized(k).Ok?) && key in entries
    requires forall a, b | a in entries && b in entries && a != b ::
             !PathsRelated(Normalized(path).value + Normalized(a).value, Normalized(path).value + Normalized(b).value)
    ensures var r := Framed(v, Merge, Some(path), Obj(entries));
            r.Ok? && Leaf(r.value.mirror, Normalized(path).value + Normalized(key).value + q) == Leaf(entries[key], q)
  {
    hide Normalized, Leaf, WrittenAll, MergeWrites;
    var base, keys := Normalized(path).value, SortedKeys(entries.Keys);
    MergeWritesMean(base, keys, entries);
    var ws := MergeWrites(base, keys, entries).value;
    forall i, j | 0 <= i < j < |ws| ensures !PathsRelated(ws[i].path, ws[j].path) {
      StringTrichotomy(keys[i], keys[j]);
      assert keys[i] in keys && keys[j] in keys;
    }
    var n :| 0 <= n < |keys| && keys[n] == key;
    WrittenAllLeaf(v.mirror, ws, ws[n].path + q);
    assert (ws[n].path + q)[|ws[n].path|..] == q;
  }

  // ----- Conditions a caller can check before each call -----

  ghost function Watched(v: View): set<Path> {
    set id | id in v.listeners :: v.listeners[id].path
  }

  /** No null is stored directly under a leaf that is watched. */
  ghost predicate SetClear(data: Json, watched: set<Path>, p: Path, value: Json) {
    value.Null? && p != [] && Under(watched, p[..|p|-1]) ==> Leaf(data, p[..|p|-1]).Null?
  }

  /** Nothing is removed two or more levels below a leaf that is watched. */
  ghost predicate RemoveClear(data: Json, watched: set<Path>, p: Path) {
    forall n: nat | n + 1 < |p| && Under(watched, p[..n]) :: Leaf(data, p[..n]).Null?
  }

  ghost predicate PutClear(data: Json, watched: set<Path>, p: Path, value: Json) {
    value.Null? ==> RemoveClear(data, watched, p)
  }

  /** An update that fails half-way has changed nothing that is watched; any other mends what it breaks. */
  ghost predicate UpdateClear(data: Json, watched: set<Path>, ws: seq<Write>, now: nat) {
    var outcome := UpdateAll(data, ws, now);
    if outcome.stored.Ok? then WritesClear(data, watched, outcome.stored.value, Setting)
    else forall l | l in watched :: AgreeBelow(data, outcome.data, l)
  }

  ghost predicate AllBelow(base: Path, ws: seq<Write>) {
    forall w | w in ws :: base <= w.path
  }

  ghost predicate GuardFor(data: Json, watched: set<Path>, op: Op) {
    match op
    case Set(path, value, now) =>
      TamePath(path) && Tame(value)
      && (Stored(data, path, value, now).Ok? ==> SetClear(data, watched, path, Stored(data, path, value, now).value))
    case Update(base, updates, now) =>
      Operations(base, updates).Ok? ==>
        TameWrites(Operations(base, updates).value)
        && UpdateClear(data, watched, Operations(base, updates).value, now)
    case Remove(path) => TamePath(path) && RemoveClear(data, watched, path)
    case Transact(path, update, now) =>
      TamePath(path)
      && (TransactionStores(data, path, update, now).Some? ==>
            Tame(TransactionStores(data, path, update, now).value)
            && PutClear(data, watched, path, TransactionStores(data, path, update, now).value))
    case Attach(path, _) => TamePath(path) && RemoveClear(data, watched, path)
    case Detach(_) => true
    case Remote(path, value) => TamePath(path) && Tame(value) && PutClear(data, watched, path, value)
    case RemoteMerge(base, ws) =>
      AllBelow(base, ws) && TameWrites(ws) && WritesClear(data, watched, ws, Putting)
  }

  /** The leaves that count are those some listener covers. */
  ghost predicate Guard(s: State, op: Op) {
    GuardFor(s.data, Watched(s.view), op)
  }

  ghost predicate Guarded(s: State, ops: seq<Op>)
    decreases |ops|
  {
    ops == [] || (Guard(s, ops[0]) && Guarded(Step(s, ops[0]), ops[1..]))
  }

  /** Every leaf counts. */
  const EVERYWHERE: set<Path> := {[]}

  ghost predicate StrictlyGuarded(s: State, ops: seq<Op>)
    decreases |ops|
  {
    ops == [] || (GuardFor(s.data, EVERYWHERE, ops[0]) && StrictlyGuarded(Step(s, ops[0]), ops[1..]))
  }

  // ----- Coherence: what a listener was last told is what the mirror says -----

  ghost predicate ToldTheMirror(v: View, id: nat)
    requires id in v.listeners
  {
    v.listeners[id].kind.OnValue? ==>
      id in v.inbox && v.inbox[id] != []
      && v.inbox[id][|v.inbox[id]|-1].Value?
      && SameLeaves(v.inbox[id][|v.inbox[id]|-1].value, ValueAt(v.mirror, v.listeners[id].path))
  }

  ghost predicate Coherent(v: View) {
    Tame(v.mirror)
    && (forall id | id in v.listeners :: id in v.inbox && id < v.nextId && TamePath(v.listeners[id].path))
    && forall id | id in v.listeners :: ToldTheMirror(v, id)
  }

  lemma ToldAfterDispatch(v: View, changed: Path, after: Json, id: nat)
    requires id in v.listeners && id in v.inbox && ToldTheMirror(v, id)
    requires !PathsRelated(v.listeners[id].path, changed) ==>
               ValueAt(after, v.listeners[id].path) == ValueAt(v.mirror, v.listeners[id].path)
    ensures ToldTheMirror(v.(mirror := after, inbox := Dispatched(v, changed, v.mirror, after)), id)
  {
    if v.listeners[id].kind.OnValue? {
      var raised := Raised(v.listeners[id], changed, v.mirror, after);
      assert raised == [] || raised == [Value(ValueAt(after, v.listeners[id].path))];
      assert Dispatched(v, changed, v.mirror, after)[id] == v.inbox[id] + raised;
    }
  }

  /** A dispatch for a change that leaves unrelated reads alone keeps every listener up to date. */
  lemma DispatchCoherent(v: View, changed: Path, after: Json)
    requires Coherent(v) && Tame(after)
    requires forall id | id in v.listeners && !PathsRelated(v.listeners[id].path, changed) ::
               ValueAt(after, v.listeners[id].path) == ValueAt(v.mirror, v.listeners[id].path)
    ensures Coherent(v.(mirror := after, inbox := Dispatched(v, changed, v.mirror, after)))
  {
    forall id | id in v.listeners
      ensures ToldTheMirror(v.(mirror := after, inbox := Dispatched(v, changed, v.mirror, after)), id)
    {
      ToldAfterDispatch(v, changed, after, id);
    }
  }

  /** A local write, or a data frame. Listeners on unrelated paths are skipped and are still right. */
  lemma LocalWriteCoherent(v: View, path: Path, value: Json)
    requires Coherent(v) && TamePath(path) && Tame(value)
    ensures Coherent(LocalWrite(v, path, value))
  {
    var after := Written(v.mirror, path, value);
    WrittenTame(v.mirror, path, value);
    forall id | id in v.listeners && !PathsRelated(v.listeners[id].path, path)
      ensures ValueAt(after, v.listeners[id].path) == ValueAt(v.mirror, v.listeners[id].path)
    {
      UnrelatedReadUnchanged(v.mirror, path, value, v.listeners[id].path);
    }
    DispatchCoherent(v, path, after);
  }

  lemma {:induction false} UnrelatedToAll(root: Json, base: Path, ws: seq<Write>, q: Path)
    requires Tame(root) && !PathsRelated(base, q)
    requires forall w | w in ws :: base <= w.path && TamePath(w.path) && Tame(w.value)
    ensures ValueAt(WrittenAll(root, ws), q) == ValueAt(root, q)
    ensures Tame(WrittenAll(root, ws))
    decreases |ws|
  {
    if ws != [] {
      var w := ws[0];
      assert w in ws;
      UnrelatedReadUnchanged(root, w.path, w.value, q);
      WrittenTame(root, w.path, w.value);
      UnrelatedToAll(Written(root, w.path, w.value), base, ws[1..], q);
    }
  }

  /** A merge frame: one dispatch for the shared path reaches everyone it has to. */
  lemma MergedCoherent(v: View, base: Path, ws: seq<Write>)
    requires Coherent(v)
    requires forall w | w in ws :: base <= w.path && TamePath(w.path) && Tame(w.value)
    ensures Coherent(Merged(v, base, ws))
  {
    var after := WrittenAll(v.mirror, ws);
    WrittenAllTame(v.mirror, ws);
    forall id | id in v.listeners && !PathsRelated(v.listeners[id].path, base)
      ensures ValueAt(after, v.listeners[id].path) == ValueAt(v.mirror, v.listeners[id].path)
    {
      UnrelatedToAll(v.mirror, base, ws, v.listeners[id].path);
    }
    DispatchCoherent(v, base, after);
  }

  lemma {:induction false} WrittenAllTame(root: Json, ws: seq<Write>)
    requires Tame(root) && forall w | w in ws :: TamePath(w.path) && Tame(w.value)
    ensures Tame(WrittenAll(root, ws))
    decreases |ws|
  {
    if ws != [] {
      assert ws[0] in ws;
      WrittenTame(root, ws[0].path, ws[0].value);
      WrittenAllTame(Written(root, ws[0].path, ws[0].value), ws[1..]);
    }
  }

  lemma {:induction false} MergeWritesBelow(base: Path, keys: seq<string>, entries: map<string, Json>)
    requires forall k | k in keys :: k in entries
    requires MergeWrites(base, keys, entries).Ok? && Tame(Obj(entries))
    ensures forall w | w in MergeWrites(base, keys, entries).value :: base <= w.path && Tame(w.value)
  {
    if keys != [] {
      assert keys[0] in keys && forall k | k in keys[1..] :: k in keys;
      MergeWritesBelow(base, keys[1..], entries);
    }
  }

  /** Any frame the client accepts leaves every listener up to date. */
  lemma FrameCoherent(v: View, action: Action, path: Option<string>, data: Json)
    requires Coherent(v) && Tame(data) && Framed(v, action, path, data).Ok?
    requires path.Some? ==> TamePath(Normalized(path.value).value)
    requires path.Some? && action.Merge? ==>
               var ws := MergeWrites(Normalized(path.value).value, SortedKeys(data.fields.Keys), data.fields).value;
               forall w | w in ws :: TamePath(w.path)
    ensures Coherent(Framed(v, action, path, data).value)
  {
    if path.Some? {
      var base := Normalized(path.value).value;
      if action.Data? {
        LocalWriteCoherent(v, base, data);
      } else {
        MergeWritesBelow(base, SortedKeys(data.fields.Keys), data.fields);
        MergedCoherent(v, base, MergeWrites(base, SortedKeys(data.fields.Keys), data.fields).value);
      }
    }
  }

  // ----- Agreement with the server over every run -----

  /** The client is in sync: listeners know the mirror, and below every listened path the mirror
      holds what the server holds. */
  ghost predicate InSync(s: State) {
    Coherent(s.view) && Tame(s.data)
    && forall id | id in s.view.listeners :: AgreeBelow(s.view.mirror, s.data, s.view.listeners[id].path)
  }

  ghost predicate Covered(v: View, l: Path) {
    exists id | id in v.listeners :: v.listeners[id].path <= l
  }

  lemma AgreeReads(a: Json, b: Json, l: Path)
    requires Tame(a) && Tame(b) && AgreeBelow(a, b, l)
    ensures SameLeaves(ValueAt(a, l), ValueAt(b, l))
  {
    ReadersAgree(a, l);
    ReadersAgree(b, l);
    forall q: Path ensures Leaf(ValueAt(a, l), q) == Leaf(ValueAt(b, l), q) {
      GetLeaf(a, l, q);
      GetLeaf(b, l, q);
      assert l <= l + q;
    }
  }

  lemma AgreeBelowWeaker(a: Json, b: Json, l: Path, m: Path)
    requires AgreeBelow(a, b, l) && l <= m
    ensures AgreeBelow(a, b, m)
  {
    forall q | m <= q ensures Leaf(a, q) == Leaf(b, q) {
      assert l <= q;
    }
  }

  lemma ClearBelow(data: Json, watched: set<Path>, l: Path, p: Path)
    requires Under(watched, l)
    ensures RemoveClear(data, watched, p) ==> RemoveGuard(data, l, p)
    ensures forall value | SetClear(data, watched, p, value) :: SetGuard(data, l, p, value)
  {
    var m :| m in watched && m <= l;
    forall q | l <= q ensures Under(watched, q) { assert m <= q; }
  }

  lemma ListenedIsWatched(v: View, id: nat)
    requires id in v.listeners
    ensures Under(Watched(v), v.listeners[id].path)
  {
    assert v.listeners[id].path in Watched(v);
  }

  lemma PutKeepsAgreement(mirror: Json, data: Json, l: Path, p: Path, value: Json)
    requires AgreeBelow(mirror, data, l) && (value.Null? ==> RemoveGuard(data, l, p))
    ensures AgreeBelow(Written(mirror, p, value), Put(data, p, value), l)
  {
    if value.Null? {
      RemoveKeepsAgreement(mirror, data, l, p);
    } else {
      SetKeepsAgreement(mirror, data, l, p, value);
    }
  }

  lemma PutElsewhere(mirror: Json, data: Json, l: Path, p: Path, value: Json)
    requires AgreeBelow(mirror, data, l) && !PathsRelated(l, p)
    ensures AgreeBelow(mirror, Put(data, p, value), l)
  {
    forall q | l <= q ensures Leaf(mirror, q) == Leaf(Put(data, p, value), q) {
      SetLeaf(data, p, value, q);
      DeletedLeaf(data, p, q);
      if p <= q { PrefixesCompare(p, l, q); }
    }
  }

  lemma {:induction false} LocalWritesMirror(v: View, ws: seq<Write>)
    ensures LocalWrites(v, ws).mirror == WrittenAll(v.mirror, ws) && LocalWrites(v, ws).listeners == v.listeners
    decreases |ws|
  {
    if ws != [] { LocalWritesMirror(LocalWrite(v, ws[0].path, ws[0].value), ws[1..]); }
  }

  lemma UpdateKeepsAgreement(s: State, base: Path, updates: seq<(string, Json)>, now: nat, watched: set<Path>, l: Path)
    requires Operations(base, updates).Ok? && AgreeBelow(s.view.mirror, s.data, l) && Under(watched, l)
    requires UpdateClear(s.data, watched, Operations(base, updates).value, now)
    ensures var t := Step(s, Update(base, updates, now)); AgreeBelow(t.view.mirror, t.data, l)
  {
    hide Written, WrittenAll, StoresAll, WritesClear, Operations;
    var ws := Operations(base, updates).value;
    var outcome := UpdateAll(s.data, ws, now);
    if outcome.stored.Ok? {
      UpdateStores(s.data, ws, now);
      LocalWritesMirror(s.view, outcome.stored.value);
      ClearForFewer(s.data, watched, {l}, outcome.stored.value, Setting);
      WritesAgreeIff(s.view.mirror, s.data, l, outcome.stored.value, Setting);
    } else {
      var m :| m in watched && m <= l;
      AgreeBelowWeaker(s.data, outcome.data, m, l);
    }
  }

  /** Below any path on which mirror and server agree they go on agreeing, if only the client writes
      or someone listens there. */
  lemma StepAgrees(s: State, op: Op, watched: set<Path>, l: Path)
    requires Coherent(s.view) && Tame(s.data) && GuardFor(s.data, watched, op) && Under(watched, l)
    requires AgreeBelow(s.view.mirror, s.data, l)
    requires op.Remote? || op.RemoteMerge? ==> Covered(s.view, l)
    ensures AgreeBelow(Step(s, op).view.mirror, Step(s, op).data, l)
  {
    match op
    case Set(path, value, now) =>
      var stored := Stored(s.data, path, value, now);
      if stored.Ok? {
        ClearBelow(s.data, watched, l, path);
        SetKeepsAgreement(s.view.mirror, s.data, l, path, stored.value);
      }
    case Update(base, updates, now) =>
      if Operations(base, updates).Ok? { UpdateKeepsAgreement(s, base, updates, now, watched, l); }
    case Remove(path) =>
      ClearBelow(s.data, watched, l, path);
      RemoveKeepsAgreement(s.view.mirror, s.data, l, path);
    case Transact(path, update, now) =>
      var stored := TransactionStores(s.data, path, update, now);
      if stored.Some? {
        ClearBelow(s.data, watched, l, path);
        PutKeepsAgreement(s.view.mirror, s.data, l, path, stored.value);
      }
    case Attach(path, kind) =>
      ClearBelow(s.data, watched, l, path);
      SeedKeepsAgreement(s.view.mirror, s.data, l, path);
    case Detach(_) =>
    case Remote(path, value) =>
      if SomeoneListens(s.view, path) {
        ClearBelow(s.data, watched, l, path);
        PutKeepsAgreement(s.view.mirror, s.data, l, path, value);
      } else {
        var id :| id in s.view.listeners && s.view.listeners[id].path <= l;
        assert !PathsRelated(s.view.listeners[id].path, path);
        StillUnrelated(s.view.listeners[id].path, l, path);
        PutElsewhere(s.view.mirror, s.data, l, path, value);
      }
    case RemoteMerge(base, ws) =>
      if SomeoneListens(s.view, base) {
        ClearForFewer(s.data, watched, {l}, ws, Putting);
        WritesAgreeIff(s.view.mirror, s.data, l, ws, Putting);
      } else {
        var id :| id in s.view.listeners && s.view.listeners[id].path <= l;
        assert !PathsRelated(s.view.listeners[id].path, base);
        StillUnrelated(s.view.listeners[id].path, l, base);
        MergeElsewhere(s.view.mirror, s.data, l, base, ws);
      }
  }

  lemma {:induction false} MergeElsewhere(mirror: Json, data: Json, l: Path, base: Path, ws: seq<Write>)
    requires AgreeBelow(mirror, data, l) && AllBelow(base, ws) && !PathsRelated(l, base)
    ensures AgreeBelow(mirror, StoresAll(data, ws, Putting), l)
    decreases |ws|
  {
    if ws != [] {
      assert ws[0] in ws;
      StillUnrelated(base, ws[0].path, l);
      PutElsewhere(mirror, data, l, ws[0].path, ws[0].value);
      MergeElsewhere(mirror, Put(data, ws[0].path, ws[0].value), l, base, ws[1..]);
    }
  }

  lemma StepTame(s: State, op: Op)
    requires Coherent(s.view) && Tame(s.data) && Guard(s, op)
    ensures Tame(Step(s, op).data)
  {
    match op
    case Set(path, value, now) =>
      var stored := Stored(s.data, path, value, now);
      if stored.Ok? {
        ResolvedTame(value, Some(ExtractData(GetAt(s.data, path))), now);
        SetTame(s.data, path, stored.value);
      }
    case Update(base, updates, now) =>
      if Operations(base, updates).Ok? { StoredAreTame(s.data, Operations(base, updates).value, now); }
    case Remove(path) => DeletedTame(s.data, path);
    case Transact(path, update, now) =>
      var stored := TransactionStores(s.data, path, update, now);
      if stored.Some? {
        PutTame(s.data, path, stored.value);
      }
    case Attach(_, _) =>
    case Detach(_) =>
    case Remote(path, value) => PutTame(s.data, path, value);
    case RemoteMerge(base, ws) => MergedTame(s.data, ws);
  }

  lemma AttachCoherent(s: State, path: Path, kind: Kind)
    requires InSync(s) && TamePath(path) && RemoveClear(s.data, Watched(s.view), path)
    ensures Coherent(Attached(s.view, path, kind, GetAt(s.data, path)))
  {
    var seed := GetAt(s.data, path);
    var after := Written(s.view.mirror, path, seed);
    var v' := Attached(s.view, path, kind, seed);
    ReadersAgree(s.data, path);
    WrittenTame(s.view.mirror, path, seed);
    forall id | id in v'.listeners ensures ToldTheMirror(v', id) {
      if id != s.view.nextId {
        assert ToldTheMirror(s.view, id);
        var l := s.view.listeners[id].path;
        assert AgreeBelow(s.view.mirror, s.data, l);
        ListenedIsWatched(s.view, id);
        ClearBelow(s.data, Watched(s.view), l, path);
        SeedKeepsAgreement(s.view.mirror, s.data, l, path);
        AgreeReads(s.view.mirror, s.data, l);
        AgreeReads(after, s.data, l);
      }
    }
  }

  lemma StepCoherent(s: State, op: Op)
    requires InSync(s) && Guard(s, op)
    ensures Coherent(Step(s, op).view)
  {
    match op
    case Set(path, value, now) =>
      var stored := Stored(s.data, path, value, now);
      if stored.Ok? {
        ResolvedTame(value, Some(ExtractData(GetAt(s.data, path))), now);
        LocalWriteCoherent(s.view, path, stored.value);
      }
    case Update(base, updates, now) =>
      if Operations(base, updates).Ok? {
        var outcome := UpdateAll(s.data, Operations(base, updates).value, now);
        StoredAreTame(s.data, Operations(base, updates).value, now);
        if outcome.stored.Ok? { WritesCoherent(s.view, outcome.stored.value); }
      }
    case Remove(path) => LocalWriteCoherent(s.view, path, Null);
    case Transact(path, update, now) =>
      var stored := TransactionStores(s.data, path, update, now);
      if stored.Some? {
        LocalWriteCoherent(s.view, path, stored.value);
      }
    case Attach(path, kind) => AttachCoherent(s, path, kind);
    case Detach(id) =>
      forall k | k in Detached(s.view, id).listeners ensures ToldTheMirror(Detached(s.view, id), k) {
        assert ToldTheMirror(s.view, k);
      }
    case Remote(path, value) =>
      if SomeoneListens(s.view, path) {
        LocalWriteCoherent(s.view, path, value);
      }
    case RemoteMerge(base, ws) =>
      if SomeoneListens(s.view, base) { MergedCoherent(s.view, base, ws); }
  }

  lemma {:induction false} WritesCoherent(v: View, ws: seq<Write>)
    requires Coherent(v) && TameWrites(ws)
    ensures Coherent(LocalWrites(v, ws))
    decreases |ws|
  {
    if ws != [] {
      assert ws[0] in ws;
      LocalWriteCoherent(v, ws[0].path, ws[0].value);
      WritesCoherent(LocalWrite(v, ws[0].path, ws[0].value), ws[1..]);
    }
  }

  /** Every operation keeps the client in sync. */
  lemma StepInSync(s: State, op: Op)
    requires InSync(s) && Guard(s, op)
    ensures InSync(Step(s, op))
  {
    StepCoherent(s, op);
    StepTame(s, op);
    var t := Step(s, op);
    forall id | id in t.view.listeners ensures AgreeBelow(t.view.mirror, t.data, t.view.listeners[id].path) {
      if id in s.view.listeners && t.view.listeners[id] == s.view.listeners[id] {
        ListenedIsWatched(s.view, id);
        StepAgrees(s, op, Watched(s.view), s.view.listeners[id].path);
      } else {
        NewListenerAgrees(s, op, id);
      }
    }
  }

  lemma NewListenerAgrees(s: State, op: Op, id: nat)
    requires InSync(s) && Guard(s, op) && id in Step(s, op).view.listeners
    requires !(id in s.view.listeners && Step(s, op).view.listeners[id] == s.view.listeners[id])
    ensures AgreeBelow(Step(s, op).view.mirror, Step(s, op).data, Step(s, op).view.listeners[id].path)
  {
    if op.Update? && Operations(op.base, op.updates).Ok? {
      var stored := UpdateAll(s.data, Operations(op.base, op.updates).value, op.now).stored;
      if stored.Ok? { LocalWritesMirror(s.view, stored.value); }
    }
    assert op.Attach? && id == s.view.nextId;
    SeedKeepsAgreement(s.view.mirror, s.data, op.path, op.path);
  }

  /** From the empty database, whatever is written, transacted, attached and pushed, the client stays
      in sync. */
  lemma {:induction false} RunInSync(s: State, ops: seq<Op>)
    requires InSync(s) && Guarded(s, ops)
    ensures InSync(Run(s, ops))
    decreases |ops|
  {
    if ops != [] {
      StepInSync(s, ops[0]);
      RunInSync(Step(s, ops[0]), ops[1..]);
    }
  }

  // ----- Exactly when one call keeps the client in sync -----

  lemma SomeListenerAbove(v: View, p: Path) returns (id: nat)
    requires Under(Watched(v), p)
    ensures id in v.listeners && v.listeners[id].path <= p
  {
    var l :| l in Watched(v) && l <= p;
    id :| id in v.listeners && v.listeners[id].path == l;
  }

  /** What is not clear shows at some listener's path. */
  lemma NotClearForRemoval(s: State, p: Path) returns (id: nat)
    requires !RemoveClear(s.data, Watched(s.view), p)
    ensures id in s.view.listeners && !RemoveGuard(s.data, s.view.listeners[id].path, p)
  {
    var n: nat :| n + 1 < |p| && Under(Watched(s.view), p[..n]) && !Leaf(s.data, p[..n]).Null?;
    id := SomeListenerAbove(s.view, p[..n]);
  }

  lemma RemovalShows(s: State, t: State, p: Path)
    requires InSync(s) && !RemoveClear(s.data, Watched(s.view), p)
    requires t.view.listeners == s.view.listeners
    requires t.view.mirror == Written(s.view.mirror, p, Null) && t.data == DeletedAt(s.data, p)
    ensures !InSync(t)
  {
    hide Coherent, RemoveClear, RemoveGuard, AgreeBelow;
    var id := NotClearForRemoval(s, p);
    RemoveAgreesIff(s.view.mirror, s.data, s.view.listeners[id].path, p);
  }

  /** Attaching keeps the client in sync if and only if no leaf that a listener covers sits above the
      parent of the path. */
  lemma AttachInSyncIff(s: State, p: Path, kind: Kind)
    requires InSync(s) && TamePath(p)
    ensures InSync(Step(s, Attach(p, kind))) <==> RemoveClear(s.data, Watched(s.view), p)
  {
    var t := Step(s, Attach(p, kind));
    if RemoveClear(s.data, Watched(s.view), p) {
      StepInSync(s, Attach(p, kind));
    } else {
      var id := NotClearForRemoval(s, p);
      SeedAgreesIff(s.view.mirror, s.data, s.view.listeners[id].path, p);
      assert t.view.listeners[id] == s.view.listeners[id];
    }
  }

  /** So does removing. */
  lemma RemoveInSyncIff(s: State, p: Path)
    requires InSync(s) && TamePath(p)
    ensures InSync(Step(s, Remove(p))) <==> RemoveClear(s.data, Watched(s.view), p)
  {
    if RemoveClear(s.data, Watched(s.view), p) {
      StepInSync(s, Remove(p));
    } else {
      RemovalShows(s, Step(s, Remove(p)), p);
    }
  }

  /** Setting does if and only if it stores no null directly under a leaf that a listener covers. */
  lemma SetInSyncIff(s: State, p: Path, value: Json, now: nat)
    requires InSync(s) && TamePath(p) && Tame(value) && Stored(s.data, p, value, now).Ok?
    ensures InSync(Step(s, Set(p, value, now))) <==>
            SetClear(s.data, Watched(s.view), p, Stored(s.data, p, value, now).value)
  {
    var v := Stored(s.data, p, value, now).value;
    if SetClear(s.data, Watched(s.view), p, v) {
      StepInSync(s, Set(p, value, now));
    } else {
      var id := SomeListenerAbove(s.view, p[..|p|-1]);
      SetAgreesIff(s.view.mirror, s.data, s.view.listeners[id].path, p, v);
    }
  }

  /** A transaction does if and only if what it stores is no null, or may be removed. */
  lemma TransactInSyncIff(s: State, p: Path, update: Json -> Option<Json>, now: nat)
    requires InSync(s) && TamePath(p) && TransactionStores(s.data, p, update, now).Some?
    requires Tame(TransactionStores(s.data, p, update, now).value)
    ensures InSync(Step(s, Transact(p, update, now))) <==>
            PutClear(s.data, Watched(s.view), p, TransactionStores(s.data, p, update, now).value)
  {
    var v := TransactionStores(s.data, p, update, now).value;
    if PutClear(s.data, Watched(s.view), p, v) {
      StepInSync(s, Transact(p, update, now));
    } else {
      RemovalShows(s, Step(s, Transact(p, update, now)), p);
    }
  }

  lemma ListenerIsRelated(s: State, id: nat, p: Path)
    requires id in s.view.listeners && !RemoveGuard(s.data, s.view.listeners[id].path, p)
    ensures SomeoneListens(s.view, p)
  {
    assert PathsRelated(s.view.listeners[id].path, p);
  }

  /** So does another client's write. */
  lemma RemoteInSyncIff(s: State, p: Path, value: Json)
    requires InSync(s) && TamePath(p) && Tame(value)
    ensures InSync(Step(s, Remote(p, value))) <==> PutClear(s.data, Watched(s.view), p, value)
  {
    hide InSync, RemoveClear, RemoveGuard;
    if PutClear(s.data, Watched(s.view), p, value) {
      StepInSync(s, Remote(p, value));
    } else {
      var id := NotClearForRemoval(s, p);
      ListenerIsRelated(s, id, p);
      RemovalShows(s, Step(s, Remote(p, value)), p);
    }
  }

  lemma OutOfSync(s: State, t: State, ws: seq<Write>, how: Manner)
    requires InSync(s) && !WritesClear(s.data, Watched(s.view), ws, how)
    requires t.view.listeners == s.view.listeners
    requires t.view.mirror == WrittenAll(s.view.mirror, ws) && t.data == StoresAll(s.data, ws, how)
    ensures !InSync(t)
  {
    hide WritesClear, WrittenAll, StoresAll, AgreeBelow, Coherent;
    var l := NotClearSomewhere(s.data, Watched(s.view), ws, how);
    var id :| id in s.view.listeners && s.view.listeners[id].path == l;
    WritesAgreeIff(s.view.mirror, s.data, l, ws, how);
  }

  /** An update of several paths keeps the client in sync if and only if it goes through and mends
      whatever it breaks, or fails having changed nothing a listener covers. */
  lemma UpdateInSyncIff(s: State, base: Path, updates: seq<(string, Json)>, now: nat)
    requires InSync(s) && Operations(base, updates).Ok? && TameWrites(Operations(base, updates).value)
    ensures InSync(Step(s, Update(base, updates, now))) <==>
            UpdateClear(s.data, Watched(s.view), Operations(base, updates).value, now)
  {
    hide InSync, WritesClear, WrittenAll, StoresAll, Operations;
    var ws, t := Operations(base, updates).value, Step(s, Update(base, updates, now));
    var outcome := UpdateAll(s.data, ws, now);
    if UpdateClear(s.data, Watched(s.view), ws, now) {
      StepInSync(s, Update(base, updates, now));
    } else if outcome.stored.Ok? {
      UpdateStores(s.data, ws, now);
      LocalWritesMirror(s.view, outcome.stored.value);
      OutOfSync(s, t, outcome.stored.value, Setting);
    } else {
      HalfDone(s, t, outcome.data);
    }
  }

  lemma HalfDone(s: State, t: State, data: Json)
    requires InSync(s) && t == s.(data := data)
    requires exists l | l in Watched(s.view) :: !AgreeBelow(s.data, data, l)
    ensures !InSync(t)
  {
    var l :| l in Watched(s.view) && !AgreeBelow(s.data, data, l);
    var id :| id in s.view.listeners && s.view.listeners[id].path == l;
    assert AgreeBelow(s.view.mirror, s.data, l);
    assert !AgreeBelow(s.view.mirror, data, l);
  }

  /** Another client's update of several paths does if and only if it mends whatever it breaks. */
  lemma MergeInSyncIff(s: State, base: Path, ws: seq<Write>)
    requires InSync(s) && AllBelow(base, ws) && TameWrites(ws)
    ensures InSync(Step(s, RemoteMerge(base, ws))) <==> WritesClear(s.data, Watched(s.view), ws, Putting)
  {
    hide InSync, WritesClear, WrittenAll, StoresAll, NodeClear;
    if WritesClear(s.data, Watched(s.view), ws, Putting) {
      StepInSync(s, RemoteMerge(base, ws));
    } else if SomeoneListens(s.view, base) {
      OutOfSync(s, Step(s, RemoteMerge(base, ws)), ws, Putting);
    } else {
      NobodyBelow(s, base, ws, s.data);
    }
  }

  /** Nothing is watched above a merge that nobody hears about. */
  lemma {:induction false} NobodyBelow(s: State, base: Path, ws: seq<Write>, data: Json)
    requires AllBelow(base, ws) && !SomeoneListens(s.view, base)
    ensures WritesClear(data, Watched(s.view), ws, Putting)
    decreases |ws|
  {
    if ws != [] {
      var p := ws[0].path;
      assert ws[0] in ws;
      NobodyBelow(s, base, ws[1..], Stores(data, ws[0], Putting));
      forall n: nat | n < |p| ensures !Under(Watched(s.view), p[..n]) {
        if Under(Watched(s.view), p[..n]) {
          var id := SomeListenerAbove(s.view, p[..n]);
          assert s.view.listeners[id].path <= p && base <= p;
          PrefixesCompare(base, s.view.listeners[id].path, p);
        }
      }
    }
  }

  /** No array and no wrapper is written, and a merge writes below its path. */
  ghost predicate Plain(s: State, op: Op) {
    match op
    case Set(path, value, _) => TamePath(path) && Tame(value)
    case Update(base, updates, _) =>
      Operations(base, updates).Ok? ==> TameWrites(Operations(base, updates).value)
    case Remove(path) => TamePath(path)
    case Transact(path, update, now) =>
      TamePath(path) && (var v := TransactionStores(s.data, path, update, now); v.Some? ==> Tame(v.value))
    case Attach(path, _) => TamePath(path)
    case Detach(_) => true
    case Remote(path, value) => TamePath(path) && Tame(value)
    case RemoteMerge(base, ws) => AllBelow(base, ws) && TameWrites(ws)
  }

  lemma StepInSyncIff(s: State, op: Op)
    requires InSync(s) && Plain(s, op)
    ensures InSync(Step(s, op)) <==> Guard(s, op)
  {
    if Guard(s, op) {
      StepInSync(s, op);
    } else {
      hide InSync;
      match op
      case Set(path, value, now) => SetInSyncIff(s, path, value, now);
      case Remove(path) => RemoveInSyncIff(s, path);
      case Transact(path, update, now) => TransactInSyncIff(s, path, update, now);
      case Attach(path, kind) => AttachInSyncIff(s, path, kind);
      case Remote(path, value) => RemoteInSyncIff(s, path, value);
      case Update(base, updates, now) => UpdateInSyncIff(s, base, updates, now);
      case RemoteMerge(base, ws) => MergeInSyncIff(s, base, ws);
    }
  }

  ghost predicate PlainRun(s: State, ops: seq<Op>)
    decreases |ops|
  {
    ops == [] || (Plain(s, ops[0]) && PlainRun(Step(s, ops[0]), ops[1..]))
  }

  ghost predicate AlwaysInSync(s: State, ops: seq<Op>)
    decreases |ops|
  {
    InSync(s) && (ops == [] || AlwaysInSync(Step(s, ops[0]), ops[1..]))
  }

  /** The client is in sync throughout a run if and only if every call of it met its guard. */
  lemma {:induction false} AlwaysInSyncIff(s: State, ops: seq<Op>)
    requires InSync(s) && PlainRun(s, ops)
    ensures AlwaysInSync(s, ops) <==> Guarded(s, ops)
    decreases |ops|
  {
    hide InSync, Plain, Guard, Step;
    if ops != [] {
      StepInSyncIff(s, ops[0]);
      if Guard(s, ops[0]) {
        AlwaysInSyncIff(Step(s, ops[0]), ops[1..]);
      } else {
        NotInSyncAfter(s, ops);
      }
    }
  }

  lemma NotInSyncAfter(s: State, ops: seq<Op>)
    requires ops != [] && !InSync(Step(s, ops[0]))
    ensures !AlwaysInSync(s, ops)
  {
    hide InSync, Step;
  }

  lemma InitialInSync()
    ensures InSync(INITIAL)
  {}

  /** `get()` means the same whether the mirror or the server answers. */
  lemma GetIsServerData(ops: seq<Op>, path: Path)
    requires Guarded(INITIAL, ops)
    ensures SameLeaves(Got(Run(INITIAL, ops), path), GetAt(Run(INITIAL, ops).data, path))
  {
    var s := Run(INITIAL, ops);
    InitialInSync();
    RunInSync(INITIAL, ops);
    if Synced(s.view, path) {
      var id :| id in s.view.listeners && s.view.listeners[id].path <= path;
      AgreeBelowWeaker(s.view.mirror, s.data, s.view.listeners[id].path, path);
      AgreeReads(s.view.mirror, s.data, path);
      ReadersAgree(s.data, path);
    }
  }

  /** The last snapshot an attached value listener got is what the server holds at its path. */
  lemma ListenersHearTheServer(ops: seq<Op>, id: nat)
    requires Guarded(INITIAL, ops)
    requires id in Run(INITIAL, ops).view.listeners && Run(INITIAL, ops).view.listeners[id].kind.OnValue?
    ensures var s := Run(INITIAL, ops);
            id in s.view.inbox && s.view.inbox[id] != []
            && var last := s.view.inbox[id][|s.view.inbox[id]|-1];
               last.Value? && SameLeaves(last.value, GetAt(s.data, s.view.listeners[id].path))
  {
    var s := Run(INITIAL, ops);
    InitialInSync();
    RunInSync(INITIAL, ops);
    assert ToldTheMirror(s.view, id);
    var l := s.view.listeners[id].path;
    AgreeReads(s.view.mirror, s.data, l);
    ReadersAgree(s.data, l);
  }

  lemma EverywhereIsUnder(data: Json, watched: set<Path>, p: Path)
    ensures RemoveClear(data, EVERYWHERE, p) ==> RemoveClear(data, watched, p)
    ensures forall value | SetClear(data, EVERYWHERE, p, value) :: SetClear(data, watched, p, value)
    ensures forall q :: Under(EVERYWHERE, q)
  {
    forall q: Path ensures Under(EVERYWHERE, q) { assert [] <= q; }
  }

  lemma StricterUpdate(data: Json, watched: set<Path>, ws: seq<Write>, now: nat)
    requires UpdateClear(data, EVERYWHERE, ws, now)
    ensures UpdateClear(data, watched, ws, now)
  {
    var outcome := UpdateAll(data, ws, now);
    EverywhereIsUnder(data, watched, []);
    if outcome.stored.Ok? {
      ClearForFewer(data, EVERYWHERE, watched, outcome.stored.value, Setting);
    } else {
      forall l | l in watched ensures AgreeBelow(data, outcome.data, l) {
        AgreeBelowWeaker(data, outcome.data, [], l);
      }
    }
  }

  lemma StricterGuard(data: Json, watched: set<Path>, op: Op)
    requires GuardFor(data, EVERYWHERE, op)
    ensures GuardFor(data, watched, op)
  {
    match op
    case Set(path, _, _) => EverywhereIsUnder(data, watched, path);
    case Update(base, updates, now) =>
      if Operations(base, updates).Ok? { StricterUpdate(data, watched, Operations(base, updates).value, now); }
    case Remove(path) => EverywhereIsUnder(data, watched, path);
    case Transact(path, _, _) => EverywhereIsUnder(data, watched, path);
    case Attach(path, _) => EverywhereIsUnder(data, watched, path);
    case Detach(_) =>
    case Remote(path, _) => EverywhereIsUnder(data, watched, path);
    case RemoteMerge(base, ws) =>
      EverywhereIsUnder(data, watched, base);
      ClearForFewer(data, EVERYWHERE, watched, ws, Putting);
  }

  /** While nobody else writes, mirror and backend hold the same data everywhere, listened to or not. */
  lemma {:induction false} LocalRunAgrees(s: State, ops: seq<Op>)
    requires InSync(s) && SameLeaves(s.view.mirror, s.data) && StrictlyGuarded(s, ops)
    requires forall op | op in ops :: !op.Remote? && !op.RemoteMerge?
    ensures SameLeaves(Run(s, ops).view.mirror, Run(s, ops).data)
    decreases |ops|
  {
    if ops != [] {
      var t := Step(s, ops[0]);
      assert ops[0] in ops && forall op | op in ops[1..] :: op in ops;
      AgreeAtRoot(s.view.mirror, s.data);
      StricterGuard(s.data, Watched(s.view), ops[0]);
      StepInSync(s, ops[0]);
      StepAgrees(s, ops[0], EVERYWHERE, []);
      AgreeAtRoot(t.view.mirror, t.data);
      LocalRunAgrees(t, ops[1..]);
    }
  }

  lemma NotClearBelow(data: Json, l: Path, p: Path)
    ensures RemoveGuard(data, l, p) ==> RemoveClear(data, {l}, p)
    ensures forall value | SetGuard(data, l, p, value) :: SetClear(data, {l}, p, value)
  {
    forall q ensures Under({l}, q) <==> l <= q { ClearMeansUnder(l, q); }
  }

  /** Where mirror and backend agree, one operation of this client keeps them so exactly under its guard. */
  lemma StepAgreesIff(s: State, op: Op, l: Path)
    requires Coherent(s.view) && Tame(s.data) && Plain(s, op) && !op.Remote? && !op.RemoteMerge?
    requires AgreeBelow(s.view.mirror, s.data, l)
    ensures AgreeBelow(Step(s, op).view.mirror, Step(s, op).data, l) <==> GuardFor(s.data, {l}, op)
  {
    ClearMeansUnder(l, l);
    if GuardFor(s.data, {l}, op) {
      StepAgrees(s, op, {l}, l);
    } else {
      match op
      case Set(path, value, now) =>
        NotClearBelow(s.data, l, path);
        SetAgreesIff(s.view.mirror, s.data, l, path, Stored(s.data, path, value, now).value);
      case Update(base, updates, now) => UpdateDisagrees(s, base, updates, now, l);
      case Remove(path) =>
        NotClearBelow(s.data, l, path);
        RemoveAgreesIff(s.view.mirror, s.data, l, path);
      case Transact(path, update, now) =>
        NotClearBelow(s.data, l, path);
        RemoveAgreesIff(s.view.mirror, s.data, l, path);
      case Attach(path, _) =>
        NotClearBelow(s.data, l, path);
        SeedAgreesIff(s.view.mirror, s.data, l, path);
    }
  }

  lemma UpdateDisagrees(s: State, base: Path, updates: seq<(string, Json)>, now: nat, l: Path)
    requires Operations(base, updates).Ok? && AgreeBelow(s.view.mirror, s.data, l)
    requires !UpdateClear(s.data, {l}, Operations(base, updates).value, now)
    ensures var t := Step(s, Update(base, updates, now)); !AgreeBelow(t.view.mirror, t.data, l)
  {
    hide WrittenAll, StoresAll, WritesClear, Operations;
    var ws := Operations(base, updates).value;
    var outcome := UpdateAll(s.data, ws, now);
    if outcome.stored.Ok? {
      UpdateStores(s.data, ws, now);
      LocalWritesMirror(s.view, outcome.stored.value);
      WritesAgreeIff(s.view.mirror, s.data, l, outcome.stored.value, Setting);
    }
  }

  ghost predicate AlwaysAgree(s: State, ops: seq<Op>)
    decreases |ops|
  {
    SameLeaves(s.view.mirror, s.data) && (ops == [] || AlwaysAgree(Step(s, ops[0]), ops[1..]))
  }

  /** Of this client's own runs exactly the strictly guarded ones keep mirror and backend equal. */
  lemma {:induction false} AlwaysAgreeIff(s: State, ops: seq<Op>)
    requires InSync(s) && SameLeaves(s.view.mirror, s.data) && PlainRun(s, ops)
    requires forall op | op in ops :: !op.Remote? && !op.RemoteMerge?
    ensures AlwaysAgree(s, ops) <==> StrictlyGuarded(s, ops)
    decreases |ops|
  {
    hide Plain, GuardFor, Step, Coherent, Leaf;
    if ops != [] {
      var t := Step(s, ops[0]);
      assert ops[0] in ops && forall op | op in ops[1..] :: op in ops;
      AgreeAtRoot(s.view.mirror, s.data);
      AgreeAtRoot(t.view.mirror, t.data);
      StepAgreesIff(s, ops[0], []);
      if GuardFor(s.data, EVERYWHERE, ops[0]) {
        StricterGuard(s.data, Watched(s.view), ops[0]);
        StepInSync(s, ops[0]);
        AlwaysAgreeIff(t, ops[1..]);
      }
    }
  }

  // ----- Where the guards are needed -----

  lemma SetAndAttach()
    ensures var s := Step(Step(INITIAL, Set(["a"], Num(5.0), 0)), Attach(["a"], OnValue));
            s == TOLD && Guard(INITIAL, Set(["a"], Num(5.0), 0))
            && Guard(Step(INITIAL, Set(["a"], Num(5.0), 0)), Attach(["a"], OnValue))
  {
    assert ["a"][1..] == [] && !ContainsServerValue(Num(5.0));
    var data := Obj(map["a" := Num(5.0)]);
    var s := Step(INITIAL, Set(["a"], Num(5.0), 0));
    assert s == State(View(data, map[], map[], 1), data);
    assert GetAt(data, ["a"]) == GetAt(Num(5.0), []) == Num(5.0);
    assert Written(data, ["a"], Num(5.0)) == data;
    assert ValueAt(data, ["a"]) == Lookup(Num(5.0), []) == Num(5.0);
    assert Step(s, Attach(["a"], OnValue)).view == TOLD.view;
  }

  /** The client that set a number and listens to it. */
  const TOLD: State :=
    State(View(Obj(map["a" := Num(5.0)]), map[1 := Listener(["a"], OnValue)], map[1 := [Value(Num(5.0))]], 2),
          Obj(map["a" := Num(5.0)]))

  lemma AttachBelow()
    ensures var s := Step(TOLD, Attach(["a", "b", "c"], OnValue));
            GetAt(s.data, ["a"]) == Num(5.0) && 1 in s.view.inbox && s.view.inbox[1] == [Value(Num(5.0))]
            && Got(s, ["a"]) == Obj(map["b" := Obj(map[])])
  {
    var data, p := Obj(map["a" := Num(5.0)]), ["a", "b", "c"];
    var s := Step(TOLD, Attach(p, OnValue));
    assert p[1..] == ["b", "c"] && p[1..][1..] == ["c"] && ["a"][1..] == [];
    assert GetAt(data, p) == GetAt(Num(5.0), p[1..]) == Null;
    assert Written(Num(5.0), p[1..], Null) == Obj(map["b" := Written(Obj(map[]), p[1..][1..], Null)]);
    assert Obj(map[]).fields - {"c"} == map[];
    assert s.view.mirror == Obj(map["a" := Obj(map["b" := Obj(map[])])]);
    assert 1 in s.view.listeners && s.view.listeners[1].path <= ["a"];
    assert ValueAt(s.view.mirror, ["a"]) == Lookup(s.view.mirror.fields["a"], []);
    assert GetAt(data, ["a"]) == GetAt(Num(5.0), []);
  }

  /** Attaching two levels below a leaf wipes the leaf from the mirror, and the leaf's own listener is
      not told: `get()` and that listener disagree from then on. */
  lemma AttachBelowLeafGoesUnnoticed()
    ensures var first, last := [Set(["a"], Num(5.0), 0), Attach(["a"], OnValue)], Attach(["a", "b", "c"], OnValue);
            var s := Step(Run(INITIAL, first), last);
            Guarded(INITIAL, first) && GetAt(s.data, ["a"]) == Num(5.0)
            && 1 in s.view.inbox && s.view.inbox[1] == [Value(Num(5.0))]
            && Got(s, ["a"]) == Obj(map["b" := Obj(map[])])
  {
    SetAndAttach();
    AttachBelow();
    hide Step, Guard, Got;
    var write, attach := Set(["a"], Num(5.0), 0), Attach(["a"], OnValue);
    assert [write, attach][1..] == [attach] && [attach][1..] == [];
    assert Run(Step(INITIAL, write), [attach]) == Run(Step(Step(INITIAL, write), attach), []);
    assert Guarded(Step(INITIAL, write), [attach]);
  }

  /** The client after its first listener, on an empty database. */
  const LISTENING: State :=
    State(View(Obj(map[]), map[1 := Listener(["a"], OnValue)], map[1 := [Value(Null)]], 2), Obj(map[]))

  lemma FirstListener()
    ensures Step(INITIAL, Attach(["a"], OnValue)) == LISTENING && Guard(INITIAL, Attach(["a"], OnValue))
    ensures Synced(LISTENING.view, ["a"]) && Got(LISTENING, ["a"]) == Null
  {
    assert INITIAL.view.mirror.fields - {"a"} == map[];
    assert Step(INITIAL, Attach(["a"], OnValue)).view == LISTENING.view;
    assert 1 in LISTENING.view.listeners && LISTENING.view.listeners[1].path <= ["a"];
  }

  lemma FailsLate(bad: Json)
    requires !WellFormed(bad)
    ensures var s := Step(LISTENING, Update([], [("a", Num(1.0)), ("b", bad)], 0));
            s.view == LISTENING.view && GetAt(s.data, ["a"]) == Num(1.0)
  {
    TwoOperations(bad);
    var ws := [Write(["a"], Num(1.0)), Write(["b"], bad)];
    var first := SetAt(LISTENING.data, ["a"], Num(1.0));
    FailsIffMalformed(bad, Some(ExtractData(GetAt(first, ["b"]))), 0);
    assert ws[1..] == [Write(["b"], bad)] && UpdateAll(first, ws[1..], 0).data == first;
    assert ["a"][1..] == [] && GetAt(Num(1.0), []) == Num(1.0);
  }

  /** A multi-path update that fails on a later path has already changed the backend. Mirror and listener
      never hear of it: `get()` goes on answering null where the server holds a number. */
  lemma FailedUpdateDiverges(bad: Json)
    requires !WellFormed(bad)
    ensures var ops := [Attach(["a"], OnValue), Update([], [("a", Num(1.0)), ("b", bad)], 0)];
            var s := Run(INITIAL, ops);
            Guard(INITIAL, ops[0]) && GetAt(s.data, ["a"]) == Num(1.0)
            && Got(s, ["a"]) == Null && s.view.inbox == map[1 := [Value(Null)]]
  {
    var attach, update := Attach(["a"], OnValue), Update([], [("a", Num(1.0)), ("b", bad)], 0);
    FirstListener();
    FailsLate(bad);
    hide Step, Guard;
    assert [attach, update][1..] == [update] && [update][1..] == [];
    assert Run(LISTENING, [update]) == Run(Step(LISTENING, update), []);
  }

  lemma TwoOperations(bad: Json)
    ensures Operations([], [("a", Num(1.0)), ("b", bad)]) == Ok([Write(["a"], Num(1.0)), Write(["b"], bad)])
  {
    var updates := [("a", Num(1.0)), ("b", bad)];
    JoinedIsStable(["a"]);
    JoinedIsStable(["b"]);
    assert Text.Join(["a"], '/') == "a" && Text.Join(["b"], '/') == "b";
    assert updates[1..] == [("b", bad)] && updates[1..][1..] == [];
    assert Normalized("a") == Ok(["a"]) && Normalized("b") == Ok(["b"]);
    var root: Path := [];
    assert root + ["a"] == ["a"] && root + ["b"] == ["b"];
    Text.TrimNothing("a", Text.WhiteSpace);
    Text.TrimNothing("b", Text.WhiteSpace);
    assert Operations([], updates[1..][1..]) == Ok([]);
    assert updates[1..][0] == ("b", bad) && Text.Trim("b", Text.WhiteSpace) == "b" != "";
    assert Operations([], updates[1..]) == Ok([Write(["b"], bad)] + []);
    assert [Write(["b"], bad)] + [] == [Write(["b"], bad)];
    assert [Write(["a"], Num(1.0))] + [Write(["b"], bad)] == [Write(["a"], Num(1.0)), Write(["b"], bad)];
  }
}

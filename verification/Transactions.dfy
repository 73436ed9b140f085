/** Optimistic transactions: clients read a value with its tag, run their closure, and write only if
    the tag still matches. Any number of clients interleave, one atomic backend operation at a time. */
module Transactions {
  import opened Wrappers
  import opened Json
  import opened TreeEditors
  import opened TreeLaws
  import opened ServerValue
  import opened Backend

  const MAX_TRANSACTION_ATTEMPTS: nat := 25

  datatype Txn = Txn(path: Path, update: Json -> Option<Json>)

  type Txns = nat -> Txn

  type Tag = Json -> nat

  // ----- The interleaved protocol -----

  /** A client's position. `begunAt` and `readAt` are the lengths the log had then. */
  datatype Client =
    | Idle
    | Pending(read: Json, conflicts: nat, begunAt: nat, readAt: nat)
    | Committed(stored: Json)
    | Aborted(seen: Json)
    | Rejected
    | Exhausted(begunAt: nat, readAt: nat)

  datatype WriteOp =
    | SetOp(path: Path, value: Json, now: nat)
    | DeleteOp(path: Path)
    | UpdateOp(writes: seq<Write>, now: nat)

  datatype Entry = ByTxn(client: nat, now: nat) | ByWrite(op: WriteOp)

  datatype World = World(data: Json, clients: map<nat, Client>, log: seq<Entry>)

  datatype Action = Begin(client: nat) | Attempt(client: nat, now: nat) | Other(op: WriteOp)

  function ClientOf(w: World, c: nat): Client {
    if c in w.clients then w.clients[c] else Idle
  }

  function Performed(data: Json, op: WriteOp): Json {
    match op
    case SetOp(path, value, now) =>
      (match Stored(data, path, value, now)
       case Ok(v) => SetAt(data, path, v)
       case Err(_) => data)
    case DeleteOp(path) => DeletedAt(data, path)
    case UpdateOp(ws, now) => UpdateAll(data, ws, now).data
  }

  function Next(w: World, a: Action, txns: Txns, tag: Tag): World {
    match a
    case Begin(c) =>
      if ClientOf(w, c).Idle? then
        w.(clients := w.clients[c := Pending(GetAt(w.data, txns(c).path), 0, |w.log|, |w.log|)])
      else w
    case Attempt(c, now) => if ClientOf(w, c).Pending? then Attempted(w, c, now, txns, tag) else w
    case Other(op) => w.(data := Performed(w.data, op), log := w.log + [ByWrite(op)])
  }

  function Attempted(w: World, c: nat, now: nat, txns: Txns, tag: Tag): World
    requires ClientOf(w, c).Pending?
  {
    var Txn(path, update) := txns(c);
    var me, current := ClientOf(w, c), GetAt(w.data, path);
    match update(ExtractData(me.read))
    case None => w.(clients := w.clients[c := Aborted(me.read)])
    case Some(next) =>
      if tag(me.read) != tag(current) then
        w.(clients := w.clients[c :=
          if me.conflicts + 1 == MAX_TRANSACTION_ATTEMPTS then Exhausted(me.begunAt, |w.log|)
          else Pending(current, me.conflicts + 1, me.begunAt, |w.log|)])
      else match Stored(w.data, path, next, now)
           case Err(_) => w.(clients := w.clients[c := Rejected])
           case Ok(v) => World(Put(w.data, path, v), w.clients[c := Client.Committed(v)], w.log + [ByTxn(c, now)])
  }

  function Execute(w: World, actions: seq<Action>, txns: Txns, tag: Tag): World {
    if actions == [] then w
    else Next(Execute(w, actions[..|actions|-1], txns, tag), actions[|actions|-1], txns, tag)
  }

  function Fresh(data: Json): World {
    World(data, map[], [])
  }

  // ----- Serial execution -----

  /** One entry of the log, done alone: the closure sees the stored data itself. */
  function Serial(data: Json, e: Entry, txns: Txns): Json {
    match e
    case ByWrite(op) => Performed(data, op)
    case ByTxn(c, now) =>
      match TransactionStores(data, txns(c).path, txns(c).update, now)
      case None => data
      case Some(v) => Put(data, txns(c).path, v)
  }

  function Replay(data: Json, log: seq<Entry>, txns: Txns): Json {
    if log == [] then data else Serial(Replay(data, log[..|log|-1], txns), log[|log|-1], txns)
  }

  predicate IsBy(e: Entry, c: nat) {
    e.ByTxn? && e.client == c
  }

  function CommitsOf(log: seq<Entry>, c: nat): nat {
    if log == [] then 0 else CommitsOf(log[..|log|-1], c) + if IsBy(log[|log|-1], c) then 1 else 0
  }

  /** The k-th entry of the log is `c`'s, and done alone it stores `v`. */
  predicate StoredBy(data: Json, log: seq<Entry>, k: nat, c: nat, v: Json, txns: Txns)
    requires k < |log|
  {
    IsBy(log[k], c)
    && TransactionStores(Replay(data, log[..k], txns), txns(c).path, txns(c).update, log[k].now) == Some(v)
  }

  /** The attempt commits although the data is no longer what the closure saw: their tags collide. */
  predicate CommitsBlindly(w: World, a: Action, txns: Txns, tag: Tag) {
    a.Attempt? && ClientOf(w, a.client).Pending?
    && Attempted(w, a.client, a.now, txns, tag).log != w.log
    && ExtractData(ClientOf(w, a.client).read) != ExtractData(GetAt(w.data, txns(a.client).path))
  }

  /** No attempt of the run commits blindly. */
  predicate Sighted(data: Json, actions: seq<Action>, txns: Txns, tag: Tag) {
    actions == [] ||
    (Sighted(data, actions[..|actions|-1], txns, tag)
     && !CommitsBlindly(Execute(Fresh(data), actions[..|actions|-1], txns, tag), actions[|actions|-1], txns, tag))
  }

  lemma ReplayOneMore(data: Json, log: seq<Entry>, e: Entry, txns: Txns)
    ensures Replay(data, log + [e], txns) == Serial(Replay(data, log, txns), e, txns)
  {
    assert (log + [e])[..|log|] == log;
  }

  lemma CommitsOneMore(log: seq<Entry>, e: Entry, c: nat)
    ensures CommitsOf(log + [e], c) == CommitsOf(log, c) + if IsBy(e, c) then 1 else 0
  {
    assert (log + [e])[..|log|] == log;
  }

  /** What is known about a client: one log entry if it committed, which stores what it reported. */
  ghost predicate Accounted(data: Json, w: World, c: nat, txns: Txns) {
    match ClientOf(w, c)
    case Committed(v) => CommitsOf(w.log, c) == 1 && exists k | 0 <= k < |w.log| :: StoredBy(data, w.log, k, c, v, txns)
    case _ => CommitsOf(w.log, c) == 0
  }

  ghost predicate Serialized(data: Json, w: World, txns: Txns) {
    w.data == Replay(data, w.log, txns) && forall c: nat :: Accounted(data, w, c, txns)
  }

  lemma EntryKeepsAccount(data: Json, w: World, w': World, e: Entry, c: nat, txns: Txns)
    requires Accounted(data, w, c, txns) && w'.log == w.log + [e] && !IsBy(e, c)
    requires ClientOf(w', c) == ClientOf(w, c)
    ensures Accounted(data, w', c, txns)
  {
    CommitsOneMore(w.log, e, c);
    if ClientOf(w, c).Committed? {
      var v := ClientOf(w, c).stored;
      var k :| 0 <= k < |w.log| && StoredBy(data, w.log, k, c, v, txns);
      assert w'.log[..k] == w.log[..k];
      assert StoredBy(data, w'.log, k, c, v, txns);
    }
  }

  lemma CommitIsSerial(data: Json, w: World, c: nat, now: nat, txns: Txns, tag: Tag)
    requires Serialized(data, w, txns) && ClientOf(w, c).Pending?
    requires !CommitsBlindly(w, Attempt(c, now), txns, tag) && Attempted(w, c, now, txns, tag).log != w.log
    ensures Serialized(data, Attempted(w, c, now, txns, tag), txns)
  {
    var w', e := Attempted(w, c, now, txns, tag), ByTxn(c, now);
    assert Accounted(data, w, c, txns);
    ReplayOneMore(data, w.log, e, txns);
    CommitsOneMore(w.log, e, c);
    assert w'.log[..|w.log|] == w.log;
    assert StoredBy(data, w'.log, |w.log|, c, ClientOf(w', c).stored, txns);
    hide Replay, StoredBy, GetAt, Put, Stored;
    forall d: nat ensures Accounted(data, w', d, txns) {
      assert Accounted(data, w, d, txns);
      if d != c { EntryKeepsAccount(data, w, w', e, d, txns); }
    }
  }

  lemma WriteIsSerial(data: Json, w: World, op: WriteOp, txns: Txns, tag: Tag)
    requires Serialized(data, w, txns)
    ensures Serialized(data, Next(w, Other(op), txns, tag), txns)
  {
    hide Performed;
    var w' := Next(w, Other(op), txns, tag);
    ReplayOneMore(data, w.log, ByWrite(op), txns);
    forall d: nat ensures Accounted(data, w', d, txns) {
      assert Accounted(data, w, d, txns);
      EntryKeepsAccount(data, w, w', ByWrite(op), d, txns);
    }
  }

  lemma QuietIsSerial(data: Json, w: World, a: Action, txns: Txns, tag: Tag)
    requires Serialized(data, w, txns) && !a.Other? && Next(w, a, txns, tag).log == w.log
    ensures Serialized(data, Next(w, a, txns, tag), txns)
  {
    hide StoredBy, Replay, Stored, Put;
    forall d: nat ensures Accounted(data, Next(w, a, txns, tag), d, txns) {
      assert Accounted(data, w, d, txns);
    }
  }

  lemma NextIsSerial(data: Json, w: World, a: Action, txns: Txns, tag: Tag)
    requires Serialized(data, w, txns) && !CommitsBlindly(w, a, txns, tag)
    ensures Serialized(data, Next(w, a, txns, tag), txns)
  {
    hide Serialized, CommitsBlindly, Attempted;
    if a.Other? {
      WriteIsSerial(data, w, a.op, txns, tag);
    } else if Next(w, a, txns, tag).log != w.log {
      CommitIsSerial(data, w, a.client, a.now, txns, tag);
    } else {
      QuietIsSerial(data, w, a, txns, tag);
    }
  }

  lemma {:induction false} SerialIfSighted(data: Json, actions: seq<Action>, txns: Txns, tag: Tag)
    requires Sighted(data, actions, txns, tag)
    ensures Serialized(data, Execute(Fresh(data), actions, txns, tag), txns)
  {
    if actions != [] {
      var before := actions[..|actions|-1];
      SerialIfSighted(data, before, txns, tag);
      NextIsSerial(data, Execute(Fresh(data), before, txns, tag), actions[|actions|-1], txns, tag);
    }
  }

  // ----- Exactly the sighted runs -----

  /** The other closures sit at the same paths and make every step of the run come out the same. */
  ghost predicate SameRun(data: Json, actions: seq<Action>, txns: Txns, other: Txns, tag: Tag) {
    && (forall c :: other(c).path == txns(c).path)
    && forall i | 0 <= i <= |actions| ::
         Execute(Fresh(data), actions[..i], other, tag) == Execute(Fresh(data), actions[..i], txns, tag)
  }

  /** At every moment of the run the data is what its log gives when done one entry at a time. */
  ghost predicate AlwaysSerial(data: Json, actions: seq<Action>, txns: Txns, tag: Tag) {
    forall i | 0 <= i <= |actions| ::
      var w := Execute(Fresh(data), actions[..i], txns, tag);
      w.data == Replay(data, w.log, txns)
  }

  lemma ExecutePrefix(data: Json, actions: seq<Action>, i: nat, txns: Txns, tag: Tag)
    requires i < |actions|
    ensures Execute(Fresh(data), actions[..i+1], txns, tag) ==
            Next(Execute(Fresh(data), actions[..i], txns, tag), actions[i], txns, tag)
  {
    assert actions[..i+1] == actions[..i] + [actions[i]];
    ExecuteOneMore(Fresh(data), actions[..i], actions[i], txns, tag);
  }

  lemma {:induction false} SightedPrefix(data: Json, actions: seq<Action>, i: nat, txns: Txns, tag: Tag)
    requires i <= |actions| && Sighted(data, actions, txns, tag)
    ensures Sighted(data, actions[..i], txns, tag)
    decreases |actions|
  {
    if i < |actions| {
      SightedPrefix(data, actions[..|actions|-1], i, txns, tag);
      assert actions[..|actions|-1][..i] == actions[..i];
    } else {
      assert actions[..i] == actions;
    }
  }

  lemma {:induction false} BlindStep(data: Json, actions: seq<Action>, txns: Txns, tag: Tag) returns (i: nat)
    requires !Sighted(data, actions, txns, tag)
    ensures i < |actions| && CommitsBlindly(Execute(Fresh(data), actions[..i], txns, tag), actions[i], txns, tag)
  {
    i := |actions| - 1;
    if Sighted(data, actions[..i], txns, tag) { return; }
    i := BlindStep(data, actions[..i], txns, tag);
    assert actions[..|actions|-1][..i] == actions[..i];
  }

  lemma {:induction false} SightedInSameRun(data: Json, actions: seq<Action>, txns: Txns, other: Txns, tag: Tag)
    requires Sighted(data, actions, txns, tag) && SameRun(data, actions, txns, other, tag)
    ensures Sighted(data, actions, other, tag)
  {
    if actions != [] {
      var n := |actions| - 1;
      forall i | 0 <= i <= n
        ensures Execute(Fresh(data), actions[..n][..i], other, tag) ==
                Execute(Fresh(data), actions[..n][..i], txns, tag)
      {
        assert actions[..n][..i] == actions[..i];
      }
      SightedInSameRun(data, actions[..n], txns, other, tag);
      ExecutePrefix(data, actions, n, txns, tag);
      ExecutePrefix(data, actions, n, other, tag);
    }
  }

  predicate Over(client: Client) {
    !client.Idle? && !client.Pending?
  }

  lemma {:induction false} OverStaysOver(data: Json, actions: seq<Action>, c: nat, j: nat, i: nat, txns: Txns, tag: Tag)
    requires j <= i <= |actions| && Over(ClientOf(Execute(Fresh(data), actions[..j], txns, tag), c))
    ensures Over(ClientOf(Execute(Fresh(data), actions[..i], txns, tag), c))
    decreases i
  {
    hide Execute;
    if j < i {
      OverStaysOver(data, actions, c, j, i - 1, txns, tag);
      ExecutePrefix(data, actions, i - 1, txns, tag);
    }
  }

  /** The same closures, but that `c` answers `x` when it sees `seen`. */
  function Answering(txns: Txns, c: nat, seen: Json, x: Json): Txns {
    (d: nat) => if d == c then Txn(txns(c).path, v => if v == seen then Some(x) else txns(c).update(v)) else txns(d)
  }

  /** If `c` sees `seen` in this step, it stays in the race: what it answered did not matter. */
  predicate StaysInTheRace(w: World, a: Action, w': World, c: nat, seen: Json) {
    (a.Attempt? && a.client == c && ClientOf(w, c).Pending? && ExtractData(ClientOf(w, c).read) == seen)
    ==> ClientOf(w', c).Pending?
  }

  lemma AnswerDoesNotMatter(w: World, a: Action, txns: Txns, tag: Tag, c: nat, seen: Json, x: Json)
    requires StaysInTheRace(w, a, Next(w, a, txns, tag), c, seen)
    ensures Next(w, a, Answering(txns, c, seen, x), tag) == Next(w, a, txns, tag)
  {}

  lemma OnceBegunNeverIdle(w: World, a: Action, txns: Txns, tag: Tag, c: nat)
    requires !ClientOf(w, c).Idle?
    ensures !ClientOf(Next(w, a, txns, tag), c).Idle?
  {}

  /** The step in which `c` commits blindly is the one attempt that could end at `seen`, and it sees
      something else. */
  lemma StaysUntilBlind(data: Json, actions: seq<Action>, i: nat, j: nat, txns: Txns, tag: Tag, c: nat, seen: Json)
    requires i < |actions| && j < |actions|
    requires var w := Execute(Fresh(data), actions[..i], txns, tag);
             ClientOf(w, c).Pending? && ExtractData(ClientOf(w, c).read) != seen
             && Over(ClientOf(Execute(Fresh(data), actions[..i+1], txns, tag), c))
    ensures StaysInTheRace(Execute(Fresh(data), actions[..j], txns, tag), actions[j],
                           Execute(Fresh(data), actions[..j+1], txns, tag), c, seen)
  {
    hide Execute, Next;
    var u, u' := Execute(Fresh(data), actions[..j], txns, tag), Execute(Fresh(data), actions[..j+1], txns, tag);
    if j > i {
      OverStaysOver(data, actions, c, i + 1, j, txns, tag);
    } else if j < i && ClientOf(u, c).Pending? {
      ExecutePrefix(data, actions, j, txns, tag);
      OnceBegunNeverIdle(u, actions[j], txns, tag, c);
      if Over(ClientOf(u', c)) { OverStaysOver(data, actions, c, j + 1, i, txns, tag); }
    }
  }

  lemma {:induction false} AnsweringSameRun(
      data: Json, actions: seq<Action>, i: nat, j: nat, txns: Txns, tag: Tag, c: nat, seen: Json, x: Json)
    requires i < |actions| && j <= |actions|
    requires var w := Execute(Fresh(data), actions[..i], txns, tag);
             ClientOf(w, c).Pending? && ExtractData(ClientOf(w, c).read) != seen
             && Over(ClientOf(Execute(Fresh(data), actions[..i+1], txns, tag), c))
    ensures Execute(Fresh(data), actions[..j], Answering(txns, c, seen, x), tag)
         == Execute(Fresh(data), actions[..j], txns, tag)
    decreases j
  {
    if j > 0 {
      hide Execute, Next, Answering;
      AnsweringSameRun(data, actions, i, j - 1, txns, tag, c, seen, x);
      ExecutePrefix(data, actions, j - 1, txns, tag);
      ExecutePrefix(data, actions, j - 1, Answering(txns, c, seen, x), tag);
      StaysUntilBlind(data, actions, i, j - 1, txns, tag, c, seen);
      AnswerDoesNotMatter(Execute(Fresh(data), actions[..j-1], txns, tag), actions[j-1], txns, tag, c, seen, x);
    }
  }

  /** After a blind commit, closures that make the very same run come out different when done alone. */
  lemma BlindCommitIsNotSerial(data: Json, actions: seq<Action>, txns: Txns, tag: Tag, i: nat) returns (other: Txns)
    requires i < |actions| && CommitsBlindly(Execute(Fresh(data), actions[..i], txns, tag), actions[i], txns, tag)
    ensures SameRun(data, actions, txns, other, tag) && !AlwaysSerial(data, actions, other, tag)
  {
    var w, c, now := Execute(Fresh(data), actions[..i], txns, tag), actions[i].client, actions[i].now;
    var path := txns(c).path;
    ExecutePrefix(data, actions, i, txns, tag);
    var w' := Execute(Fresh(data), actions[..i+1], txns, tag);
    var x := Bool(ClientOf(w', c).stored != Bool(true));
    other := Answering(txns, c, ExtractData(GetAt(w.data, path)), x);
    forall j | 0 <= j <= |actions|
      ensures Execute(Fresh(data), actions[..j], other, tag) == Execute(Fresh(data), actions[..j], txns, tag)
    {
      AnsweringSameRun(data, actions, i, j, txns, tag, c, ExtractData(GetAt(w.data, path)), x);
    }
    ReplayOneMore(data, w.log, ByTxn(c, now), other);
    assert TransactionStores(w.data, path, other(c).update, now) == Some(x);
    GetAfterPut(w.data, path, x);
    GetAfterPut(w.data, path, ClientOf(w', c).stored);
    assert w.data == Replay(data, w.log, other) ==> w'.data != Replay(data, w'.log, other);
  }

  /** A run is serial at every moment, for all closures that make it come out the way it did, exactly if
      no attempt in it commits blindly, that is, if no two different values it compares share a tag. */
  lemma SerialIffSighted(data: Json, actions: seq<Action>, txns: Txns, tag: Tag)
    ensures (forall other | SameRun(data, actions, txns, other, tag) :: AlwaysSerial(data, actions, other, tag))
            <==> Sighted(data, actions, txns, tag)
  {
    if Sighted(data, actions, txns, tag) {
      forall other | SameRun(data, actions, txns, other, tag) ensures AlwaysSerial(data, actions, other, tag) {
        SightedInSameRun(data, actions, txns, other, tag);
        forall i | 0 <= i <= |actions| ensures Serialized(data, Execute(Fresh(data), actions[..i], other, tag), other) {
          SightedPrefix(data, actions, i, other, tag);
          SerialIfSighted(data, actions[..i], other, tag);
        }
      }
    } else {
      var i := BlindStep(data, actions, txns, tag);
      var other := BlindCommitIsNotSerial(data, actions, txns, tag, i);
    }
  }

  // ----- Lost races -----

  /** The data before the first entry of the log and after each one, as the backend held it. */
  function Held(data: Json, actions: seq<Action>, txns: Txns, tag: Tag): seq<Json> {
    if actions == [] then [data]
    else
      var before := actions[..|actions|-1];
      var w, w' := Execute(Fresh(data), before, txns, tag), Execute(Fresh(data), actions, txns, tag);
      Held(data, before, txns, tag) + if w'.log == w.log then [] else [w'.data]
  }

  function ValuesAt(held: seq<Json>, path: Path): seq<Json> {
    seq(|held|, i requires 0 <= i < |held| => GetAt(held[i], path))
  }

  /** How many of the entries from `from` up to `until` changed the value. */
  function Changes(history: seq<Json>, from: nat, until: nat): nat
    requires from <= until < |history|
    decreases until - from
  {
    if from == until then 0
    else Changes(history, from, until - 1) + if history[until-1] != history[until] then 1 else 0
  }

  /** Every conflict of a client is paid for by an entry, since it began, that changed its value. */
  ghost predicate Paid(history: seq<Json>, w: World, c: nat)
    requires |history| == |w.log| + 1
  {
    match ClientOf(w, c)
    case Pending(read, conflicts, begunAt, readAt) =>
      CommitsOf(w.log, c) == 0 && conflicts < 25
      && begunAt <= readAt <= |w.log| && read == history[readAt]
      && conflicts <= Changes(history, begunAt, readAt)
    case Exhausted(begunAt, readAt) =>
      CommitsOf(w.log, c) == 0
      && begunAt <= readAt <= |w.log|
      && 25 <= Changes(history, begunAt, readAt)
    case Idle => CommitsOf(w.log, c) == 0
    case _ => true
  }

  ghost predicate PaidInFull(held: seq<Json>, w: World, txns: Txns) {
    |held| == |w.log| + 1 && held[|w.log|] == w.data
    && forall c: nat :: Paid(ValuesAt(held, txns(c).path), w, c)
  }

  lemma {:induction false} ChangesStable(h: seq<Json>, v: Json, from: nat, until: nat)
    requires from <= until < |h|
    ensures Changes(h + [v], from, until) == Changes(h, from, until)
    decreases until
  {
    if from < until { ChangesStable(h, v, from, until - 1); }
  }

  lemma {:induction false} ChangesSplit(h: seq<Json>, from: nat, mid: nat, until: nat)
    requires from <= mid <= until < |h|
    ensures Changes(h, from, until) == Changes(h, from, mid) + Changes(h, mid, until)
    decreases until
  {
    if mid < until { ChangesSplit(h, from, mid, until - 1); }
  }

  lemma {:induction false} NoChangeSameValue(h: seq<Json>, from: nat, until: nat)
    requires from <= until < |h| && Changes(h, from, until) == 0
    ensures h[from] == h[until]
    decreases until
  {
    if from < until { NoChangeSameValue(h, from, until - 1); }
  }

  lemma EntryKeepsPaid(history: seq<Json>, v: Json, w: World, w': World, e: Entry, c: nat)
    requires |history| == |w.log| + 1 && Paid(history, w, c)
    requires w'.log == w.log + [e] && !IsBy(e, c) && ClientOf(w', c) == ClientOf(w, c)
    ensures Paid(history + [v], w', c)
  {
    CommitsOneMore(w.log, e, c);
    match ClientOf(w, c)
    case Pending(_, _, begunAt, readAt) => ChangesStable(history, v, begunAt, readAt);
    case Exhausted(begunAt, readAt) => ChangesStable(history, v, begunAt, readAt);
    case _ =>
  }

  lemma ConflictIsPaid(history: seq<Json>, w: World, c: nat)
    requires |history| == |w.log| + 1 && Paid(history, w, c) && ClientOf(w, c).Pending?
    requires ClientOf(w, c).read != history[|w.log|]
    ensures ClientOf(w, c).conflicts + 1 <= Changes(history, ClientOf(w, c).begunAt, |w.log|)
  {
    var me := ClientOf(w, c);
    if Changes(history, me.readAt, |w.log|) == 0 {
      NoChangeSameValue(history, me.readAt, |w.log|);
    }
    ChangesSplit(history, me.begunAt, me.readAt, |w.log|);
  }

  lemma EntryKeepsAllPaid(held: seq<Json>, w: World, w': World, e: Entry, txns: Txns)
    requires PaidInFull(held, w, txns) && w'.log == w.log + [e]
    requires forall c: nat :: !IsBy(e, c) ==> ClientOf(w', c) == ClientOf(w, c)
    requires forall c: nat :: IsBy(e, c) ==> ClientOf(w', c).Committed?
    ensures PaidInFull(held + [w'.data], w', txns)
  {
    forall c: nat ensures Paid(ValuesAt(held + [w'.data], txns(c).path), w', c) {
      var history, v := ValuesAt(held, txns(c).path), GetAt(w'.data, txns(c).path);
      assert Paid(history, w, c);
      assert ValuesAt(held + [w'.data], txns(c).path) == history + [v];
      if !IsBy(e, c) { EntryKeepsPaid(history, v, w, w', e, c); }
    }
  }

  lemma QuietIsPaid(held: seq<Json>, w: World, a: Action, txns: Txns, tag: Tag)
    requires PaidInFull(held, w, txns) && Next(w, a, txns, tag).log == w.log
    ensures PaidInFull(held, Next(w, a, txns, tag), txns)
  {
    hide Stored, Put, Performed;
    var w' := Next(w, a, txns, tag);
    forall c: nat ensures Paid(ValuesAt(held, txns(c).path), w', c) {
      var history := ValuesAt(held, txns(c).path);
      assert Paid(history, w, c);
      if ClientOf(w', c) != ClientOf(w, c) && ClientOf(w, c).Pending? {
        if ClientOf(w', c).Pending? || ClientOf(w', c).Exhausted? { ConflictIsPaid(history, w, c); }
      }
    }
  }

  lemma NextIsPaid(held: seq<Json>, w: World, a: Action, txns: Txns, tag: Tag)
    requires PaidInFull(held, w, txns)
    ensures var w' := Next(w, a, txns, tag);
            PaidInFull(held + if w'.log == w.log then [] else [w'.data], w', txns)
  {
    hide PaidInFull, Stored, Put, Performed;
    var w' := Next(w, a, txns, tag);
    if w'.log != w.log {
      EntryKeepsAllPaid(held, w, w', if a.Other? then ByWrite(a.op) else ByTxn(a.client, a.now), txns);
    } else {
      assert held + [] == held;
      QuietIsPaid(held, w, a, txns, tag);
    }
  }

  /** A pending client has lost fewer than 25 races, and one that gave up has lost 25; each lost race
      is paid for by a write of somebody else's, since it began, that changed the value. This needs
      nothing of the tags: different tags mean different values. */
  lemma {:induction false} ConflictsAreRealChanges(data: Json, actions: seq<Action>, txns: Txns, tag: Tag)
    ensures PaidInFull(Held(data, actions, txns, tag), Execute(Fresh(data), actions, txns, tag), txns)
  {
    if actions != [] {
      var before := actions[..|actions|-1];
      ConflictsAreRealChanges(data, before, txns, tag);
      NextIsPaid(
        Held(data, before, txns, tag), Execute(Fresh(data), before, txns, tag), actions[|actions|-1], txns, tag);
    }
  }

  // ----- Giving up -----

  /** Whoever gave up saw its value changed at least 25 times, each time by somebody else's entry; so
      fewer changes than 25 never end a transaction without an answer. */
  lemma GivesUpAfter25Changes(data: Json, actions: seq<Action>, txns: Txns, tag: Tag, c: nat)
    ensures var w, history := Execute(Fresh(data), actions, txns, tag),
                              ValuesAt(Held(data, actions, txns, tag), txns(c).path);
            |history| == |w.log| + 1
            && (ClientOf(w, c).Exhausted? ==> 25 <= Changes(history, 0, |w.log|) && CommitsOf(w.log, c) == 0)
  {
    ConflictsAreRealChanges(data, actions, txns, tag);
    var w, history := Execute(Fresh(data), actions, txns, tag), ValuesAt(Held(data, actions, txns, tag), txns(c).path);
    assert Paid(history, w, c);
    if ClientOf(w, c).Exhausted? {
      var me := ClientOf(w, c);
      ChangesSplit(history, 0, me.begunAt, |w.log|);
      ChangesSplit(history, me.begunAt, me.readAt, |w.log|);
    }
  }

  function Count(n: nat): Json {
    Num(n as real)
  }

  /** A client whose every attempt is preceded by a rival's write of another number. */
  function Races(n: nat): seq<Action> {
    if n == 0 then [Begin(0)] else Races(n - 1) + [Other(SetOp([], Count(n), 0))] + [Attempt(0, 0)]
  }

  predicate HasLost(w: World, n: nat) {
    w.data == Count(n)
    && if n < 25 then ClientOf(w, 0).Pending? && ClientOf(w, 0).conflicts == n && ClientOf(w, 0).read == Count(n)
       else ClientOf(w, 0).Exhausted?
  }

  lemma OneMoreRaceLost(w: World, n: nat, txns: Txns, tag: Tag)
    requires n < 25 && HasLost(w, n) && tag(Count(n)) != tag(Count(n + 1))
    requires txns(0).path == [] && forall v :: txns(0).update(v).Some?
    ensures HasLost(Next(Next(w, Other(SetOp([], Count(n + 1), 0)), txns, tag), Attempt(0, 0), txns, tag), n + 1)
  {
    assert Stored(w.data, [], Count(n + 1), 0) == Ok(Count(n + 1));
    var w' := Next(w, Other(SetOp([], Count(n + 1), 0)), txns, tag);
    assert w'.data == Count(n + 1) && ClientOf(w', 0) == ClientOf(w, 0) && GetAt(w'.data, []) == w'.data;
    hide Stored, Performed, Put;
  }

  /** It is still running after 24 lost races and has given up after 25. */
  lemma {:induction false} GivesUpAfter25Races(update: Json -> Option<Json>, tag: Tag, n: nat)
    requires n <= 25 && (forall v :: update(v).Some?)
    requires forall i: nat | i < 25 :: tag(Count(i)) != tag(Count(i + 1))
    ensures HasLost(Execute(Fresh(Count(0)), Races(n), Only(Txn([], update)), tag), n)
  {
    var w0, txns := Fresh(Count(0)), Only(Txn([], update));
    if n == 0 {
      ExecuteOneMore(w0, [], Begin(0), txns, tag);
      assert [] + [Begin(0)] == [Begin(0)];
    } else {
      hide HasLost, Next, Execute;
      GivesUpAfter25Races(update, tag, n - 1);
      OneMoreRaceLost(Execute(w0, Races(n - 1), txns, tag), n - 1, txns, tag);
      var rival := Other(SetOp([], Count(n), 0));
      ExecuteOneMore(w0, Races(n - 1), rival, txns, tag);
      ExecuteOneMore(w0, Races(n - 1) + [rival], Attempt(0, 0), txns, tag);
    }
  }

  // ----- What the version check buys -----

  /** Equal tags mean equal values among all that one location held. */
  ghost predicate TellsApart(tag: Tag, history: seq<Json>) {
    forall i, j | 0 <= i < |history| && 0 <= j < |history| && tag(history[i]) == tag(history[j]) ::
      ExtractData(history[i]) == ExtractData(history[j])
  }

  /** The tag tells apart the different values that the data held at a client's path during the run. */
  ghost predicate TagsTell(data: Json, actions: seq<Action>, txns: Txns, tag: Tag) {
    forall c: nat :: TellsApart(tag, ValuesAt(Held(data, actions, txns, tag), txns(c).path))
  }

  lemma TagsTellBefore(data: Json, actions: seq<Action>, txns: Txns, tag: Tag)
    requires actions != [] && TagsTell(data, actions, txns, tag)
    ensures TagsTell(data, actions[..|actions|-1], txns, tag)
  {
    var held, all := Held(data, actions[..|actions|-1], txns, tag), Held(data, actions, txns, tag);
    forall c: nat ensures TellsApart(tag, ValuesAt(held, txns(c).path)) {
      assert TellsApart(tag, ValuesAt(all, txns(c).path));
      assert forall i | 0 <= i < |held| :: ValuesAt(held, txns(c).path)[i] == ValuesAt(all, txns(c).path)[i];
    }
  }

  lemma NotBlind(held: seq<Json>, w: World, a: Action, txns: Txns, tag: Tag)
    requires PaidInFull(held, w, txns) && forall c: nat :: TellsApart(tag, ValuesAt(held, txns(c).path))
    ensures !CommitsBlindly(w, a, txns, tag)
  {
    if a.Attempt? && ClientOf(w, a.client).Pending? {
      var history := ValuesAt(held, txns(a.client).path);
      assert TellsApart(tag, history) && Paid(history, w, a.client);
      assert history[ClientOf(w, a.client).readAt] == ClientOf(w, a.client).read;
      assert history[|w.log|] == GetAt(w.data, txns(a.client).path);
    }
  }

  /** A tag that tells the values of the run apart leaves no commit blind: what a client compares was
      held when it read and is held when it writes. */
  lemma {:induction false} SightedIfTagsTell(data: Json, actions: seq<Action>, txns: Txns, tag: Tag)
    requires TagsTell(data, actions, txns, tag)
    ensures Sighted(data, actions, txns, tag)
  {
    if actions != [] {
      var before := actions[..|actions|-1];
      TagsTellBefore(data, actions, txns, tag);
      SightedIfTagsTell(data, before, txns, tag);
      ConflictsAreRealChanges(data, before, txns, tag);
      NotBlind(
        Held(data, before, txns, tag), Execute(Fresh(data), before, txns, tag), actions[|actions|-1], txns, tag);
    }
  }

  /** With a tag that tells apart the values a location held, every interleaving is equivalent to running
      its commits and writes alone, in commit order. A transaction is in that order exactly once if it
      committed, storing there what it reported, and not at all otherwise. */
  lemma Serializable(data: Json, actions: seq<Action>, txns: Txns, tag: Tag)
    requires TagsTell(data, actions, txns, tag)
    ensures Serialized(data, Execute(Fresh(data), actions, txns, tag), txns)
  {
    SightedIfTagsTell(data, actions, txns, tag);
    SerialIfSighted(data, actions, txns, tag);
  }

  // ----- Counting increments -----

  const AddOne: Json -> Option<Json> := v => Some(Num(NumberOr0(v) + 1.0))

  function NumberAt(data: Json, path: Path): real {
    NumberOr0(ExtractData(GetAt(data, path)))
  }

  predicate Elsewhere(op: WriteOp, p: Path) {
    match op
    case SetOp(path, _, _) => !PathsRelated(path, p)
    case DeleteOp(path) => !PathsRelated(path, p)
    case UpdateOp(ws, _) => forall w | w in ws :: !PathsRelated(w.path, p)
  }

  lemma PerformedElsewhere(data: Json, op: WriteOp, p: Path)
    requires Elsewhere(op, p)
    ensures GetAt(Performed(data, op), p) == GetAt(data, p)
  {
    match op
    case SetOp(path, value, now) =>
      var stored := Stored(data, path, value, now);
      if stored.Ok? { GetAfterUnrelatedSet(data, path, stored.value, p); }
    case DeleteOp(path) => GetAfterUnrelatedDelete(data, path, p);
    case UpdateOp(ws, now) => UpdateElsewhere(data, ws, now, p);
  }

  /** What a reader finds after a rival's write. */
  lemma PerformedReads(data: Json, op: WriteOp)
    ensures op.SetOp? && WellFormed(op.value) ==>
            Resolved(op.value, Some(ExtractData(GetAt(data, op.path))), op.now)
            == Ok(GetAt(Performed(data, op), op.path))
    ensures op.DeleteOp? ==> GetAt(Performed(data, op), op.path) == Null
    ensures op.UpdateOp? && PairwiseUnrelated(op.writes) && (forall w | w in op.writes :: WellFormed(w.value)) ==>
            forall i | 0 <= i < |op.writes| ::
              Resolved(op.writes[i].value, Some(ExtractData(GetAt(data, op.writes[i].path))), op.now)
              == Ok(GetAt(Performed(data, op), op.writes[i].path))
  {
    match op
    case SetOp(path, value, now) =>
      FailsIffMalformed(value, Some(ExtractData(GetAt(data, path))), now);
      if Stored(data, path, value, now).Ok? { GetAfterSet(data, path, Stored(data, path, value, now).value); }
    case DeleteOp(path) => GetAfterDelete(data, path);
    case UpdateOp(ws, now) =>
      UpdateFailsIff(data, ws, now);
      if PairwiseUnrelated(ws) && UpdateAll(data, ws, now).stored.Ok? {
        forall i | 0 <= i < |ws|
          ensures Resolved(ws[i].value, Some(ExtractData(GetAt(data, ws[i].path))), now)
               == Ok(GetAt(UpdateAll(data, ws, now).data, ws[i].path))
        {
          UpdateReads(data, ws, now, i);
        }
      }
  }

  function Commits(log: seq<Entry>): nat {
    if log == [] then 0 else Commits(log[..|log|-1]) + if log[|log|-1].ByTxn? then 1 else 0
  }

  lemma SerialCounts(d: Json, e: Entry, txns: Txns, p: Path)
    requires forall c :: txns(c) == Txn(p, AddOne)
    requires e.ByWrite? ==> Elsewhere(e.op, p)
    ensures NumberAt(Serial(d, e, txns), p) == NumberAt(d, p) + if e.ByTxn? then 1.0 else 0.0
  {
    match e
    case ByWrite(op) => PerformedElsewhere(d, op, p);
    case ByTxn(c, now) =>
      var next := Num(NumberAt(d, p) + 1.0);
      assert txns(c) == Txn(p, AddOne);
      assert Stored(d, p, next, now) == Ok(next);
      GetAfterSet(d, p, next);
  }

  lemma {:induction false} ReplayCounts(data: Json, log: seq<Entry>, txns: Txns, p: Path)
    requires forall c :: txns(c) == Txn(p, AddOne)
    requires forall e | e in log && e.ByWrite? :: Elsewhere(e.op, p)
    ensures NumberAt(Replay(data, log, txns), p) == NumberAt(data, p) + Commits(log) as real
  {
    if log != [] {
      var before := log[..|log|-1];
      assert forall x | x in before :: x in log;
      ReplayCounts(data, before, txns, p);
      SerialCounts(Replay(data, before, txns), log[|log|-1], txns, p);
    }
  }

  lemma {:induction false} LogIsFromActions(data: Json, actions: seq<Action>, txns: Txns, tag: Tag)
    ensures forall e | e in Execute(Fresh(data), actions, txns, tag).log && e.ByWrite? :: Other(e.op) in actions
  {
    if actions != [] {
      LogIsFromActions(data, actions[..|actions|-1], txns, tag);
    }
  }

  /** With a tag that tells values apart, in every interleaving of increments of one location with
      writes elsewhere each committed increment counts exactly once. */
  lemma IncrementsAreNotLost(data: Json, actions: seq<Action>, txns: Txns, tag: Tag, p: Path)
    requires TagsTell(data, actions, txns, tag)
    requires forall c :: txns(c) == Txn(p, AddOne)
    requires forall a | a in actions && a.Other? :: Elsewhere(a.op, p)
    ensures var w := Execute(Fresh(data), actions, txns, tag);
            NumberAt(w.data, p) == NumberAt(data, p) + Commits(w.log) as real
  {
    Serializable(data, actions, txns, tag);
    LogIsFromActions(data, actions, txns, tag);
    ReplayCounts(data, Execute(Fresh(data), actions, txns, tag).log, txns, p);
  }

  function Only(txn: Txn): Txns {
    (c: nat) => txn
  }

  lemma ExecuteOneMore(w: World, actions: seq<Action>, a: Action, txns: Txns, tag: Tag)
    ensures Execute(w, actions + [a], txns, tag) == Next(Execute(w, actions, txns, tag), a, txns, tag)
  {
    assert (actions + [a])[..|actions|] == actions;
  }

  /** A closure that tells `seen` from everything else. */
  function Recognise(seen: Json): Json -> Option<Json> {
    v => Some(Bool(v == seen))
  }

  lemma Interrupted(a: Json, b: Json, txns: Txns, tag: Tag)
    requires !ContainsServerValue(b) && txns(0).path == []
    ensures var w := Execute(Fresh(a), [Begin(0), Other(SetOp([], b, 0))], txns, tag);
            w == World(b, map[0 := Pending(a, 0, 0, 0)], [ByWrite(SetOp([], b, 0))])
  {
    PlainDataUnchanged(b, Some(ExtractData(a)), 0);
    ExecuteOneMore(Fresh(a), [], Begin(0), txns, tag);
    ExecuteOneMore(Fresh(a), [Begin(0)], Other(SetOp([], b, 0)), txns, tag);
    assert [] + [Begin(0)] == [Begin(0)];
    assert [Begin(0)] + [Other(SetOp([], b, 0))] == [Begin(0), Other(SetOp([], b, 0))];
  }

  lemma AttemptAfterCollision(a: Json, b: Json, w: World, tag: Tag)
    requires w.clients == map[0 := Pending(a, 0, 0, 0)] && w.data == b && tag(a) == tag(b)
    ensures var w' := Attempted(w, 0, 0, Only(Txn([], Recognise(ExtractData(a)))), tag);
            w'.data == Bool(true) && w'.log == w.log + [ByTxn(0, 0)] && ClientOf(w', 0).Committed?
  {
    assert Stored(b, [], Bool(true), 0) == Ok(Bool(true));
  }

  lemma SerialAfterCollision(a: Json, b: Json)
    requires !ContainsServerValue(b) && ExtractData(a) != ExtractData(b)
    ensures Replay(a, [ByWrite(SetOp([], b, 0)), ByTxn(0, 0)], Only(Txn([], Recognise(ExtractData(a))))) == Bool(false)
  {
    var txns := Only(Txn([], Recognise(ExtractData(a))));
    var first := ByWrite(SetOp([], b, 0));
    PlainDataUnchanged(b, Some(ExtractData(a)), 0);
    ReplayOneMore(a, [], first, txns);
    assert [] + [first] == [first] && [first] + [ByTxn(0, 0)] == [first, ByTxn(0, 0)];
    ReplayOneMore(a, [first], ByTxn(0, 0), txns);
    assert Stored(b, [], Bool(false), 0) == Ok(Bool(false));
  }

  /** A blind commit at work: if the stored value and one stored over it have one tag, a closure that
      tells them apart overwrites a change it never saw. */
  lemma CollisionLosesUpdate(a: Json, b: Json, tag: Tag)
    requires !ContainsServerValue(b)
    requires tag(a) == tag(b) && ExtractData(a) != ExtractData(b)
    ensures var txns := Only(Txn([], Recognise(ExtractData(a))));
            var w := Execute(Fresh(a), [Begin(0), Other(SetOp([], b, 0)), Attempt(0, 0)], txns, tag);
            ClientOf(w, 0).Committed? && w.data == Bool(true) && Replay(a, w.log, txns) == Bool(false)
  {
    var txns := Only(Txn([], Recognise(ExtractData(a))));
    var race := [Begin(0), Other(SetOp([], b, 0))];
    Interrupted(a, b, txns, tag);
    ExecuteOneMore(Fresh(a), race, Attempt(0, 0), txns, tag);
    assert race + [Attempt(0, 0)] == [Begin(0), Other(SetOp([], b, 0)), Attempt(0, 0)];
    AttemptAfterCollision(a, b, Execute(Fresh(a), race, txns, tag), tag);
    assert [ByWrite(SetOp([], b, 0))] + [ByTxn(0, 0)] == [ByWrite(SetOp([], b, 0)), ByTxn(0, 0)];
    SerialAfterCollision(a, b);
  }

  // ----- The loop one client runs -----

  datatype TransactionResult = TransactionResult(committed: bool, value: Json)

  datatype TransactionError = TooManyAttempts | BadPlaceholder

  /** Where a client's position in the protocol leaves its caller. */
  predicate Reports(client: Client, r: Result<TransactionResult, TransactionError>) {
    match client
    case Committed(v) => r == Ok(TransactionResult(true, v))
    case Aborted(seen) => r == Ok(TransactionResult(false, seen))
    case Rejected => r == Err(BadPlaceholder)
    case Exhausted(_, _) => r == Err(TooManyAttempts)
    case _ => false
  }

  function Others(ops: seq<WriteOp>): seq<Action> {
    seq(|ops|, i requires 0 <= i < |ops| => Other(ops[i]))
  }

  method Perform(backend: InMemoryBackend, op: WriteOp)
    modifies backend
    ensures backend.data == Performed(old(backend.data), op)
  {
    match op
    case SetOp(path, value, now) => var _ := backend.Set(path, value, now);
    case DeleteOp(path) => backend.Delete(path);
    case UpdateOp(ws, now) => var _ := backend.Update(ws, now);
  }

  /** Rivals' writes, each one atomic backend call. */
  method Interfere(backend: InMemoryBackend, ops: seq<WriteOp>, ghost start: World, ghost before: seq<Action>,
      ghost txns: Txns)
    requires Execute(start, before, txns, backend.tag).data == backend.data
    modifies backend
    ensures var w := Execute(start, before + Others(ops), txns, backend.tag);
            w.data == backend.data && w.clients == Execute(start, before, txns, backend.tag).clients
  {
    hide Execute, Performed;
    assert before + Others(ops[..0]) == before;
    for i := 0 to |ops|
      invariant var w := Execute(start, before + Others(ops[..i]), txns, backend.tag);
                w.data == backend.data && w.clients == Execute(start, before, txns, backend.tag).clients
    {
      assert before + Others(ops[..i+1]) == (before + Others(ops[..i])) + [Other(ops[i])];
      ExecuteOneMore(start, before + Others(ops[..i]), Other(ops[i]), txns, backend.tag);
      Perform(backend, ops[i]);
    }
    assert ops[..|ops|] == ops;
  }

  lemma AttemptOutcome(w: World, txn: Txn, now: nat, tag: Tag)
    requires ClientOf(w, 0).Pending?
    ensures var w' := Next(w, Attempt(0, now), Only(txn), tag);
            var me, me', current := ClientOf(w, 0), ClientOf(w', 0), GetAt(w.data, txn.path);
            var next := txn.update(ExtractData(me.read));
            if next.None? then w'.data == w.data && me' == Aborted(me.read)
            else if tag(me.read) != tag(current) then
              w'.data == w.data
              && if me.conflicts + 1 == MAX_TRANSACTION_ATTEMPTS then me'.Exhausted?
                 else me'.Pending? && me'.read == current && me'.conflicts == me.conflicts + 1
            else
              var stored := Stored(w.data, txn.path, next.value, now);
              if stored.Err? then w'.data == w.data && me' == Rejected
              else w'.data == Put(w.data, txn.path, stored.value) && me' == Client.Committed(stored.value)
  {}

  /** Besides this client's steps there are only rivals' writes. */
  predicate OneClient(schedule: seq<Action>, now: nat) {
    forall a | a in schedule :: a == Begin(0) || a == Attempt(0, now) || a.Other?
  }

  lemma OneClientGoesOn(schedule: seq<Action>, ops: seq<WriteOp>, now: nat)
    requires OneClient(schedule, now)
    ensures OneClient(schedule + [Attempt(0, now)], now)
    ensures OneClient(schedule + Others(ops), now)
    ensures ops == [] ==> schedule + Others(ops) == schedule
  {}

  lemma StoresIffWellFormed(data: Json, path: Path, value: Json, now: nat)
    ensures Stored(data, path, value, now).Ok? <==> WellFormed(value)
  {
    FailsIffMalformed(value, Some(ExtractData(GetAt(data, path))), now);
  }

  /** What a transaction that ended without giving up tells its caller: the value it stored, which is what
      a reader then finds; or the value its closure turned down; or that the closure's value was bad. */
  ghost predicate Tells(txn: Txn, data: Json, r: Result<TransactionResult, TransactionError>) {
    if r.Ok? then
      if r.value.committed then GetAt(data, txn.path) == r.value.value
      else txn.update(ExtractData(r.value.value)).None?
    else r.error.BadPlaceholder? && exists v :: txn.update(v).Some? && !WellFormed(txn.update(v).value)
  }

  lemma TotalCommits(txn: Txn, data: Json, r: Result<TransactionResult, TransactionError>)
    requires Tells(txn, data, r)
    ensures r != Err(TooManyAttempts)
    ensures (forall v :: txn.update(v).Some? && WellFormed(txn.update(v).value)) ==> r.Ok? && r.value.committed
  {}

  /** Client 0 has lost `lost` races, the last one to what it goes by now. */
  predicate Standing(w: World, data: Json, path: Path, current: VersionedValue, lost: nat, tag: Tag) {
    && w.data == data && current.value == GetAt(data, path) && current.version == Some(tag(current.value))
    && var me := ClientOf(w, 0);
       if lost < MAX_TRANSACTION_ATTEMPTS then me.Pending? && me.conflicts == lost && me.read == current.value
       else me.Exhausted?
  }

  predicate Ended(w: World, data: Json, r: Result<TransactionResult, TransactionError>) {
    w.data == data && Reports(ClientOf(w, 0), r)
  }

  /** Somebody wrote before each of the first `n` attempts. */
  predicate Disturbed(rivals: nat -> seq<WriteOp>, n: nat) {
    forall k: nat | k < n :: rivals(k) != []
  }

  lemma OutOfAttempts(w: World, data: Json, path: Path, current: VersionedValue, tag: Tag)
    requires Standing(w, data, path, current, MAX_TRANSACTION_ATTEMPTS, tag)
    ensures Ended(w, data, Err(TooManyAttempts))
  {}

  /** One turn of the loop. Without an answer the race was lost, and `latest` is what the next turn goes by. */
  method TryOnce(backend: InMemoryBackend, txn: Txn, current: VersionedValue, rivals: seq<WriteOp>, now: nat,
      ghost start: World, ghost before: seq<Action>, ghost lost: nat)
    returns (r: Option<Result<TransactionResult, TransactionError>>, latest: VersionedValue,
      ghost schedule: seq<Action>)
    requires Standing(
               Execute(start, before, Only(txn), backend.tag), backend.data, txn.path, current, lost, backend.tag)
    requires lost < MAX_TRANSACTION_ATTEMPTS && OneClient(before, now)
    modifies backend
    ensures rivals == [] ==> r.Some? && schedule == before + [Attempt(0, now)]
    ensures OneClient(schedule, now)
    ensures var w := Execute(start, schedule, Only(txn), backend.tag);
            if r.Some? then Ended(w, backend.data, r.value) && Tells(txn, backend.data, r.value)
            else Standing(w, backend.data, txn.path, latest, lost + 1, backend.tag)
  {
    hide Execute, Next, Only, GetAt, Stored, Put, OneClient, Others, WellFormed;
    ghost var txns := Only(txn);
    latest := current;
    schedule := before;
    var next := txn.update(ExtractData(current.value));
    if next.Some? {
      Interfere(backend, rivals, start, before, txns);
      schedule := schedule + Others(rivals);
    }
    OneClientGoesOn(before, rivals, now);
    OneClientGoesOn(schedule, [], now);
    AttemptOutcome(Execute(start, schedule, txns, backend.tag), txn, now, backend.tag);
    ExecuteOneMore(start, schedule, Attempt(0, now), txns, backend.tag);
    schedule := schedule + [Attempt(0, now)];
    if next.None? {
      return Some(Ok(TransactionResult(false, current.value))), latest, schedule;
    }
    ghost var attempted := backend.data;
    var outcome := backend.CompareAndSet(txn.path, next.value, current.version, now);
    match outcome
    case Err(_) =>
      StoresIffWellFormed(attempted, txn.path, next.value, now);
      return Some(Err(BadPlaceholder)), latest, schedule;
    case Ok(Committed(stored)) =>
      GetAfterPut(attempted, txn.path, stored);
      return Some(Ok(TransactionResult(true, stored))), latest, schedule;
    case Ok(Conflict(newer)) =>
      return None, newer, schedule;
  }

  /** The loop, from the first read on. */
  method Retry(backend: InMemoryBackend, txn: Txn, first: VersionedValue, rivals: nat -> seq<WriteOp>, now: nat,
      ghost start: World)
    returns (r: Result<TransactionResult, TransactionError>, ghost schedule: seq<Action>)
    requires Standing(
               Execute(start, [Begin(0)], Only(txn), backend.tag), backend.data, txn.path, first, 0, backend.tag)
    modifies backend
    ensures Ended(Execute(start, schedule, Only(txn), backend.tag), backend.data, r)
    ensures OneClient(schedule, now)
    ensures rivals(0) == [] ==> schedule == [Begin(0)] + [Attempt(0, now)]
    ensures if r == Err(TooManyAttempts) then Disturbed(rivals, MAX_TRANSACTION_ATTEMPTS)
            else Tells(txn, backend.data, r)
  {
    assert OneClient([Begin(0)], now) && Disturbed(rivals, 0);
    hide Execute, Only, GetAt, OneClient, Tells, Standing, Ended;
    var current := first;
    schedule := [Begin(0)];
    for attempt := 0 to MAX_TRANSACTION_ATTEMPTS
      invariant Standing(
        Execute(start, schedule, Only(txn), backend.tag), backend.data, txn.path, current, attempt, backend.tag)
      invariant OneClient(schedule, now) && (attempt == 0 ==> schedule == [Begin(0)])
      invariant Disturbed(rivals, attempt)
    {
      var answer;
      answer, current, schedule := TryOnce(backend, txn, current, rivals(attempt), now, start, schedule, attempt);
      if answer.Some? {
        TotalCommits(txn, backend.data, answer.value);
        return answer.value, schedule;
      }
      assert Disturbed(rivals, attempt + 1);
    }
    OutOfAttempts(Execute(start, schedule, Only(txn), backend.tag), backend.data, txn.path, current, backend.tag);
    return Err(TooManyAttempts), schedule;
  }

  /** Runs a transaction while rivals write `rivals(k)` between the k-th read and the k-th write. What
      happens is one of the protocol's interleavings, namely `schedule`, in which this client is 0. */
  method RunTransaction(backend: InMemoryBackend, txn: Txn, rivals: nat -> seq<WriteOp>, now: nat)
    returns (r: Result<TransactionResult, TransactionError>, ghost schedule: seq<Action>)
    modifies backend
    ensures var w := Execute(Fresh(old(backend.data)), schedule, Only(txn), backend.tag);
            w.data == backend.data && Reports(ClientOf(w, 0), r)
    ensures OneClient(schedule, now)
    ensures (forall k :: rivals(k) == []) ==> schedule == [Begin(0), Attempt(0, now)]
    ensures r != Err(TooManyAttempts) ==> Tells(txn, backend.data, r)
    ensures (exists k: nat | k < 25 :: rivals(k) == []) ==> r != Err(TooManyAttempts)
    ensures r == Err(TooManyAttempts) ==>
            var history := ValuesAt(Held(old(backend.data), schedule, Only(txn), backend.tag), txn.path);
            history != [] && 25 <= Changes(history, 0, |history| - 1)
    ensures (forall v :: txn.update(v).Some? && WellFormed(txn.update(v).value)) && r != Err(TooManyAttempts) ==>
            r.Ok? && r.value.committed
  {
    ghost var start := Fresh(backend.data);
    var current := backend.ReadForUpdate(txn.path);
    ExecuteOneMore(start, [], Begin(0), Only(txn), backend.tag);
    assert [] + [Begin(0)] == [Begin(0)];
    r, schedule := Retry(backend, txn, current, rivals, now, start);
    hide Execute, Held, ValuesAt, Changes, Tells, OneClient;
    if r == Err(TooManyAttempts) {
      GivesUpAfter25Changes(start.data, schedule, Only(txn), backend.tag, 0);
    } else {
      TotalCommits(txn, backend.data, r);
    }
  }
}

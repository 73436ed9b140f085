/** How any number of tasks obtain the installation id of one app. Every lock-protected block and every
    await is one atomic step; a schedule decides whose step comes next and how each await ends. */
module Registration {
  import opened Wrappers

  type Fid = string

  datatype Error = ReadFailed | LockFailed | RegisterFailed | WriteFailed | ReleaseFailed

  type Answer = Result<Fid, Error>

  /** Where a task stands in `ensure_entry`. */
  datatype Position =
    | Check
    | WantLoad
    | Reading
    | ReadDone(found: Result<Option<Fid>, Error>)
    | Publishing(loaded: Fid)
    | WantRegister
    | Acquiring
    | Refused
    | Registering
    | RegisterDone(answer: Answer)
    | Persisting(obtained: Fid)
    | Releasing(persisted: Fid)
    | ReleasingAfter(result: Answer)
    | LockLost
    | Finished(result: Answer)

  /** The cached state the tasks share, the store behind it, and what the outside has seen: the
      registrations the server accepted and the ids announced to listeners. */
  datatype Shared = Shared(
    loaded: bool, initializing: bool, entry: Option<Fid>,
    store: Option<Fid>, registered: seq<Fid>, announced: seq<Fid>)

  /** How an await ends: whether it succeeds, whether the lock is granted, what id the server returns. */
  datatype Outcome = Outcome(ok: bool, granted: bool, fid: Fid)

  // ----- One step -----

  function Act(s: Shared, p: Position, o: Outcome): (Shared, Position) {
    match p
    case Check =>
      if s.entry.Some? then (s, Finished(Ok(s.entry.value)))
      else if s.initializing then (s, Check)
      else (s, if s.loaded then WantRegister else WantLoad)
    case WantLoad =>
      if s.entry.Some? || s.initializing then (s, Check)
      else (s.(loaded := true, initializing := true), Reading)
    case Reading => (s, ReadDone(if o.ok then Ok(s.store) else Err(ReadFailed)))
    case ReadDone(found) =>
      (s.(initializing := false),
       if s.entry.Some? then Finished(Ok(s.entry.value))
       else if found.Err? then Finished(Err(found.error))
       else if found.value.Some? then Publishing(found.value.value)
       else Check)
    case Publishing(f) => (s.(entry := Some(f)), Finished(Ok(f)))
    case WantRegister =>
      if s.entry.Some? || s.initializing then (s, Check)
      else (s.(initializing := true), Acquiring)
    case Acquiring => (s, if !o.ok then LockLost else if o.granted then Registering else Refused)
    case Refused => (s.(initializing := false), Check)
    case Registering =>
      if o.ok then (s.(registered := s.registered + [o.fid]), RegisterDone(Ok(o.fid)))
      else (s, RegisterDone(Err(RegisterFailed)))
    case RegisterDone(answer) =>
      if s.entry.Some? then (s.(initializing := false), ReleasingAfter(Ok(s.entry.value)))
      else if answer.Err? then (s.(initializing := false), ReleasingAfter(answer))
      else (s.(initializing := false, entry := Some(answer.value), loaded := true), Persisting(answer.value))
    case Persisting(f) =>
      if o.ok then (s.(store := Some(f)), Releasing(f)) else (s, ReleasingAfter(Err(WriteFailed)))
    case Releasing(f) =>
      if o.ok then (s.(announced := s.announced + [f]), Finished(Ok(f))) else (s, Finished(Err(ReleaseFailed)))
    case ReleasingAfter(result) => (s, Finished(result))
    case LockLost => (s, p)
    case Finished(_) => (s, p)
  }

  // ----- Any number of tasks -----

  datatype World = World(shared: Shared, tasks: map<nat, Position>)

  datatype Turn = Turn(task: nat, outcome: Outcome)

  function PositionOf(w: World, t: nat): Position {
    if t in w.tasks then w.tasks[t] else Check
  }

  function Next(w: World, turn: Turn): World {
    var (shared, p) := Act(w.shared, PositionOf(w, turn.task), turn.outcome);
    World(shared, w.tasks[turn.task := p])
  }

  function Execute(w: World, turns: seq<Turn>): World {
    if turns == [] then w else Next(Execute(w, turns[..|turns|-1]), turns[|turns|-1])
  }

  /** A process that has just started over a store; every task is about to look. */
  function Fresh(store: Option<Fid>): World {
    World(Shared(false, false, None, store, [], []), map[0 := Check])
  }

  lemma ExecuteOneMore(w: World, turns: seq<Turn>, turn: Turn)
    ensures Execute(w, turns + [turn]) == Next(Execute(w, turns), turn)
  {
    assert (turns + [turn])[..|turns|] == turns;
  }

  lemma {:induction false} ExecuteAppend(w: World, first: seq<Turn>, second: seq<Turn>)
    ensures Execute(w, first + second) == Execute(Execute(w, first), second)
  {
    if second == [] {
      assert first + second == first;
    } else {
      var n := |second| - 1;
      ExecuteAppend(w, first, second[..n]);
      assert first + second == (first + second[..n]) + [second[n]];
      ExecuteOneMore(w, first + second[..n], second[n]);
    }
  }

  // ----- The guarded section -----

  /** A task here raised the flag and has yet to lower it. */
  predicate InSection(p: Position) {
    p.Reading? || p.ReadDone? || p.Acquiring? || p.Refused? || p.Registering? || p.RegisterDone?
  }

  /** The flag is up on this task's account. */
  predicate Owns(p: Position) {
    InSection(p) || p.LockLost?
  }

  /** `o` is the only task the flag is up for, and the flag is up only for a task. */
  ghost predicate OwnedBy(w: World, o: Option<nat>) {
    && (forall t: nat :: Owns(PositionOf(w, t)) <==> o == Some(t))
    && (w.shared.initializing <==> o.Some?)
  }

  lemma OwnedByStep(w: World, turn: Turn, o: Option<nat>) returns (o': Option<nat>)
    requires OwnedBy(w, o)
    ensures OwnedBy(Next(w, turn), o')
  {
    var (shared, p) := Act(w.shared, PositionOf(w, turn.task), turn.outcome);
    o' := if Owns(p) then Some(turn.task) else if o == Some(turn.task) then None else o;
  }

  lemma {:induction false} OwnedRun(store: Option<Fid>, turns: seq<Turn>) returns (o: Option<nat>)
    ensures OwnedBy(Execute(Fresh(store), turns), o)
  {
    if turns == [] {
      o := None;
    } else {
      o := OwnedRun(store, turns[..|turns|-1]);
      o := OwnedByStep(Execute(Fresh(store), turns[..|turns|-1]), turns[|turns|-1], o);
    }
  }

  /** Whatever the store held and however the tasks interleave: never two tasks in the section, and the
      flag is up exactly while one is inside or after one failed to take the registration lock. */
  lemma SectionIsExclusive(store: Option<Fid>, turns: seq<Turn>)
    ensures var w := Execute(Fresh(store), turns);
            && (forall s: nat, t: nat :: InSection(PositionOf(w, s)) && InSection(PositionOf(w, t)) ==> s == t)
            && (w.shared.initializing <==> exists t: nat :: Owns(PositionOf(w, t)))
  {
    var o := OwnedRun(store, turns);
    if o.Some? { assert Owns(PositionOf(Execute(Fresh(store), turns), o.value)); }
  }

  // ----- Agreement -----

  /** What a task's position says once the store started out empty. */
  predicate Consistent(s: Shared, p: Position) {
    match p
    case Reading => s.entry.None? && s.registered == []
    case ReadDone(found) => s.entry.None? && s.registered == [] && (found.Ok? ==> found.value.None?)
    case Publishing(_) => false
    case Acquiring => s.entry.None? && s.registered == []
    case Refused => s.entry.None? && s.registered == []
    case Registering => s.entry.None? && s.registered == []
    case RegisterDone(answer) => s.entry.None? && s.registered == if answer.Ok? then [answer.value] else []
    case Persisting(f) => s.entry == Some(f)
    case Releasing(f) => s.entry == Some(f) && s.store == Some(f)
    case ReleasingAfter(result) => result.Ok? ==> s.entry == Some(result.value)
    case LockLost => s.entry.None? && s.registered == []
    case Finished(result) => result.Ok? ==> s.entry == Some(result.value)
    case _ => true
  }

  /** A task here may still announce its registration. */
  predicate MayAnnounce(p: Position) {
    p.Persisting? || p.Releasing?
  }

  /** `o` owns the flag, `a` is the only task that may still announce. */
  ghost predicate Agreeing(w: World, o: Option<nat>, a: Option<nat>) {
    var s := w.shared;
    && OwnedBy(w, o)
    && (forall t: nat :: Consistent(s, PositionOf(w, t)))
    && (forall t: nat :: MayAnnounce(PositionOf(w, t)) ==> a == Some(t))
    && (a.Some? ==> s.entry.Some? && s.announced == [])
    && (s.announced == [] || (s.entry.Some? && s.announced == [s.entry.value]))
    && (s.store.Some? ==> s.store == s.entry)
    && (s.announced != [] ==> s.store.Some?)
    && (s.entry.Some? ==> s.registered == [s.entry.value] && s.loaded && o.None?)
    && (s.entry.None? && s.registered != [] ==> o.Some?)
  }

  lemma BystanderStaysConsistent(w: World, turn: Turn, o: Option<nat>, a: Option<nat>, t: nat)
    requires Agreeing(w, o, a) && t != turn.task
    ensures Consistent(Next(w, turn).shared, PositionOf(w, t))
  {
    var p, q := PositionOf(w, turn.task), PositionOf(w, t);
    assert Owns(p) && Owns(q) ==> turn.task == t;
    assert Consistent(w.shared, p) && Consistent(w.shared, q);
  }

  lemma MoverBecomesConsistent(w: World, turn: Turn, o: Option<nat>, a: Option<nat>)
    requires Agreeing(w, o, a)
    ensures var (s, p) := Act(w.shared, PositionOf(w, turn.task), turn.outcome);
            Consistent(s, p)
            && (s.announced == [] || (s.entry.Some? && s.announced == [s.entry.value]))
            && (s.store.Some? ==> s.store == s.entry)
            && (s.announced != [] ==> s.store.Some?)
            && (s.entry.Some? ==> s.registered == [s.entry.value] && s.loaded)
  {
    assert Consistent(w.shared, PositionOf(w, turn.task));
    assert Owns(PositionOf(w, turn.task)) ==> o == Some(turn.task);
    if o.Some? { assert Consistent(w.shared, PositionOf(w, o.value)); }
  }

  lemma AgreeingStep(w: World, turn: Turn, o: Option<nat>, a: Option<nat>) returns (o': Option<nat>, a': Option<nat>)
    requires Agreeing(w, o, a)
    ensures Agreeing(Next(w, turn), o', a')
  {
    var (s, p) := Act(w.shared, PositionOf(w, turn.task), turn.outcome);
    var w' := Next(w, turn);
    o' := OwnedByStep(w, turn, o);
    a' := if MayAnnounce(p) then Some(turn.task) else if a == Some(turn.task) then None else a;
    MoverBecomesConsistent(w, turn, o, a);
    forall t: nat ensures Consistent(s, PositionOf(w', t)) {
      if t != turn.task { BystanderStaysConsistent(w, turn, o, a, t); }
    }
    assert Owns(p) ==> o' == Some(turn.task);
  }

  lemma {:induction false} AgreeingRun(turns: seq<Turn>) returns (o: Option<nat>, a: Option<nat>)
    ensures Agreeing(Execute(Fresh(None), turns), o, a)
  {
    if turns == [] {
      o, a := None, None;
    } else {
      o, a := AgreeingRun(turns[..|turns|-1]);
      o, a := AgreeingStep(Execute(Fresh(None), turns[..|turns|-1]), turns[|turns|-1], o, a);
    }
  }

  predicate Succeeded(w: World, t: nat, f: Fid) {
    PositionOf(w, t) == Finished(Ok(f))
  }

  /** One id for the whole process: at most one registration and one announcement, and everything that
      succeeded, was stored or was announced is that id. */
  ghost predicate OneIdentity(w: World) {
    var s := w.shared;
    && |s.registered| <= 1 && |s.announced| <= 1
    && (forall t: nat, f :: Succeeded(w, t, f) ==> s.registered == [f] && s.entry == Some(f))
    && (forall f | f in s.announced :: s.registered == [f] && s.store == Some(f))
    && (s.store.Some? ==> s.registered == [s.store.value])
  }

  lemma RegistrationAgrees(turns: seq<Turn>)
    ensures OneIdentity(Execute(Fresh(None), turns))
  {
    var w := Execute(Fresh(None), turns);
    var o, a := AgreeingRun(turns);
    if w.shared.entry.None? && w.shared.registered != [] {
      assert Consistent(w.shared, PositionOf(w, o.value));
    }
  }

  // ----- Running alone -----

  function Walk(s: Shared, p: Position, o: Outcome, n: nat): (Shared, Position)
    decreases n
  {
    if n == 0 then (s, p)
    else var (s', p') := Act(s, p, o); Walk(s', p', o, n - 1)
  }

  function Alone(turn: Turn, n: nat): seq<Turn> {
    if n == 0 then [] else [turn] + Alone(turn, n - 1)
  }

  lemma {:induction false} AloneIsAWalk(w: World, turn: Turn, n: nat)
    ensures var (s, p) := Walk(w.shared, PositionOf(w, turn.task), turn.outcome, n);
            n > 0 ==> Execute(w, Alone(turn, n)) == World(s, w.tasks[turn.task := p])
    decreases n
  {
    if n > 0 {
      ExecuteOneMore(w, [], turn);
      assert [] + [turn] == [turn];
      ExecuteAppend(w, [turn], Alone(turn, n - 1));
      AloneIsAWalk(Next(w, turn), turn, n - 1);
      if n == 1 { assert [turn] + Alone(turn, 0) == [turn]; }
    }
  }

  function Smoothly(t: nat, f: Fid): Turn {
    Turn(t, Outcome(true, true, f))
  }

  lemma SoloRegisters(w: World, t: nat, f: Fid)
    requires w.shared.loaded && !w.shared.initializing && w.shared.entry.None? && PositionOf(w, t) == Check
    ensures Execute(w, Alone(Smoothly(t, f), 7)) ==
            World(w.shared.(entry := Some(f), store := Some(f),
                    registered := w.shared.registered + [f], announced := w.shared.announced + [f]),
                  w.tasks[t := Finished(Ok(f))])
  {
    var turn := Smoothly(t, f);
    AloneIsAWalk(w, turn, 7);
    var s, o := w.shared.(initializing := true), turn.outcome;
    var s' := s.(registered := s.registered + [f]);
    assert Walk(w.shared, Check, o, 7) == Walk(w.shared, WantRegister, o, 6) == Walk(s, Acquiring, o, 5);
    assert Walk(s, Acquiring, o, 5) == Walk(s, Registering, o, 4) == Walk(s', RegisterDone(Ok(f)), o, 3);
    SoloKeeps(s', f, o);
  }

  lemma SoloKeeps(s: Shared, f: Fid, o: Outcome)
    requires s.entry.None? && o.ok
    ensures Walk(s, RegisterDone(Ok(f)), o, 3) ==
            (s.(initializing := false, loaded := true, entry := Some(f), store := Some(f),
                announced := s.announced + [f]),
             Finished(Ok(f)))
  {
    var s' := s.(initializing := false, loaded := true, entry := Some(f));
    assert Walk(s, RegisterDone(Ok(f)), o, 3) == Walk(s', Persisting(f), o, 2);
  }

  lemma SoloLoads(w: World, t: nat, f: Fid)
    requires !w.shared.loaded && !w.shared.initializing && w.shared.entry.None? && PositionOf(w, t) == Check
    ensures Execute(w, Alone(Smoothly(t, f), 4)) ==
            World(w.shared.(loaded := true),
                  w.tasks[t := if w.shared.store.Some? then Publishing(w.shared.store.value) else Check])
  {
    AloneIsAWalk(w, Smoothly(t, f), 4);
    var s, o := w.shared.(loaded := true, initializing := true), Smoothly(t, f).outcome;
    assert Walk(w.shared, Check, o, 4) == Walk(w.shared, WantLoad, o, 3) == Walk(s, Reading, o, 2);
  }

  // ----- One stumble -----

  /** All goes smoothly but for what comes after the first `k` steps; then `m` smooth steps more. */
  function Stumbling(t: nat, f: Fid, k: nat, o: Outcome, m: nat): seq<Turn> {
    Alone(Smoothly(t, f), k) + [Turn(t, o)] + Alone(Smoothly(t, f), m)
  }

  lemma StumblingIsAWalk(w: World, t: nat, f: Fid, k: nat, o: Outcome, m: nat)
    requires k > 0
    ensures var (s, p) := Walk(w.shared, PositionOf(w, t), Outcome(true, true, f), k);
            var (s', p') := Act(s, p, o);
            var (s'', p'') := Walk(s', p', Outcome(true, true, f), m);
            Execute(w, Stumbling(t, f, k, o, m)) == World(s'', w.tasks[t := p''])
  {
    hide Act;
    var first := Alone(Smoothly(t, f), k);
    AloneIsAWalk(w, Smoothly(t, f), k);
    ExecuteOneMore(w, first, Turn(t, o));
    ExecuteAppend(w, first + [Turn(t, o)], Alone(Smoothly(t, f), m));
    AloneIsAWalk(Execute(w, first + [Turn(t, o)]), Smoothly(t, f), m);
    if m == 0 { assert Execute(Execute(w, first + [Turn(t, o)]), []) == Execute(w, first + [Turn(t, o)]); }
  }

  /** A failed read of the store is reported, and counts as a load: the next caller registers. */
  lemma FailedRead(w: World, t: nat, f: Fid, granted: bool)
    requires !w.shared.loaded && !w.shared.initializing && w.shared.entry.None? && PositionOf(w, t) == Check
    ensures Execute(w, Stumbling(t, f, 2, Outcome(false, granted, f), 1)) ==
            World(w.shared.(loaded := true), w.tasks[t := Finished(Err(ReadFailed))])
  {
    StumblingIsAWalk(w, t, f, 2, Outcome(false, granted, f), 1);
    var o := Outcome(true, true, f);
    assert Walk(w.shared, Check, o, 2) == Walk(w.shared, WantLoad, o, 1);
  }

  lemma UpToTheLock(s: Shared, f: Fid, n: nat)
    requires s.loaded && !s.initializing && s.entry.None?
    ensures Walk(s, Check, Outcome(true, true, f), n + 2) ==
            Walk(s.(initializing := true), Acquiring, Outcome(true, true, f), n)
  {
    assert Walk(s, Check, Outcome(true, true, f), n + 2) == Walk(s, WantRegister, Outcome(true, true, f), n + 1);
  }

  /** A lock held by somebody else sends the caller back; an error while taking it is reported and leaves
      the flag up. */
  lemma LockNotTaken(w: World, t: nat, f: Fid)
    requires w.shared.loaded && !w.shared.initializing && w.shared.entry.None? && PositionOf(w, t) == Check
    ensures Execute(w, Stumbling(t, f, 2, Outcome(true, false, f), 1)) == World(w.shared, w.tasks[t := Check])
    ensures Execute(w, Stumbling(t, f, 2, Outcome(false, true, f), 0)) ==
            World(w.shared.(initializing := true), w.tasks[t := LockLost])
  {
    UpToTheLock(w.shared, f, 0);
    StumblingIsAWalk(w, t, f, 2, Outcome(true, false, f), 1);
    StumblingIsAWalk(w, t, f, 2, Outcome(false, true, f), 0);
  }

  /** A failed registration is reported and leaves nothing behind. */
  lemma FailedRegistration(w: World, t: nat, f: Fid, granted: bool)
    requires w.shared.loaded && !w.shared.initializing && w.shared.entry.None? && PositionOf(w, t) == Check
    ensures Execute(w, Stumbling(t, f, 3, Outcome(false, granted, f), 2)) ==
            World(w.shared, w.tasks[t := Finished(Err(RegisterFailed))])
  {
    UpToTheLock(w.shared, f, 1);
    StumblingIsAWalk(w, t, f, 3, Outcome(false, granted, f), 2);
    var o, s := Outcome(true, true, f), w.shared.(initializing := true);
    assert Walk(s, Acquiring, o, 1) == (s, Registering);
    var failed: Answer := Err(RegisterFailed);
    assert Walk(s, RegisterDone(failed), o, 2) == Walk(w.shared, ReleasingAfter(failed), o, 1);
  }

  lemma UpToTheWrite(s: Shared, f: Fid, n: nat)
    requires s.loaded && !s.initializing && s.entry.None?
    ensures Walk(s, Check, Outcome(true, true, f), n + 5) ==
            Walk(s.(entry := Some(f), registered := s.registered + [f]), Persisting(f), Outcome(true, true, f), n)
  {
    UpToTheLock(s, f, n + 3);
    var o, raised := Outcome(true, true, f), s.(initializing := true);
    var called := raised.(registered := s.registered + [f]);
    assert Walk(raised, Acquiring, o, n + 3) == Walk(raised, Registering, o, n + 2);
    assert Walk(raised, Registering, o, n + 2) == Walk(called, RegisterDone(Ok(f)), o, n + 1);
  }

  /** A failed write is reported although the id is entered. */
  lemma FailedWrite(w: World, t: nat, f: Fid, granted: bool)
    requires w.shared.loaded && !w.shared.initializing && w.shared.entry.None? && PositionOf(w, t) == Check
    ensures Execute(w, Stumbling(t, f, 5, Outcome(false, granted, f), 1)) ==
            World(w.shared.(entry := Some(f), registered := w.shared.registered + [f]),
                  w.tasks[t := Finished(Err(WriteFailed))])
  {
    UpToTheWrite(w.shared, f, 0);
    StumblingIsAWalk(w, t, f, 5, Outcome(false, granted, f), 1);
    hide Execute, Stumbling;
  }

  /** A failed release is reported although the id is stored, which is not announced then. */
  lemma FailedRelease(w: World, t: nat, f: Fid, granted: bool)
    requires w.shared.loaded && !w.shared.initializing && w.shared.entry.None? && PositionOf(w, t) == Check
    ensures Execute(w, Stumbling(t, f, 6, Outcome(false, granted, f), 0)) ==
            World(w.shared.(entry := Some(f), registered := w.shared.registered + [f], store := Some(f)),
                  w.tasks[t := Finished(Err(ReleaseFailed))])
  {
    UpToTheWrite(w.shared, f, 1);
    StumblingIsAWalk(w, t, f, 6, Outcome(false, granted, f), 0);
    hide Execute, Stumbling;
  }

  /** An announced id is the one the next process finds, with no second registration. */
  lemma AnnouncedSurvivesRestart(turns: seq<Turn>, t: nat, f: Fid)
    requires f in Execute(Fresh(None), turns).shared.announced
    ensures var restarted := Fresh(Execute(Fresh(None), turns).shared.store);
            exists alone ::
              Succeeded(Execute(restarted, alone), t, f) && Execute(restarted, alone).shared.registered == []
  {
    RegistrationAgrees(turns);
    var w, turn := Fresh(Execute(Fresh(None), turns).shared.store), Smoothly(t, f);
    SoloLoads(w, t, f);
    ExecuteOneMore(w, Alone(turn, 4), turn);
    assert Succeeded(Execute(w, Alone(turn, 4) + [turn]), t, f);
  }

  // ----- A store that already holds an id -----

  ghost predicate SameId(w: World) {
    forall s: nat, t: nat, f, g :: Succeeded(w, s, f) && Succeeded(w, t, g) ==> f == g
  }

  /** The flag is lowered before the loaded id is published, so a second task may register another one
      in between. */
  lemma LoadRacesRegistration(f: Fid, g: Fid) returns (turns: seq<Turn>)
    ensures var w := Execute(Fresh(Some(f)), turns);
            Succeeded(w, 0, f) && Succeeded(w, 1, g) && w.shared.entry == Some(f) && w.shared.store == Some(g)
  {
    var w, load, register := Fresh(Some(f)), Alone(Smoothly(0, f), 4), Alone(Smoothly(1, g), 7);
    SoloLoads(w, 0, f);
    SoloRegisters(Execute(w, load), 1, g);
    ExecuteAppend(w, load, register);
    ExecuteOneMore(w, load + register, Smoothly(0, f));
    turns := load + register + [Smoothly(0, f)];
  }

  /** All interleavings agree on the id exactly when the store was empty to begin with. */
  lemma AgreementIff(store: Option<Fid>)
    ensures (forall turns :: SameId(Execute(Fresh(store), turns))) <==> store.None?
  {
    if store.None? {
      forall turns ensures SameId(Execute(Fresh(store), turns)) { RegistrationAgrees(turns); }
    } else {
      var other := store.value + "0";
      var turns := LoadRacesRegistration(store.value, other);
      assert !SameId(Execute(Fresh(store), turns));
    }
  }

  // ----- A caller can succeed unless the lock was lost -----

  ghost predicate CanSucceed(w: World, t: nat) {
    exists turns, f :: Succeeded(Execute(w, turns), t, f)
  }

  /** Nobody will publish an id, and the flag is up for good on account of `l`. */
  ghost predicate Wedged(w: World, l: nat) {
    && w.shared.entry.None? && PositionOf(w, l).LockLost? && OwnedBy(w, Some(l))
    && forall t: nat :: !PositionOf(w, t).Publishing?
  }

  lemma {:induction false} WedgedForever(w: World, turns: seq<Turn>, l: nat, t: nat)
    requires Wedged(w, l) && PositionOf(w, t) == Check
    ensures Wedged(Execute(w, turns), l) && PositionOf(Execute(w, turns), t) == Check
  {
    if turns != [] {
      var before, turn := Execute(w, turns[..|turns|-1]), turns[|turns|-1];
      WedgedForever(w, turns[..|turns|-1], l, t);
      assert Owns(PositionOf(before, turn.task)) ==> turn.task == l;
      var o := OwnedByStep(before, turn, Some(l));
      assert Owns(PositionOf(Next(before, turn), l));
    }
  }

  lemma SucceedsOnceEntered(w: World, t: nat)
    requires w.shared.entry.Some? && PositionOf(w, t) == Check
    ensures CanSucceed(w, t)
  {
    AloneIsAWalk(w, Smoothly(t, ""), 1);
    assert Succeeded(Execute(w, Alone(Smoothly(t, ""), 1)), t, w.shared.entry.value);
  }

  lemma SucceedsByLoading(w: World, t: nat)
    requires !w.shared.loaded && !w.shared.initializing && w.shared.entry.None? && PositionOf(w, t) == Check
    ensures CanSucceed(w, t)
  {
    var turn := Smoothly(t, "");
    SoloLoads(w, t, "");
    var parked := Execute(w, Alone(turn, 4));
    if w.shared.store.Some? {
      ExecuteOneMore(w, Alone(turn, 4), turn);
      assert Succeeded(Execute(w, Alone(turn, 4) + [turn]), t, w.shared.store.value);
    } else {
      SoloRegisters(parked, t, "");
      ExecuteAppend(w, Alone(turn, 4), Alone(turn, 7));
      assert Succeeded(Execute(w, Alone(turn, 4) + Alone(turn, 7)), t, "");
    }
  }

  lemma SucceedsWhenFree(w: World, t: nat)
    requires OwnedBy(w, None) && PositionOf(w, t) == Check
    ensures CanSucceed(w, t)
  {
    if w.shared.entry.Some? {
      SucceedsOnceEntered(w, t);
    } else if w.shared.loaded {
      SoloRegisters(w, t, "");
      assert Succeeded(Execute(w, Alone(Smoothly(t, ""), 7)), t, "");
    } else {
      SucceedsByLoading(w, t);
    }
  }

  lemma SucceedsOneStepEarlier(w: World, turn: Turn, t: nat)
    requires CanSucceed(Next(w, turn), t)
    ensures CanSucceed(w, t)
  {
    hide Next;
    var turns, f :| Succeeded(Execute(Next(w, turn), turns), t, f);
    ExecuteOneMore(w, [], turn);
    ExecuteAppend(w, [] + [turn], turns);
    assert Succeeded(Execute(w, [] + [turn] + turns), t, f);
  }

  /** An await of the section is under way, so its owner needs two steps to leave. */
  predicate Awaits(p: Position) {
    p.Reading? || p.Acquiring? || p.Registering?
  }

  lemma {:induction false} SucceedsAfterTheOwner(w: World, h: nat, t: nat, steps: nat)
    requires OwnedBy(w, Some(h)) && InSection(PositionOf(w, h)) && PositionOf(w, t) == Check
    requires steps == if Awaits(PositionOf(w, h)) then 1 else 0
    ensures CanSucceed(w, t)
    decreases steps
  {
    hide CanSucceed;
    var turn := Turn(h, Outcome(true, false, ""));
    var w' := Next(w, turn);
    var o := OwnedByStep(w, turn, Some(h));
    assert Owns(PositionOf(w', h)) <==> o == Some(h);
    assert PositionOf(w', t) == Check;
    if InSection(PositionOf(w', h)) {
      SucceedsAfterTheOwner(w', h, t, 0);
    } else {
      SucceedsWhenFree(w', t);
    }
    SucceedsOneStepEarlier(w, turn, t);
  }

  /** Failed reads, registrations and writes leave the way open for the next caller. Only an error from
      taking the registration lock closes it, and then for good, unless an id has been entered or is about
      to be published. */
  lemma CanSucceedIff(store: Option<Fid>, turns: seq<Turn>, t: nat)
    requires PositionOf(Execute(Fresh(store), turns), t) == Check
    ensures var w := Execute(Fresh(store), turns);
            CanSucceed(w, t) <==>
            w.shared.entry.Some? || (exists s: nat :: PositionOf(w, s).Publishing?)
            || forall s: nat :: !PositionOf(w, s).LockLost?
  {
    var w := Execute(Fresh(store), turns);
    var o := OwnedRun(store, turns);
    if w.shared.entry.Some? {
      SucceedsOnceEntered(w, t);
    } else if s: nat :| PositionOf(w, s).Publishing? {
      var turn := Turn(s, Outcome(true, true, ""));
      SucceedsOnceEntered(Next(w, turn), t);
      SucceedsOneStepEarlier(w, turn, t);
    } else if l: nat :| PositionOf(w, l).LockLost? {
      assert Owns(PositionOf(w, l));
      forall more, f ensures !Succeeded(Execute(w, more), t, f) {
        WedgedForever(w, more, l, t);
      }
    } else if o.None? {
      SucceedsWhenFree(w, t);
    } else {
      assert Owns(PositionOf(w, o.value));
      SucceedsAfterTheOwner(w, o.value, t, if Awaits(PositionOf(w, o.value)) then 1 else 0);
    }
  }

  // ----- The loop one task runs -----

  function OwnTurns(turns: seq<Turn>): nat {
    if turns == [] then 0 else OwnTurns(turns[..|turns|-1]) + if turns[|turns|-1].task == 0 then 1 else 0
  }

  lemma OwnOneMore(turns: seq<Turn>, turn: Turn)
    ensures OwnTurns(turns + [turn]) == OwnTurns(turns) + if turn.task == 0 then 1 else 0
  {
    assert (turns + [turn])[..|turns|] == turns;
  }

  /** The history goes on with a step of task 0 that ends as `o` says. */
  predicate Continues(earlier: seq<Turn>, o: Outcome, later: seq<Turn>) {
    earlier + [Turn(0, o)] <= later
  }

  lemma ContinuesOn(a: seq<Turn>, o: Outcome, b: seq<Turn>, o': Outcome, c: seq<Turn>)
    requires Continues(a, o, b) && Continues(b, o', c)
    ensures Continues(a, o, c) && |a| < |b| < |c| && b <= c
  {}

  lemma {:induction false} OwnTurnsGrow(a: seq<Turn>, o: Outcome, c: seq<Turn>)
    requires Continues(a, o, c)
    ensures OwnTurns(a) < OwnTurns(c) && a <= c
    decreases |c|
  {
    if |c| == |a| + 1 {
      assert c == a + [Turn(0, o)];
      OwnOneMore(a, Turn(0, o));
    } else {
      OwnTurnsGrow(a, o, c[..|c|-1]);
    }
  }

  lemma RivalStep(start: World, turns: seq<Turn>, seen: Shared, rivals: map<nat, Position>, own: Position, turn: Turn)
    requires Execute(start, turns) == World(seen, rivals[0 := own]) && turn.task != 0
    ensures var (s, p) := Act(seen, if turn.task in rivals then rivals[turn.task] else Check, turn.outcome);
            Execute(start, turns + [turn]) == World(s, rivals[turn.task := p][0 := own])
  {
    hide Act;
    ExecuteOneMore(start, turns, turn);
    var p := Next(World(seen, rivals[0 := own]), turn).tasks[turn.task];
    assert rivals[0 := own][turn.task := p] == rivals[turn.task := p][0 := own];
  }

  lemma OwnStep(start: World, turns: seq<Turn>, seen: Shared, rivals: map<nat, Position>, own: Position, o: Outcome)
    requires Execute(start, turns) == World(seen, rivals[0 := own])
    ensures Execute(start, turns + [Turn(0, o)]) == World(Act(seen, own, o).0, rivals[0 := Act(seen, own, o).1])
  {
    hide Act;
    ExecuteOneMore(start, turns, Turn(0, o));
    assert rivals[0 := own][0 := Act(seen, own, o).1] == rivals[0 := Act(seen, own, o).1];
  }

  /** `others(k)` is what the rivals do while task 0 pauses for the k-th time. */
  ghost predicate NeverTask0(others: nat -> seq<Turn>) {
    forall k, turn | turn in others(k) :: turn.task != 0
  }

  /** What a task that stops at `p` returns; nothing while it still looks. */
  predicate Returns(p: Position, r: Option<Answer>) {
    match p
    case Finished(answer) => r == Some(answer)
    case LockLost => r == Some(Err(LockFailed))
    case Check => r == None
    case _ => false
  }

  /** What a load ends with if `entry` is there when it finishes, nothing if the task is to look again. */
  function AfterLoad(entry: Option<Fid>, found: Result<Option<Fid>, Error>): Option<Answer> {
    if entry.Some? then Some(Ok(entry.value))
    else if found.Err? then Some(Err(found.error))
    else if found.value.Some? then Some(Ok(found.value.value))
    else None
  }

  function Read(store: Option<Fid>, o: Outcome): Result<Option<Fid>, Error> {
    if o.ok then Ok(store) else Err(ReadFailed)
  }

  function Called(o: Outcome): Answer {
    if o.ok then Ok(o.fid) else Err(RegisterFailed)
  }

  /** What keeping the id `f` ends with, by how the write and the release go. */
  function Kept(f: Fid, write: Outcome, release: Outcome): Answer {
    if !write.ok then Err(WriteFailed) else if release.ok then Ok(f) else Err(ReleaseFailed)
  }

  /** What a registration ends with if `entry` is there when the call returns. */
  function AfterCall(entry: Option<Fid>, answer: Answer, write: Outcome, release: Outcome): Answer {
    if entry.Some? then Ok(entry.value) else if answer.Err? then answer else Kept(answer.value, write, release)
  }

  /** One process as task 0 sees it: the shared state, and rivals that run whenever task 0 pauses. Every
      method starts with a block of task 0 that ends as `answers(k)` says: the next step of the history. */
  class Installations {
    var loaded: bool
    var initializing: bool
    var entry: Option<Fid>
    var store: Option<Fid>
    var registered: seq<Fid>
    var announced: seq<Fid>
    var rivals: map<nat, Position>
    ghost var position: Position
    ghost var start: World
    ghost var turns: seq<Turn>

    function Seen(): Shared
      reads this
    {
      Shared(loaded, initializing, entry, store, registered, announced)
    }

    ghost function Now(): World
      reads this
    {
      World(Seen(), rivals[0 := position])
    }

    /** The interleaving `turns` leads to the shared state `seen`, with task 0 at `p`. */
    ghost predicate LeadTo(seen: Shared, p: Position)
      reads this`start, this`turns, this`rivals
    {
      Execute(start, turns) == World(seen, rivals[0 := p])
    }

    /** What has happened so far is the interleaving `turns`. */
    ghost predicate Valid()
      reads this
    {
      LeadTo(Seen(), position)
    }

    /** The shared state after the first `n` steps. */
    ghost function Moment(n: nat): Shared
      requires n <= |turns|
      reads this`start, this`turns
    {
      Execute(start, turns[..n]).shared
    }

    /** After more than `first` steps `r` was what the load ends with. */
    ghost predicate Loads(first: nat, found: Result<Option<Fid>, Error>, r: Option<Answer>)
      reads this`start, this`turns
    {
      exists n | first < n <= |turns| :: r == AfterLoad(Moment(n).entry, found)
    }

    /** After more than `first` steps the store was read, and then the load ended with `r`. */
    ghost predicate ReadsAndLoads(first: nat, o: Outcome, r: Option<Answer>)
      reads this`start, this`turns
    {
      exists n | first < n <= |turns| :: Loads(n, Read(Moment(n).store, o), r)
    }

    /** After more than `first` steps the call was answered, and `r` is what follows from it. */
    ghost predicate Registers(first: nat, call: Outcome, write: Outcome, release: Outcome, r: Option<Answer>)
      reads this`start, this`turns
    {
      exists n | first < n <= |turns| :: r == Some(AfterCall(Moment(n).entry, Called(call), write, release))
    }

    lemma SeenNow()
      requires Valid()
      ensures Execute(start, turns).shared == Seen()
    {}

    /** What was seen earlier is a moment of the longer history. */
    lemma MomentSeen(earlier: seq<Turn>, seen: Shared)
      requires earlier <= turns && Execute(start, earlier).shared == seen
      ensures Moment(|earlier|) == seen
    {
      assert turns[..|earlier|] == earlier;
    }

    constructor (stored: Option<Fid>)
      ensures Valid() && start == Fresh(stored) && turns == [] && position == Check
    {
      loaded, initializing, entry := false, false, None;
      store, registered, announced := stored, [], [];
      rivals := map[];
      position := Check;
      start := Fresh(stored);
      turns := [];
    }

    method RivalMoves(turn: Turn)
      requires Valid() && turn.task != 0
      modifies this
      ensures Valid() && start == old(start) && position == old(position)
      ensures turns == old(turns) + [turn]
    {
      hide Act, Execute;
      RivalStep(start, turns, Seen(), rivals, position, turn);
      var (s, p) := Act(Seen(), if turn.task in rivals then rivals[turn.task] else Check, turn.outcome);
      loaded, initializing, entry := s.loaded, s.initializing, s.entry;
      store, registered, announced := s.store, s.registered, s.announced;
      rivals, turns := rivals[turn.task := p], turns + [turn];
    }

    /** Ends the block of task 0 that started from `before` at `from`, then lets the rivals run. */
    method Pause(ghost before: Shared, ghost from: Position, ghost outcome: Outcome, others: nat -> seq<Turn>, k: nat)
      requires LeadTo(before, from)
      requires Act(before, from, outcome) == (Seen(), position)
      requires NeverTask0(others)
      modifies this
      ensures Valid() && start == old(start) && position == old(position)
      ensures Continues(old(turns), outcome, turns)
    {
      OwnStep(start, turns, before, rivals, from, outcome);
      turns := turns + [Turn(0, outcome)];
      for i := 0 to |others(k)|
        invariant Valid() && start == old(start) && position == old(position)
        invariant Continues(old(turns), outcome, turns)
      {
        RivalMoves(others(k)[i]);
      }
    }

    /** Looks up to `patience` times and then gives up with `None`, which the caller's runtime never
        does. What happens is the interleaving `turns`, so it has every property proved of those. */
    method EnsureEntry(patience: nat, others: nat -> seq<Turn>, answers: nat -> Outcome) returns (r: Option<Answer>)
      requires Valid() && position == Check && NeverTask0(others)
      modifies this
      ensures Valid() && start == old(start) && old(turns) <= turns && Returns(position, r)
      ensures r.None? ==> OwnTurns(turns) >= old(OwnTurns(turns)) + patience
      ensures start == Fresh(None) ==> OneIdentity(Now()) && (r.Some? && r.value.Ok? ==> registered == [r.value.value])
    {
      hide LeadTo, Execute, Continues, NeverTask0;
      r := None;
      var round := 0;
      while round < patience && r.None?
        invariant Valid() && start == old(start) && old(turns) <= turns && Returns(position, r)
        invariant round <= patience && (r.None? ==> OwnTurns(turns) >= old(OwnTurns(turns)) + round)
      {
        ghost var earlier := turns;
        r := Look(8 * round, others, answers);
        OwnTurnsGrow(earlier, answers(8 * round), turns);
        round := round + 1;
      }
      WhatItMeans(r);
    }

    lemma WhatItMeans(r: Option<Answer>)
      requires Valid() && Returns(position, r)
      ensures start == Fresh(None) ==> OneIdentity(Now()) && (r.Some? && r.value.Ok? ==> registered == [r.value.value])
    {
      if start == Fresh(None) {
        RegistrationAgrees(turns);
        if r.Some? && r.value.Ok? { assert Succeeded(Now(), 0, r.value.value); }
      }
    }

    /** One round: an id that is there is returned, a raised flag is waited for, otherwise the store is
        read or the app registered. */
    method Look(k: nat, others: nat -> seq<Turn>, answers: nat -> Outcome) returns (r: Option<Answer>)
      requires Valid() && position == Check && NeverTask0(others)
      modifies this
      ensures Valid() && start == old(start) && Returns(position, r)
      ensures Continues(old(turns), answers(k), turns)
      ensures old(entry.Some?) ==> r == Some(Ok(old(entry.value)))
      ensures old(entry.None? && initializing) ==> r == None
      ensures old(entry.None? && !initializing && !loaded) ==>
              r.None? || ReadsAndLoads(|old(turns)|, answers(k + 2), r)
      ensures old(entry.None? && !initializing && loaded) ==>
              r.None? || r == Some(Err(LockFailed))
              || Registers(|old(turns)|, answers(k + 3), answers(k + 5), answers(k + 6), r)
    {
      hide LeadTo, Execute, Continues, NeverTask0;
      ghost var before, from, first := Seen(), position, turns;
      if entry.Some? {
        r, position := Some(Ok(entry.value)), Finished(Ok(entry.value));
        Pause(before, from, answers(k), others, k);
      } else if initializing {
        r := None;
        Pause(before, from, answers(k), others, k);
      } else if !loaded {
        position := WantLoad;
        Pause(before, from, answers(k), others, k);
        ghost var earlier := turns;
        r := LoadEntry(k + 1, others, answers);
        ContinuesOn(first, answers(k), earlier, answers(k + 1), turns);
      } else {
        position := WantRegister;
        Pause(before, from, answers(k), others, k);
        ghost var earlier := turns;
        r := RegisterEntry(k + 1, others, answers);
        ContinuesOn(first, answers(k), earlier, answers(k + 1), turns);
      }
    }

    method LoadEntry(k: nat, others: nat -> seq<Turn>, answers: nat -> Outcome) returns (r: Option<Answer>)
      requires Valid() && position == WantLoad && NeverTask0(others)
      modifies this
      ensures Valid() && start == old(start) && Returns(position, r)
      ensures Continues(old(turns), answers(k), turns)
      ensures position != LockLost
      ensures if old(entry.Some? || initializing) then r == None
              else ReadsAndLoads(|old(turns)|, answers(k + 1), r)
    {
      hide LeadTo, Execute, Continues, NeverTask0;
      ghost var before, from, first := Seen(), position, turns;
      if entry.Some? || initializing {
        position := Check;
        Pause(before, from, answers(k), others, k);
        return None;
      }
      loaded, initializing, position := true, true, Reading;
      Pause(before, from, answers(k), others, k);
      ghost var earlier, seen := turns, Seen();
      SeenNow();
      r := ReadStore(k + 1, others, answers);
      ContinuesOn(first, answers(k), earlier, answers(k + 1), turns);
      MomentSeen(earlier, seen);
    }

    method ReadStore(k: nat, others: nat -> seq<Turn>, answers: nat -> Outcome) returns (r: Option<Answer>)
      requires Valid() && position == Reading && NeverTask0(others)
      modifies this
      ensures Valid() && start == old(start) && Returns(position, r)
      ensures Continues(old(turns), answers(k), turns)
      ensures position != LockLost
      ensures Loads(|old(turns)|, Read(old(store), answers(k)), r)
    {
      hide LeadTo, Execute, Continues, NeverTask0;
      ghost var before, from, first := Seen(), position, turns;
      var found := Read(store, answers(k));
      position := ReadDone(found);
      Pause(before, from, answers(k), others, k);
      ghost var earlier, seen := turns, Seen();
      SeenNow();
      r := FinishLoad(found, k + 1, others, answers);
      ContinuesOn(first, answers(k), earlier, answers(k + 1), turns);
      MomentSeen(earlier, seen);
    }

    method FinishLoad(found: Result<Option<Fid>, Error>, k: nat, others: nat -> seq<Turn>, answers: nat -> Outcome)
      returns (r: Option<Answer>)
      requires Valid() && position == ReadDone(found) && NeverTask0(others)
      modifies this
      ensures Valid() && start == old(start) && Returns(position, r)
      ensures Continues(old(turns), answers(k), turns)
      ensures position != LockLost
      ensures r == AfterLoad(old(entry), found)
      ensures old(entry.Some?) ==> r == Some(Ok(old(entry.value)))
      ensures old(entry.None?) && found.Err? ==> r == Some(Err(found.error))
    {
      hide LeadTo, Execute, Continues, NeverTask0;
      ghost var before, from, first := Seen(), position, turns;
      initializing := false;
      r := if entry.Some? then Some(Ok(entry.value)) else if found.Err? then Some(Err(found.error)) else None;
      var loading := r.None? && found.value.Some?;
      position := if r.Some? then Finished(r.value) else if loading then Publishing(found.value.value) else Check;
      Pause(before, from, answers(k), others, k);
      if loading {
        ghost var earlier := turns;
        r := Publish(found.value.value, k + 1, others, answers);
        ContinuesOn(first, answers(k), earlier, answers(k + 1), turns);
      }
    }

    method Publish(f: Fid, k: nat, others: nat -> seq<Turn>, answers: nat -> Outcome) returns (r: Option<Answer>)
      requires Valid() && position == Publishing(f) && NeverTask0(others)
      modifies this
      ensures Valid() && start == old(start) && Returns(position, r)
      ensures Continues(old(turns), answers(k), turns)
      ensures r == Some(Ok(f))
    {
      hide LeadTo, Execute, Continues, NeverTask0;
      ghost var before, from := Seen(), position;
      entry, r, position := Some(f), Some(Ok(f)), Finished(Ok(f));
      Pause(before, from, answers(k), others, k);
    }

    method RegisterEntry(k: nat, others: nat -> seq<Turn>, answers: nat -> Outcome) returns (r: Option<Answer>)
      requires Valid() && position == WantRegister && NeverTask0(others)
      modifies this
      ensures Valid() && start == old(start) && Returns(position, r)
      ensures Continues(old(turns), answers(k), turns)
      ensures if old(entry.Some? || initializing) then r == None
              else if !answers(k + 1).ok then position == LockLost
              else if !answers(k + 1).granted then r == None
              else Registers(|old(turns)|, answers(k + 2), answers(k + 4), answers(k + 5), r)
    {
      hide LeadTo, Execute, Continues, NeverTask0;
      ghost var before, from, first := Seen(), position, turns;
      if entry.Some? || initializing {
        position := Check;
        Pause(before, from, answers(k), others, k);
        return None;
      }
      initializing, position := true, Acquiring;
      Pause(before, from, answers(k), others, k);
      ghost var earlier := turns;
      r := AcquireLock(k + 1, others, answers);
      ContinuesOn(first, answers(k), earlier, answers(k + 1), turns);
    }

    method AcquireLock(k: nat, others: nat -> seq<Turn>, answers: nat -> Outcome) returns (r: Option<Answer>)
      requires Valid() && position == Acquiring && NeverTask0(others)
      modifies this
      ensures Valid() && start == old(start) && Returns(position, r)
      ensures Continues(old(turns), answers(k), turns)
      ensures position == LockLost <==> !answers(k).ok
      ensures answers(k).ok ==>
              if answers(k).granted
              then Registers(|old(turns)|, answers(k + 1), answers(k + 3), answers(k + 4), r)
              else r == None
    {
      hide LeadTo, Execute, Continues, NeverTask0;
      ghost var before, from, first := Seen(), position, turns;
      position := if !answers(k).ok then LockLost else if answers(k).granted then Registering else Refused;
      Pause(before, from, answers(k), others, k);
      if !answers(k).ok {
        r := Some(Err(LockFailed));
      } else if answers(k).granted {
        ghost var earlier := turns;
        r := RegisterRemotely(k + 1, others, answers);
        ContinuesOn(first, answers(k), earlier, answers(k + 1), turns);
      } else {
        before, from := Seen(), position;
        r, initializing, position := None, false, Check;
        ghost var earlier := turns;
        Pause(before, from, answers(k + 1), others, k + 1);
        ContinuesOn(first, answers(k), earlier, answers(k + 1), turns);
      }
    }

    method RegisterRemotely(k: nat, others: nat -> seq<Turn>, answers: nat -> Outcome) returns (r: Option<Answer>)
      requires Valid() && position == Registering && NeverTask0(others)
      modifies this
      ensures Valid() && start == old(start) && Returns(position, r)
      ensures Continues(old(turns), answers(k), turns)
      ensures position.Finished?
      ensures Registers(|old(turns)|, answers(k), answers(k + 2), answers(k + 3), r)
    {
      hide LeadTo, Execute, Continues, NeverTask0;
      ghost var before, from, first := Seen(), position, turns;
      var answer := Called(answers(k));
      if answer.Ok? { registered := registered + [answer.value]; }
      position := RegisterDone(answer);
      Pause(before, from, answers(k), others, k);
      ghost var earlier, seen := turns, Seen();
      SeenNow();
      r := FinishRegistration(answer, k + 1, others, answers);
      ContinuesOn(first, answers(k), earlier, answers(k + 1), turns);
      MomentSeen(earlier, seen);
    }

    method FinishRegistration(answer: Answer, k: nat, others: nat -> seq<Turn>, answers: nat -> Outcome)
      returns (r: Option<Answer>)
      requires Valid() && position == RegisterDone(answer) && NeverTask0(others)
      modifies this
      ensures Valid() && start == old(start) && Returns(position, r)
      ensures Continues(old(turns), answers(k), turns)
      ensures position.Finished?
      ensures r == Some(AfterCall(old(entry), answer, answers(k + 1), answers(k + 2)))
      ensures old(entry.Some?) ==> r == Some(Ok(old(entry.value)))
      ensures old(entry.None?) && answer.Err? ==> r == Some(answer)
    {
      hide LeadTo, Execute, Continues, NeverTask0;
      ghost var before, from, first := Seen(), position, turns;
      initializing := false;
      var entered := entry.None? && answer.Ok?;
      var result := if entry.Some? then Ok(entry.value) else answer;
      if entered { entry, loaded := Some(answer.value), true; }
      position := if entered then Persisting(answer.value) else ReleasingAfter(result);
      Pause(before, from, answers(k), others, k);
      if entered {
        ghost var earlier := turns;
        r := PersistEntry(answer.value, k + 1, others, answers);
        ContinuesOn(first, answers(k), earlier, answers(k + 1), turns);
      } else {
        r := Some(result);
        ghost var earlier := turns;
        Release(result, k + 1, others, answers);
        ContinuesOn(first, answers(k), earlier, answers(k + 1), turns);
      }
    }

    method PersistEntry(f: Fid, k: nat, others: nat -> seq<Turn>, answers: nat -> Outcome) returns (r: Option<Answer>)
      requires Valid() && position == Persisting(f) && NeverTask0(others)
      modifies this
      ensures Valid() && start == old(start) && Returns(position, r)
      ensures Continues(old(turns), answers(k), turns)
      ensures position.Finished?
      ensures r == Some(if !answers(k).ok then Err(WriteFailed)
                        else if answers(k + 1).ok then Ok(f)
                        else Err(ReleaseFailed))
    {
      hide LeadTo, Execute, Continues, NeverTask0;
      ghost var before, from, first := Seen(), position, turns;
      if !answers(k).ok {
        r, position := Some(Err(WriteFailed)), ReleasingAfter(Err(WriteFailed));
        Pause(before, from, answers(k), others, k);
        ghost var earlier := turns;
        Release(r.value, k + 1, others, answers);
        ContinuesOn(first, answers(k), earlier, answers(k + 1), turns);
        return;
      }
      store, position := Some(f), Releasing(f);
      Pause(before, from, answers(k), others, k);
      ghost var earlier := turns;
      r := Announce(f, k + 1, others, answers);
      ContinuesOn(first, answers(k), earlier, answers(k + 1), turns);
    }

    method Announce(f: Fid, k: nat, others: nat -> seq<Turn>, answers: nat -> Outcome) returns (r: Option<Answer>)
      requires Valid() && position == Releasing(f) && NeverTask0(others)
      modifies this
      ensures Valid() && start == old(start) && Returns(position, r)
      ensures Continues(old(turns), answers(k), turns)
      ensures position.Finished?
      ensures r == Some(if answers(k).ok then Ok(f) else Err(ReleaseFailed))
    {
      hide LeadTo, Execute, Continues, NeverTask0;
      ghost var before, from := Seen(), position;
      if answers(k).ok {
        announced, r := announced + [f], Some(Ok(f));
      } else {
        r := Some(Err(ReleaseFailed));
      }
      position := Finished(r.value);
      Pause(before, from, answers(k), others, k);
    }

    /** Gives the registration lock back; how that goes is ignored. */
    method Release(result: Answer, k: nat, others: nat -> seq<Turn>, answers: nat -> Outcome)
      requires Valid() && position == ReleasingAfter(result) && NeverTask0(others)
      modifies this
      ensures Valid() && start == old(start) && position == Finished(result)
      ensures Continues(old(turns), answers(k), turns)
    {
      hide LeadTo, Execute, Continues, NeverTask0;
      ghost var before, from := Seen(), position;
      position := Finished(result);
      Pause(before, from, answers(k), others, k);
    }
  }
}

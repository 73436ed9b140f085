/** Child events: what the difference between two values of a location raises, and why applying the
    events to the old children gives the new ones. */
module ChildEvents {
  import opened Wrappers
  import opened Json
  import opened Ordering
  import TreeEditors
  import opened Text

  datatype EventType = Added | Changed | Removed

  datatype ChildEvent = ChildEvent(event: EventType, key: string, value: Json, previousName: Option<string>)

  /** The children of a value, by key; an array's are keyed by index. */
  function ChildrenOf(value: Json): map<string, Json> {
    match ExtractData(value)
    case Obj(f) => f
    case Arr(items) => Indexed(items, |items|)
    case _ => map[]
  }

  function Indexed(items: seq<Json>, n: nat): map<string, Json>
    requires n <= |items|
  {
    if n == 0 then map[] else Indexed(items, n - 1)[DigitsOf(n - 1) := items[n - 1]]
  }

  method ChildrenMap(value: Json) returns (children: map<string, Json>)
    ensures children == ChildrenOf(value)
  {
    match ExtractData(value)
    case Obj(f) =>
      return f;
    case Arr(items) =>
      children := map[];
      for i := 0 to |items|
        invariant children == Indexed(items, i)
      {
        children := children[DigitsOf(i) := items[i]];
      }
    case _ =>
      return map[];
  }

  /** The elements of an array are its children, each under its index in decimal. */
  lemma {:induction false} IndexedChildren(items: seq<Json>, n: nat)
    requires n <= |items|
    ensures forall i | 0 <= i < n :: DigitsOf(i) in Indexed(items, n) && Indexed(items, n)[DigitsOf(i)] == items[i]
    ensures Indexed(items, n).Keys == set i | 0 <= i < n :: DigitsOf(i)
  {
    hide DigitsOf;
    if n > 0 {
      IndexedChildren(items, n - 1);
      forall i | 0 <= i < n - 1 ensures DigitsOf(i) != DigitsOf(n - 1) {
        hide Decimal, IsDigit;
        DigitsReadBack(i);
        DigitsReadBack(n - 1);
      }
    }
  }

  /** What the children of a value are, wrapped or not. */
  lemma WhichChildren(v: Json)
    requires v.Obj? ==> ".value" !in v.fields
    ensures ChildrenOf(Obj(map[".value" := v])) == ChildrenOf(v)
    ensures v.Obj? ==> ChildrenOf(v) == v.fields
    ensures v.Arr? ==> ChildrenOf(v).Keys == set i | 0 <= i < |v.items| :: DigitsOf(i)
    ensures v.Arr? ==> forall i | 0 <= i < |v.items| ::
            DigitsOf(i) in ChildrenOf(v) && ChildrenOf(v)[DigitsOf(i)] == v.items[i]
    ensures !v.Obj? && !v.Arr? ==> ChildrenOf(v) == map[]
  {
    hide DigitsOf, Indexed;
    assert ExtractData(Obj(map[VALUE_KEY := v])) == v == ExtractData(v);
    if v.Arr? {
      IndexedChildren(v.items, |v.items|);
      assert ChildrenOf(v) == Indexed(v.items, |v.items|);
    }
  }

  // ----- Raising events -----

  predicate Fires(event: EventType, was: map<string, Json>, now: map<string, Json>, key: string) {
    match event
    case Added => key in now && key !in was
    case Changed => key in now && key in was && was[key] != now[key]
    case Removed => key in was && key !in now
  }

  function Before(keys: seq<string>, i: nat): Option<string>
    requires i < |keys|
  {
    if i == 0 then None else Some(keys[i-1])
  }

  function EventFor(event: EventType, was: map<string, Json>, now: map<string, Json>, keys: seq<string>,
      i: nat): ChildEvent
    requires i < |keys| && Fires(event, was, now, keys[i])
  {
    var value := if event.Removed? then was[keys[i]] else now[keys[i]];
    ChildEvent(event, keys[i], value, Before(keys, i))
  }

  /** The events of the first `n` keys, in key order. */
  function EventsUpTo(event: EventType, was: map<string, Json>, now: map<string, Json>, keys: seq<string>,
      n: nat): seq<ChildEvent>
    requires n <= |keys|
  {
    if n == 0 then []
    else
      var before := EventsUpTo(event, was, now, keys, n - 1);
      if Fires(event, was, now, keys[n-1]) then before + [EventFor(event, was, now, keys, n - 1)] else before
  }

  lemma OneMoreEvent(event: EventType, was: map<string, Json>, now: map<string, Json>, keys: seq<string>, i: nat)
    requires i < |keys|
    ensures EventsUpTo(event, was, now, keys, i + 1) == EventsUpTo(event, was, now, keys, i) +
            if Fires(event, was, now, keys[i]) then [EventFor(event, was, now, keys, i)] else []
  {
    if !Fires(event, was, now, keys[i]) {
      assert EventsUpTo(event, was, now, keys, i) + [] == EventsUpTo(event, was, now, keys, i);
    }
  }

  ghost function KeysFor(event: EventType, was: map<string, Json>, now: map<string, Json>): seq<string> {
    SortedKeys(if event.Removed? then was.Keys else now.Keys)
  }

  ghost function Events(event: EventType, was: map<string, Json>, now: map<string, Json>): seq<ChildEvent> {
    var keys := KeysFor(event, was, now);
    EventsUpTo(event, was, now, keys, |keys|)
  }

  /** The key before the first `key`, or `None` for the first key and for a key that is not listed. */
  method PreviousKey(keys: seq<string>, key: string) returns (previous: Option<string>)
    ensures forall i | 0 <= i < |keys| && keys[i] == key && key !in keys[..i] :: previous == Before(keys, i)
    ensures key !in keys ==> previous.None?
  {
    previous := None;
    for i := 0 to |keys|
      invariant previous == if i == 0 then None else Some(keys[i-1])
      invariant key !in keys[..i]
    {
      if keys[i] == key {
        assert forall j | i < j < |keys| :: keys[..j][i] == key;
        return;
      }
      previous := Some(keys[i]);
    }
    previous := None;
  }

  method EmitAdded(was: map<string, Json>, now: map<string, Json>) returns (events: seq<ChildEvent>)
    ensures events == Events(Added, was, now)
  {
    hide StringLess, Sorted;
    var keys := SortKeys(now.Keys);
    events := [];
    for i := 0 to |keys|
      invariant events == EventsUpTo(Added, was, now, keys, i)
    {
      hide EventsUpTo;
      assert keys[i] in keys;
      OneMoreEvent(Added, was, now, keys, i);
      if keys[i] !in was {
        var previous := PreviousKey(keys, keys[i]);
        assert previous == Before(keys, i) by { SortedHasNoRepeats(keys, i); }
        events := events + [ChildEvent(Added, keys[i], now[keys[i]], previous)];
      }
    }
  }

  method EmitChanged(was: map<string, Json>, now: map<string, Json>) returns (events: seq<ChildEvent>)
    ensures events == Events(Changed, was, now)
  {
    hide StringLess, Sorted;
    var keys := SortKeys(now.Keys);
    events := [];
    for i := 0 to |keys|
      invariant events == EventsUpTo(Changed, was, now, keys, i)
    {
      hide EventsUpTo;
      assert keys[i] in keys;
      OneMoreEvent(Changed, was, now, keys, i);
      if keys[i] in was && was[keys[i]] != now[keys[i]] {
        var previous := PreviousKey(keys, keys[i]);
        assert previous == Before(keys, i) by { SortedHasNoRepeats(keys, i); }
        events := events + [ChildEvent(Changed, keys[i], now[keys[i]], previous)];
      }
    }
  }

  method EmitRemoved(was: map<string, Json>, now: map<string, Json>) returns (events: seq<ChildEvent>)
    ensures events == Events(Removed, was, now)
  {
    hide StringLess, Sorted;
    var keys := SortKeys(was.Keys);
    events := [];
    for i := 0 to |keys|
      invariant events == EventsUpTo(Removed, was, now, keys, i)
    {
      hide EventsUpTo;
      assert keys[i] in keys;
      OneMoreEvent(Removed, was, now, keys, i);
      if keys[i] !in now {
        var previous := PreviousKey(keys, keys[i]);
        assert previous == Before(keys, i) by { SortedHasNoRepeats(keys, i); }
        events := events + [ChildEvent(Removed, keys[i], was[keys[i]], previous)];
      }
    }
  }

  method EmitChildEvents(event: EventType, oldValue: Json, newValue: Json) returns (events: seq<ChildEvent>)
    ensures events == Events(event, ChildrenOf(oldValue), ChildrenOf(newValue))
  {
    var was := ChildrenMap(oldValue);
    var now := ChildrenMap(newValue);
    match event
    case Added => events := EmitAdded(was, now);
    case Changed => events := EmitChanged(was, now);
    case Removed => events := EmitRemoved(was, now);
  }

  // ----- The events are the difference, each key once, in key order -----

  function KeysOf(events: seq<ChildEvent>): seq<string> {
    seq(|events|, i requires 0 <= i < |events| => events[i].key)
  }

  ghost function Fired(event: EventType, was: map<string, Json>, now: map<string, Json>,
      keys: seq<string>): set<string> {
    set k | k in keys && Fires(event, was, now, k)
  }

  lemma FiredStep(event: EventType, was: map<string, Json>, now: map<string, Json>, keys: seq<string>, n: nat)
    requires 0 < n <= |keys|
    ensures Fired(event, was, now, keys[..n]) ==
            Fired(event, was, now, keys[..n-1]) + if Fires(event, was, now, keys[n-1]) then {keys[n-1]} else {}
  {
    assert keys[..n] == keys[..n-1] + [keys[n-1]];
  }

  /** `previous` is the last of `keys` before `k`, if there is one. */
  ghost predicate IsBefore(previous: Option<string>, k: string, keys: set<string>) {
    match previous
    case None => forall x | x in keys :: !StringLess(x, k)
    case Some(p) => p in keys && StringLess(p, k) && forall x | x in keys && StringLess(x, k) :: !StringLess(p, x)
  }

  lemma BeforeIsBefore(keys: seq<string>, i: nat)
    requires i < |keys| && Sorted(keys)
    ensures IsBefore(Before(keys, i), keys[i], set k | k in keys)
  {
    forall j | 0 <= j < |keys| ensures StringLess(keys[j], keys[i]) <==> j < i {
      StringTrichotomy(keys[j], keys[i]);
    }
    forall j | 0 <= j < i ensures !StringLess(keys[i-1], keys[j]) { StringTrichotomy(keys[j], keys[i-1]); }
  }

  lemma {:induction false} CarriedUpTo(event: EventType, was: map<string, Json>, now: map<string, Json>,
      keys: seq<string>, n: nat)
    requires n <= |keys| && Sorted(keys)
    ensures forall e | e in EventsUpTo(event, was, now, keys, n) ::
            e.event == event && e.key in (if event.Removed? then was else now)
            && e.value == (if event.Removed? then was else now)[e.key]
            && IsBefore(e.previousName, e.key, set k | k in keys)
  {
    if n > 0 {
      CarriedUpTo(event, was, now, keys, n - 1);
      BeforeIsBefore(keys, n - 1);
    }
  }

  /** A removed child's event carries its old value and its old neighbour, the others' the new ones. */
  lemma EventsCarry(event: EventType, was: map<string, Json>, now: map<string, Json>, e: ChildEvent)
    requires e in Events(event, was, now)
    ensures e.event == event
    ensures event.Removed? ==> e.key in was && e.value == was[e.key] && IsBefore(e.previousName, e.key, was.Keys)
    ensures !event.Removed? ==> e.key in now && e.value == now[e.key] && IsBefore(e.previousName, e.key, now.Keys)
  {
    var keys := KeysFor(event, was, now);
    CarriedUpTo(event, was, now, keys, |keys|);
    assert (set k | k in keys) == if event.Removed? then was.Keys else now.Keys;
  }

  lemma {:induction false} EventKeysUpTo(event: EventType, was: map<string, Json>, now: map<string, Json>,
      keys: seq<string>, n: nat)
    requires n <= |keys| && Sorted(keys)
    ensures Lists(KeysOf(EventsUpTo(event, was, now, keys, n)), Fired(event, was, now, keys[..n]))
  {
    if n > 0 {
      EventKeysUpTo(event, was, now, keys, n - 1);
      FiredStep(event, was, now, keys, n);
      var k, before := keys[n-1], EventsUpTo(event, was, now, keys, n - 1);
      if Fires(event, was, now, k) {
        assert KeysOf(before + [EventFor(event, was, now, keys, n - 1)]) == KeysOf(before) + [k];
        forall x | x in Fired(event, was, now, keys[..n-1]) ensures StringLess(x, k) {
          var i :| 0 <= i < n - 1 && keys[i] == x;
        }
        ListsOneMore(KeysOf(before), Fired(event, was, now, keys[..n-1]), k);
      } else {
        assert Fired(event, was, now, keys[..n]) == Fired(event, was, now, keys[..n-1]);
      }
    }
  }

  lemma ListsOneMore(keys: seq<string>, s: set<string>, k: string)
    requires Lists(keys, s) && forall x | x in s :: StringLess(x, k)
    ensures Lists(keys + [k], s + {k})
  {
    forall i | 0 <= i < |keys| ensures StringLess(keys[i], k) {
      assert keys[i] in keys;
    }
  }

  /** Added, Changed and Removed events partition the difference of the two values. */
  lemma EventsPartitionDifference(event: EventType, was: map<string, Json>, now: map<string, Json>)
    ensures KeysOf(Events(event, was, now)) ==
            SortedKeys(if event.Added? then now.Keys - was.Keys
                       else if event.Removed? then was.Keys - now.Keys
                       else set k | k in was && k in now && was[k] != now[k])
  {
    var keys := KeysFor(event, was, now);
    var fired := if event.Added? then now.Keys - was.Keys
                 else if event.Removed? then was.Keys - now.Keys
                 else set k | k in was && k in now && was[k] != now[k];
    EventKeysUpTo(event, was, now, keys, |keys|);
    assert keys[..|keys|] == keys;
    assert Fired(event, was, now, keys) == fired;
    ListsUnique(KeysOf(Events(event, was, now)), SortedKeys(fired), fired);
  }

  // ----- Replaying the events on a list of children -----

  datatype Child = Child(key: string, value: Json)

  function At(m: map<string, Json>, key: string): Json {
    if key in m then m[key] else Null
  }

  function Pairs(keys: seq<string>, m: map<string, Json>): seq<Child> {
    seq(|keys|, i requires 0 <= i < |keys| => Child(keys[i], At(m, keys[i])))
  }

  function Without(list: seq<Child>, key: string): seq<Child> {
    if list == [] then [] else (if list[0].key == key then [] else [list[0]]) + Without(list[1..], key)
  }

  function Replaced(list: seq<Child>, key: string, value: Json): seq<Child> {
    seq(|list|, i requires 0 <= i < |list| => if list[i].key == key then Child(key, value) else list[i])
  }

  function InsertedAfter(list: seq<Child>, previous: Option<string>, child: Child): seq<Child> {
    if previous.None? || list == [] then [child] + list
    else if list[0].key == previous.value then [list[0], child] + list[1..]
    else [list[0]] + InsertedAfter(list[1..], previous, child)
  }

  function Apply(list: seq<Child>, e: ChildEvent): seq<Child> {
    match e.event
    case Added => InsertedAfter(list, e.previousName, Child(e.key, e.value))
    case Changed => Replaced(list, e.key, e.value)
    case Removed => Without(list, e.key)
  }

  function ApplyAll(list: seq<Child>, events: seq<ChildEvent>): seq<Child> {
    if events == [] then list
    else Apply(ApplyAll(list, events[..|events|-1]), events[|events|-1])
  }

  lemma ApplyOneMore(list: seq<Child>, events: seq<ChildEvent>, e: ChildEvent)
    ensures ApplyAll(list, events + [e]) == Apply(ApplyAll(list, events), e)
  {
    assert (events + [e])[..|events|] == events;
  }

  /** The keys of `keys` that `m` has, in the same order. */
  function Keep(keys: seq<string>, m: map<string, Json>): seq<string> {
    if keys == [] then [] else (if keys[0] in m then [keys[0]] else []) + Keep(keys[1..], m)
  }

  lemma {:induction false} KeepLists(keys: seq<string>, s: set<string>, m: map<string, Json>)
    requires Lists(keys, s)
    ensures Lists(Keep(keys, m), s * m.Keys)
    decreases |keys|
  {
    if keys != [] {
      TailLists(keys, s);
      KeepLists(keys[1..], s - {keys[0]}, m);
      var rest := Keep(keys[1..], m);
      assert keys[0] in keys;
      forall i | 0 <= i < |rest| ensures StringLess(keys[0], rest[i]) {
        assert rest[i] in rest;
        assert rest[i] in keys && rest[i] != keys[0];
        var j :| 0 <= j < |keys| && keys[j] == rest[i];
        assert StringLess(keys[0], keys[j]);
      }
    }
  }

  lemma {:induction false} KeepAppend(a: seq<string>, k: string, m: map<string, Json>)
    ensures Keep(a + [k], m) == Keep(a, m) + if k in m then [k] else []
  {
    if a == [] {
      assert a + [k] == [k] && [k][1..] == [];
    } else {
      assert (a + [k])[1..] == a[1..] + [k];
      KeepAppend(a[1..], k, m);
    }
  }

  lemma PairsOfMore(k: string, rest: seq<string>, m: map<string, Json>)
    ensures Pairs([k] + rest, m) == [Child(k, At(m, k))] + Pairs(rest, m)
  {}

  lemma WithoutMore(c: Child, rest: seq<Child>, k: string)
    ensures Without([c] + rest, k) == (if c.key == k then [] else [c]) + Without(rest, k)
  {
    assert ([c] + rest)[1..] == rest;
  }

  lemma {:induction false} WithoutKey(a: seq<string>, k: string, b: seq<string>, m: map<string, Json>)
    requires k !in a && k !in b
    ensures Without(Pairs(a + [k] + b, m), k) == Pairs(a + b, m)
  {
    hide At, Pairs, Without;
    var head, rest := if a == [] then k else a[0], if a == [] then b else a[1..] + [k] + b;
    assert a + [k] + b == [head] + rest;
    PairsOfMore(head, rest, m);
    WithoutMore(Child(head, At(m, head)), Pairs(rest, m), k);
    if a == [] {
      assert a + b == b;
      WithoutAbsent(b, k, m);
    } else {
      assert a + b == [a[0]] + (a[1..] + b);
      PairsOfMore(a[0], a[1..] + b, m);
      WithoutKey(a[1..], k, b, m);
    }
  }

  lemma {:induction false} WithoutAbsent(b: seq<string>, k: string, m: map<string, Json>)
    requires k !in b
    ensures Without(Pairs(b, m), k) == Pairs(b, m)
  {
    if b != [] {
      assert b[0] in b;
      assert Pairs(b, m)[1..] == Pairs(b[1..], m);
      WithoutAbsent(b[1..], k, m);
    }
  }

  lemma {:induction false} InsertKeyAfter(a: seq<string>, k: string, b: seq<string>, m: map<string, Json>)
    requires a != [] && a[|a|-1] !in a[..|a|-1]
    ensures InsertedAfter(Pairs(a + b, m), Some(a[|a|-1]), Child(k, At(m, k))) == Pairs(a + [k] + b, m)
  {
    var list := Pairs(a + b, m);
    assert list[0] == Child(a[0], At(m, a[0]));
    if |a| == 1 {
      assert list[1..] == Pairs(b, m);
      assert [list[0], Child(k, At(m, k))] + list[1..] == Pairs(a + [k] + b, m);
    } else {
      assert a[0] in a[..|a|-1];
      assert list[1..] == Pairs(a[1..] + b, m);
      InsertKeyAfter(a[1..], k, b, m);
      assert [list[0]] + Pairs(a[1..] + [k] + b, m) == Pairs(a + [k] + b, m);
    }
  }

  lemma {:induction false} SortedHasNoRepeats(keys: seq<string>, i: nat)
    requires Sorted(keys) && i < |keys|
    ensures keys[i] !in keys[..i] && keys[i] !in keys[i+1..]
  {
    StringTrichotomy(keys[i], keys[i]);
    forall j | 0 <= j < |keys| && j != i ensures keys[j] != keys[i] {
      assert StringLess(keys[if i < j then i else j], keys[if i < j then j else i]);
    }
  }

  lemma KeepStep(keys: seq<string>, n: nat, m: map<string, Json>)
    requires 0 < n <= |keys|
    ensures var kept, k := Keep(keys[..n-1], m), keys[n-1];
            kept + keys[n-1..] == kept + [k] + keys[n..]
            && Keep(keys[..n], m) + keys[n..] == if k in m then kept + [k] + keys[n..] else kept + keys[n..]
  {
    assert keys[..n] == keys[..n-1] + [keys[n-1]];
    KeepAppend(keys[..n-1], keys[n-1], m);
  }

  /** Removed events leave the children both values have. */
  lemma {:induction false} ReplayRemoved(was: map<string, Json>, now: map<string, Json>, keys: seq<string>, n: nat)
    requires Lists(keys, was.Keys) && n <= |keys|
    ensures ApplyAll(Pairs(keys, was), EventsUpTo(Removed, was, now, keys, n)) ==
            Pairs(Keep(keys[..n], now) + keys[n..], was)
  {
    if n == 0 {
      assert Keep(keys[..0], now) + keys[0..] == keys;
    } else {
      ReplayRemoved(was, now, keys, n - 1);
      KeepStep(keys, n, now);
      var k := keys[n-1];
      assert k in keys;
      if k !in now {
        KeepSubset(keys[..n-1], now);
        SortedHasNoRepeats(keys, n - 1);
        ApplyOneMore(Pairs(keys, was), EventsUpTo(Removed, was, now, keys, n - 1),
            EventFor(Removed, was, now, keys, n - 1));
        WithoutKey(Keep(keys[..n-1], now), k, keys[n..], was);
      }
    }
  }

  lemma {:induction false} KeepSubset(keys: seq<string>, m: map<string, Json>)
    ensures forall k :: k in Keep(keys, m) <==> k in keys && k in m
  {
    if keys != [] {
      KeepSubset(keys[1..], m);
      assert keys == [keys[0]] + keys[1..];
    }
  }

  lemma ReplacePair(keys: seq<string>, m: map<string, Json>, k: string, v: Json)
    ensures Replaced(Pairs(keys, m), k, v) == Pairs(keys, m[k := v])
  {}

  /** The old children once the first `n` Changed events have been applied. */
  function Updated(was: map<string, Json>, now: map<string, Json>, keys: seq<string>, n: nat): map<string, Json>
    requires n <= |keys|
  {
    if n == 0 then was
    else
      var m := Updated(was, now, keys, n - 1);
      if Fires(Changed, was, now, keys[n-1]) then m[keys[n-1] := now[keys[n-1]]] else m
  }

  lemma {:induction false} UpdatedAt(was: map<string, Json>, now: map<string, Json>, keys: seq<string>, n: nat,
      k: string)
    requires n <= |keys| && k in was && k in now
    ensures At(Updated(was, now, keys, n), k) == if k in keys[..n] then now[k] else was[k]
  {
    if n > 0 {
      UpdatedAt(was, now, keys, n - 1, k);
      assert keys[..n] == keys[..n-1] + [keys[n-1]];
    }
  }

  /** Changed events bring the common children up to date. */
  lemma {:induction false} ReplayChanged(was: map<string, Json>, now: map<string, Json>, keys: seq<string>,
      common: seq<string>, n: nat)
    requires n <= |keys|
    ensures ApplyAll(Pairs(common, was), EventsUpTo(Changed, was, now, keys, n)) ==
            Pairs(common, Updated(was, now, keys, n))
  {
    if n > 0 {
      ReplayChanged(was, now, keys, common, n - 1);
      var k := keys[n-1];
      if Fires(Changed, was, now, k) {
        ApplyOneMore(Pairs(common, was), EventsUpTo(Changed, was, now, keys, n - 1),
            EventFor(Changed, was, now, keys, n - 1));
        ReplacePair(common, Updated(was, now, keys, n - 1), k, now[k]);
      }
    }
  }

  lemma KeepFront(keys: seq<string>, n: nat, m: map<string, Json>)
    requires 0 < n <= |keys|
    ensures var a, k, b := keys[..n-1], keys[n-1], Keep(keys[n..], m);
            keys[..n] + b == a + [k] + b
            && a + Keep(keys[n-1..], m) == if k in m then a + [k] + b else a + b
  {
    assert keys[n-1..][1..] == keys[n..];
  }

  /** Added events, each after its previous key, complete the new list. */
  lemma {:induction false} ReplayAdded(was: map<string, Json>, now: map<string, Json>, keys: seq<string>, n: nat)
    requires Lists(keys, now.Keys) && n <= |keys|
    ensures ApplyAll(Pairs(Keep(keys, was), now), EventsUpTo(Added, was, now, keys, n))
         == Pairs(keys[..n] + Keep(keys[n..], was), now)
  {
    hide InsertedAfter, Pairs, Keep, Apply, StringLess, Sorted, At;
    if n == 0 {
      assert keys[0..] == keys && keys[..0] + Keep(keys, was) == Keep(keys, was);
    } else {
      hide ApplyAll, EventsUpTo;
      assert keys[n-1] in keys;
      ReplayAdded(was, now, keys, n - 1);
      AddedStep(was, now, keys, n, Pairs(Keep(keys, was), now));
      AddedFits(was, now, keys, n);
    }
  }

  lemma AddedFits(was: map<string, Json>, now: map<string, Json>, keys: seq<string>, n: nat)
    requires 0 < n <= |keys| && Sorted(keys)
    ensures var before := Pairs(keys[..n-1] + Keep(keys[n-1..], was), now);
            Pairs(keys[..n] + Keep(keys[n..], was), now) ==
            if keys[n-1] in was then before
            else InsertedAfter(before, if n == 1 then None else Some(keys[n-2]), Child(keys[n-1], At(now, keys[n-1])))
  {
    KeepFront(keys, n, was);
    hide StringLess, InsertedAfter, Pairs, Keep, Sorted, At;
    InsertNext(keys, n - 1, Keep(keys[n..], was), now);
  }

  lemma AddedStep(was: map<string, Json>, now: map<string, Json>, keys: seq<string>, n: nat, list: seq<Child>)
    requires 0 < n <= |keys| && keys[n-1] in now
    ensures var before := ApplyAll(list, EventsUpTo(Added, was, now, keys, n - 1));
            ApplyAll(list, EventsUpTo(Added, was, now, keys, n)) ==
            if keys[n-1] in was then before
            else InsertedAfter(before, if n == 1 then None else Some(keys[n-2]), Child(keys[n-1], At(now, keys[n-1])))
  {
    hide InsertedAfter;
    if keys[n-1] !in was {
      ApplyOneMore(list, EventsUpTo(Added, was, now, keys, n - 1), EventFor(Added, was, now, keys, n - 1));
    }
  }

  lemma InsertNext(keys: seq<string>, i: nat, b: seq<string>, m: map<string, Json>)
    requires Sorted(keys) && i < |keys|
    ensures InsertedAfter(Pairs(keys[..i] + b, m), if i == 0 then None else Some(keys[i-1]),
                          Child(keys[i], At(m, keys[i])))
         == Pairs(keys[..i] + [keys[i]] + b, m)
  {
    if i == 0 {
      assert [Child(keys[0], At(m, keys[0]))] + Pairs(keys[..0] + b, m) == Pairs(keys[..0] + [keys[0]] + b, m);
    } else {
      SortedHasNoRepeats(keys, i - 1);
      assert keys[..i][..i-1] == keys[..i-1];
      InsertKeyAfter(keys[..i], keys[i], b, m);
    }
  }

  lemma SamePairs(keys: seq<string>, a: map<string, Json>, b: map<string, Json>)
    requires forall k | k in keys :: At(a, k) == At(b, k)
    ensures Pairs(keys, a) == Pairs(keys, b)
  {
    forall i | 0 <= i < |keys| ensures At(a, keys[i]) == At(b, keys[i]) {
      assert keys[i] in keys;
    }
  }

  /** Both key lists keep the same common keys. */
  lemma CommonKeys(was: map<string, Json>, now: map<string, Json>)
    ensures Keep(SortedKeys(was.Keys), now) == Keep(SortedKeys(now.Keys), was)
  {
    KeepLists(SortedKeys(was.Keys), was.Keys, now);
    KeepLists(SortedKeys(now.Keys), now.Keys, was);
    assert was.Keys * now.Keys == now.Keys * was.Keys;
    ListsUnique(Keep(SortedKeys(was.Keys), now), Keep(SortedKeys(now.Keys), was), was.Keys * now.Keys);
  }

  lemma AllRemoved(was: map<string, Json>, now: map<string, Json>)
    ensures var keys := SortedKeys(was.Keys);
            ApplyAll(Pairs(keys, was), Events(Removed, was, now)) == Pairs(Keep(keys, now), was)
  {
    var keys := SortedKeys(was.Keys);
    ReplayRemoved(was, now, keys, |keys|);
    hide ApplyAll, Pairs, Keep, SortedKeys;
    assert keys[..|keys|] == keys && Keep(keys, now) + keys[|keys|..] == Keep(keys, now);
  }

  lemma AllChanged(was: map<string, Json>, now: map<string, Json>, common: seq<string>)
    requires forall k | k in common :: k in was && k in now
    ensures ApplyAll(Pairs(common, was), Events(Changed, was, now)) == Pairs(common, now)
  {
    var keys := SortedKeys(now.Keys);
    ReplayChanged(was, now, keys, common, |keys|);
    hide ApplyAll, Pairs, Apply;
    forall k | k in common ensures At(Updated(was, now, keys, |keys|), k) == At(now, k) {
      assert keys[..|keys|] == keys;
      UpdatedAt(was, now, keys, |keys|, k);
    }
    SamePairs(common, Updated(was, now, keys, |keys|), now);
  }

  lemma AllAdded(was: map<string, Json>, now: map<string, Json>)
    ensures var keys := SortedKeys(now.Keys);
            ApplyAll(Pairs(Keep(keys, was), now), Events(Added, was, now)) == Pairs(keys, now)
  {
    var keys := SortedKeys(now.Keys);
    ReplayAdded(was, now, keys, |keys|);
    assert keys + Keep(keys[|keys|..], was) == keys && keys[..|keys|] == keys;
  }

  /** Applying the Removed, Changed and Added events, in that order, to the sorted list of the old
      children gives exactly the sorted list of the new ones. */
  lemma ReplayGivesNewChildren(was: map<string, Json>, now: map<string, Json>)
    ensures ApplyAll(ApplyAll(ApplyAll(Pairs(SortedKeys(was.Keys), was),
                                       Events(Removed, was, now)),
                              Events(Changed, was, now)),
                     Events(Added, was, now))
         == Pairs(SortedKeys(now.Keys), now)
  {
    AllRemoved(was, now);
    KeepSubset(SortedKeys(was.Keys), now);
    AllChanged(was, now, Keep(SortedKeys(was.Keys), now));
    CommonKeys(was, now);
    AllAdded(was, now);
  }
}

/** Push ids: eight characters of time, then twelve of a counter that starts at random in each
    millisecond and goes up by one within it. */
module PushId {
  import opened Ordering

  const PUSH_CHARS: string :=
    "-0123456789" + "ABCDEFGHIJKLM" + "NOPQRSTUVWXYZ" + "_abcdefghijklm" + "nopqrstuvwxyz"

  const TIME_DIGITS: nat := 8
  const COUNTER_DIGITS: nat := 12

  // ----- Base 64 -----

  function Pow64(k: nat): (p: nat)
    ensures p > 0
  {
    if k == 0 then 1 else 64 * Pow64(k - 1)
  }

  predicate AreDigits(ds: seq<nat>) {
    forall i | 0 <= i < |ds| :: ds[i] < 64
  }

  /** The number that digits write, most significant first. */
  function ValueOf(ds: seq<nat>): nat {
    if ds == [] then 0 else 64 * ValueOf(ds[..|ds|-1]) + ds[|ds|-1]
  }

  /** The last `k` base-64 digits of `n`. */
  function Digits(n: nat, k: nat): (ds: seq<nat>)
    ensures |ds| == k && AreDigits(ds)
  {
    if k == 0 then [] else Digits(n / 64, k - 1) + [n % 64]
  }

  /** Adding one with carry; all 63s wrap around to all zeros. */
  function Successor(ds: seq<nat>): (next: seq<nat>)
    requires AreDigits(ds)
    ensures |next| == |ds| && AreDigits(next)
  {
    if ds == [] then []
    else if ds[|ds|-1] == 63 then Successor(ds[..|ds|-1]) + [0]
    else ds[..|ds|-1] + [ds[|ds|-1] + 1]
  }

  /** The character of a digit, in the order of `PUSH_CHARS`. */
  function PushChar(d: nat): char
    requires d < 64
  {
    if d == 0 then '-'
    else if d <= 10 then ('0' as int + d - 1) as char
    else if d <= 36 then ('A' as int + d - 11) as char
    else if d == 37 then '_'
    else ('a' as int + d - 38) as char
  }

  function DigitOf(c: char): nat {
    if '0' <= c <= '9' then c as nat - '0' as nat + 1
    else if 'A' <= c <= 'Z' then c as nat - 'A' as nat + 11
    else if c == '_' then 37
    else if 'a' <= c <= 'z' then c as nat - 'a' as nat + 38
    else 0
  }

  lemma PushCharsAt(d: nat)
    requires d < 64
    ensures |PUSH_CHARS| == 64 && PUSH_CHARS[d] == PushChar(d)
  {
    match d
    case 0 | 1 | 2 | 3 | 4 | 5 | 6 | 7 | 8 | 9 | 10 | 11 | 12 | 13 | 14 | 15 | 16 | 17 | 18 | 19 |
         20 | 21 | 22 | 23 | 24 | 25 | 26 | 27 | 28 | 29 | 30 | 31 | 32 | 33 | 34 | 35 | 36 | 37 |
         38 | 39 | 40 | 41 | 42 | 43 | 44 | 45 | 46 | 47 | 48 | 49 | 50 | 51 | 52 | 53 | 54 | 55 |
         56 | 57 | 58 | 59 | 60 | 61 | 62 | 63 =>
  }

  function Encode(ds: seq<nat>): string
    requires AreDigits(ds)
  {
    seq(|ds|, i requires 0 <= i < |ds| => PushChar(ds[i]))
  }

  function Decode(s: string): nat {
    ValueOf(seq(|s|, i requires 0 <= i < |s| => DigitOf(s[i])))
  }

  // ----- The generator -----

  datatype Snapshot = Snapshot(time: nat, counter: seq<nat>)

  datatype Call = Call(now: nat, random: seq<nat>)

  predicate ValidCounter(ds: seq<nat>) {
    |ds| == COUNTER_DIGITS && AreDigits(ds)
  }

  /** The generator's state after a call. */
  function After(s: Snapshot, call: Call): (t: Snapshot)
    requires ValidCounter(s.counter) && ValidCounter(call.random)
    ensures ValidCounter(t.counter)
  {
    Snapshot(call.now, if call.now == s.time then Successor(s.counter) else call.random)
  }

  /** The id a call leaves behind. */
  function IdOf(s: Snapshot): string
    requires ValidCounter(s.counter)
  {
    Encode(Digits(s.time, TIME_DIGITS)) + Encode(s.counter)
  }

  class PushState {
    var lastPushTime: nat
    const lastRandChars: array<nat>

    ghost predicate Valid()
      reads this, lastRandChars
    {
      ValidCounter(lastRandChars[..])
    }

    ghost function Now(): Snapshot
      reads this, lastRandChars
    {
      Snapshot(lastPushTime, lastRandChars[..])
    }

    constructor ()
      ensures Valid() && fresh(lastRandChars) && lastPushTime == 0 && forall i | 0 <= i < 12 :: lastRandChars[i] == 0
    {
      lastPushTime := 0;
      lastRandChars := new nat[COUNTER_DIGITS](_ => 0);
    }

    /** `random` is what the random source yields, used when the millisecond is new. */
    method NextPushId(now: nat, random: seq<nat>) returns (id: string)
      requires Valid() && ValidCounter(random)
      modifies this, lastRandChars
      ensures Valid() && Now() == After(old(Now()), Call(now, random)) && id == IdOf(Now())
      ensures lastPushTime == now && |id| == 20 && (now < Pow64(8) ==> Decode(id[..8]) == now)
      ensures Decode(id[8..]) == ValueOf(lastRandChars[..])
      ensures now != old(lastPushTime) ==> lastRandChars[..] == random
      ensures now == old(lastPushTime) ==>
              ValueOf(lastRandChars[..]) == (ValueOf(old(lastRandChars[..])) + 1) % Pow64(12)
    {
      hide ValueOf, Pow64, Decode, PUSH_CHARS;
      var duplicateTime := now == lastPushTime;
      lastPushTime := now;
      var timestampChars := EncodeTime(now);
      if !duplicateTime {
        for i := 0 to COUNTER_DIGITS
          invariant lastPushTime == now && lastRandChars[..i] == random[..i]
        {
          lastRandChars[i] := random[i];
        }
        assert lastRandChars[..] == random;
      } else {
        Carry();
      }
      id := timestampChars;
      var counter := lastRandChars[..];
      for i := 0 to COUNTER_DIGITS
        invariant lastPushTime == now && lastRandChars[..] == counter
        invariant id == timestampChars + Encode(counter[..i])
      {
        PushCharsAt(counter[i]);
        assert Encode(counter[..i+1]) == Encode(counter[..i]) + [PushChar(counter[i])];
        id := id + [PUSH_CHARS[counter[i]]];
      }
      assert counter[..COUNTER_DIGITS] == counter;
      NextMeans(old(Now()), Call(now, random));
    }

    static method EncodeTime(time: nat) returns (chars: string)
      ensures chars == Encode(Digits(time, TIME_DIGITS))
    {
      var slots := new char[TIME_DIGITS](_ => ' ');
      var now, i := time, TIME_DIGITS;
      ghost var tail: seq<nat> := [];
      while i > 0
        invariant 0 <= i <= TIME_DIGITS && AreDigits(tail)
        invariant Digits(time, TIME_DIGITS) == Digits(now, i) + tail
        invariant slots[i..] == Encode(tail)
      {
        i := i - 1;
        PushCharsAt(now % 64);
        assert Digits(now, i + 1) + tail == Digits(now / 64, i) + ([now % 64] + tail);
        slots[i] := PUSH_CHARS[now % 64];
        assert slots[i..] == [PushChar(now % 64)] + slots[i+1..];
        assert Encode([now % 64] + tail) == [PushChar(now % 64)] + Encode(tail);
        tail := [now % 64] + tail;
        now := now / 64;
      }
      assert Digits(now, 0) + tail == tail;
      return slots[..];
    }

    method Carry()
      requires Valid()
      modifies lastRandChars
      ensures Valid() && lastRandChars[..] == Successor(old(lastRandChars[..]))
    {
      ghost var was := lastRandChars[..];
      var index := lastRandChars.Length;
      ghost var zeros: seq<nat> := [];
      assert was[..index] == was;
      while index > 0 && lastRandChars[index-1] == 63
        invariant 0 <= index <= lastRandChars.Length
        invariant lastRandChars[..index] == was[..index]
        invariant lastRandChars[index..] == zeros && forall i | 0 <= i < |zeros| :: zeros[i] == 0
        invariant Successor(was) == Successor(was[..index]) + zeros
      {
        assert was[..index][..index-1] == was[..index-1] && was[..index][index-1] == 63;
        lastRandChars[index-1] := 0;
        index := index - 1;
        assert lastRandChars[index..] == [0] + zeros;
        assert Successor(was[..index]) + [0] + zeros == Successor(was[..index]) + ([0] + zeros);
        zeros := [0] + zeros;
      }
      if index == 0 {
        lastRandChars[0] := 0;
        assert lastRandChars[..] == zeros;
      } else {
        assert was[..index][..index-1] == was[..index-1];
        lastRandChars[index-1] := lastRandChars[index-1] + 1;
        assert lastRandChars[..] == was[..index-1] + [was[index-1] + 1] + zeros;
      }
    }
  }

  // ----- The carry adds exactly one, modulo 64^12 -----

  lemma {:induction false} ValueBelowPow(ds: seq<nat>)
    requires AreDigits(ds)
    ensures ValueOf(ds) < Pow64(|ds|)
  {
    if ds != [] {
      ValueBelowPow(ds[..|ds|-1]);
    }
  }

  lemma {:induction false} SuccessorAddsOne(ds: seq<nat>)
    requires AreDigits(ds)
    ensures ValueOf(Successor(ds)) == if ValueOf(ds) == Pow64(|ds|) - 1 then 0 else ValueOf(ds) + 1
  {
    if ds != [] {
      var front := ds[..|ds|-1];
      SuccessorAddsOne(front);
      ValueBelowPow(front);
      if ds[|ds|-1] == 63 {
        assert (Successor(front) + [0])[..|ds|-1] == Successor(front);
      } else {
        assert (front + [ds[|ds|-1] + 1])[..|ds|-1] == front;
      }
    }
  }

  // ----- Time round trip -----

  lemma {:induction false} DigitsValue(n: nat, k: nat)
    requires n < Pow64(k)
    ensures ValueOf(Digits(n, k)) == n
  {
    if k > 0 {
      DigitsValue(n / 64, k - 1);
      assert Digits(n, k)[..k-1] == Digits(n / 64, k - 1);
    }
  }

  lemma DecodeEncode(ds: seq<nat>)
    requires AreDigits(ds)
    ensures Decode(Encode(ds)) == ValueOf(ds)
  {
    assert seq(|ds|, i requires 0 <= i < |ds| => DigitOf(Encode(ds)[i])) == ds;
  }

  /** What a call leaves behind: in a new millisecond the random digits, else one more than before. */
  lemma NextMeans(s: Snapshot, call: Call)
    requires ValidCounter(s.counter) && ValidCounter(call.random)
    ensures var t := After(s, call);
            && t.time == call.now && |IdOf(t)| == 20 && Decode(IdOf(t)[8..]) == ValueOf(t.counter)
            && (call.now < Pow64(8) ==> Decode(IdOf(t)[..8]) == call.now)
            && (call.now != s.time ==> t.counter == call.random)
            && (call.now == s.time ==> ValueOf(t.counter) == (ValueOf(s.counter) + 1) % Pow64(12))
  {
    hide ValueOf, Pow64, Decode, IdOf;
    IdReadsBack(After(s, call));
    SuccessorAddsOne(s.counter);
    ValueBelowPow(s.counter);
    WrapsAround(ValueOf(s.counter), Pow64(12));
  }

  lemma WrapsAround(v: nat, p: nat)
    requires v < p
    ensures (v + 1) % p == if v == p - 1 then 0 else v + 1
  {}

  lemma IdReadsBack(s: Snapshot)
    requires ValidCounter(s.counter)
    ensures |IdOf(s)| == 20 && Decode(IdOf(s)[8..]) == ValueOf(s.counter)
    ensures s.time < Pow64(8) ==> Decode(IdOf(s)[..8]) == s.time
  {
    assert IdOf(s)[8..] == Encode(s.counter);
    DecodeEncode(s.counter);
    if s.time < Pow64(8) { TimeReadsBack(s); }
  }

  /** The 64 characters of an id: minus, digits, capitals, underscore, small letters. */
  lemma Alphabet(c: char)
    ensures |PUSH_CHARS| == 64
    ensures c in PUSH_CHARS <==>
            c == '-' || '0' <= c <= '9' || 'A' <= c <= 'Z' || c == '_' || 'a' <= c <= 'z'
  {
    hide PUSH_CHARS;
    PushCharsAt(0);
    if c in PUSH_CHARS {
      var d :| 0 <= d < |PUSH_CHARS| && PUSH_CHARS[d] == c;
      PushCharsAt(d);
    }
    if c == '-' || '0' <= c <= '9' || 'A' <= c <= 'Z' || c == '_' || 'a' <= c <= 'z' {
      CharOfDigit(c);
      PushCharsAt(DigitOf(c));
      assert PUSH_CHARS[DigitOf(c)] == c;
    }
  }

  lemma CharOfDigit(c: char)
    requires c == '-' || '0' <= c <= '9' || 'A' <= c <= 'Z' || c == '_' || 'a' <= c <= 'z'
    ensures DigitOf(c) < 64 && PushChar(DigitOf(c)) == c
  {}

  /** The first eight characters of an id give back its time. */
  lemma TimeReadsBack(s: Snapshot)
    requires ValidCounter(s.counter) && s.time < Pow64(TIME_DIGITS)
    ensures |IdOf(s)| == 20 && Decode(IdOf(s)[..TIME_DIGITS]) == s.time
  {
    var ds := Digits(s.time, TIME_DIGITS);
    assert IdOf(s)[..TIME_DIGITS] == Encode(ds);
    DecodeEncode(ds);
    DigitsValue(s.time, TIME_DIGITS);
  }

  // ----- Ids sort by time, then counter -----

  lemma {:induction false} ValueOfConcat(a: seq<nat>, b: seq<nat>)
    ensures ValueOf(a + b) == ValueOf(a) * Pow64(|b|) + ValueOf(b)
  {
    if b == [] {
      assert a + b == a;
    } else {
      var front := b[..|b|-1];
      ValueOfConcat(a, front);
      assert (a + b)[..|a + b|-1] == a + front;
      assert 64 * (ValueOf(a) * Pow64(|front|)) == ValueOf(a) * (64 * Pow64(|front|));
    }
  }

  lemma BiggerHead(x: nat, y: nat, p: nat, a: nat, b: nat)
    requires a < p && b < p
    ensures x < y ==> x * p + a < y * p + b
    ensures x == y ==> (x * p + a < y * p + b <==> a < b)
  {
    if x < y {
      assert x * p + p == (x + 1) * p <= y * p;
    }
  }

  /** Character order of encoded digits is numeric order. */
  lemma {:induction false} EncodeKeepsOrder(a: seq<nat>, b: seq<nat>)
    requires AreDigits(a) && AreDigits(b) && |a| == |b|
    ensures StringLess(Encode(a), Encode(b)) <==> ValueOf(a) < ValueOf(b)
    decreases |a|
  {
    if a != [] {
      var x, y, ra, rb := a[0], b[0], a[1..], b[1..];
      assert ValueOf([x]) == x && ValueOf([y]) == y by { assert [x][..0] == [] && [y][..0] == []; }
      hide ValueOf, Pow64;
      EncodeKeepsOrder(ra, rb);
      assert Encode(a)[1..] == Encode(ra) && Encode(b)[1..] == Encode(rb);
      assert a == [x] + ra && b == [y] + rb;
      ValueOfConcat([x], ra);
      ValueOfConcat([y], rb);
      ValueBelowPow(ra);
      ValueBelowPow(rb);
      BiggerHead(x, y, Pow64(|ra|), ValueOf(ra), ValueOf(rb));
      BiggerHead(y, x, Pow64(|ra|), ValueOf(rb), ValueOf(ra));
    }
  }

  lemma IdOrder(s: Snapshot, t: Snapshot)
    requires ValidCounter(s.counter) && ValidCounter(t.counter)
    requires s.time < Pow64(TIME_DIGITS) && t.time < Pow64(TIME_DIGITS)
    ensures StringLess(IdOf(s), IdOf(t)) <==>
            s.time < t.time || (s.time == t.time && ValueOf(s.counter) < ValueOf(t.counter))
  {
    var a, b := Digits(s.time, TIME_DIGITS), Digits(t.time, TIME_DIGITS);
    assert Encode(a) + Encode(s.counter) == Encode(a + s.counter);
    assert Encode(b) + Encode(t.counter) == Encode(b + t.counter);
    EncodeKeepsOrder(a + s.counter, b + t.counter);
    ValueOfConcat(a, s.counter);
    ValueOfConcat(b, t.counter);
    DigitsValue(s.time, TIME_DIGITS);
    DigitsValue(t.time, TIME_DIGITS);
    ValueBelowPow(s.counter);
    ValueBelowPow(t.counter);
    BiggerHead(s.time, t.time, Pow64(COUNTER_DIGITS), ValueOf(s.counter), ValueOf(t.counter));
    BiggerHead(t.time, s.time, Pow64(COUNTER_DIGITS), ValueOf(t.counter), ValueOf(s.counter));
  }

  /** The counter is full and the millisecond has not changed. */
  predicate Overflows(s: Snapshot, call: Call) {
    call.now == s.time && ValueOf(s.counter) == Pow64(COUNTER_DIGITS) - 1
  }

  /** With a clock that does not go back, the next id is greater exactly when the counter does not
      overflow. */
  lemma NextIdGreaterIff(s: Snapshot, call: Call)
    requires ValidCounter(s.counter) && ValidCounter(call.random)
    requires s.time <= call.now < Pow64(TIME_DIGITS)
    ensures StringLess(IdOf(s), IdOf(After(s, call))) <==> !Overflows(s, call)
  {
    IdOrder(s, After(s, call));
    SuccessorAddsOne(s.counter);
    ValueBelowPow(s.counter);
  }

  // ----- Whole runs -----

  ghost predicate SteadyRun(s: Snapshot, calls: seq<Call>)
    decreases |calls|
  {
    ValidCounter(s.counter)
    && (calls == [] ||
        (ValidCounter(calls[0].random) && s.time <= calls[0].now < Pow64(TIME_DIGITS) && !Overflows(s, calls[0])
         && SteadyRun(After(s, calls[0]), calls[1..])))
  }

  ghost function StateAfter(s: Snapshot, calls: seq<Call>): (t: Snapshot)
    requires SteadyRun(s, calls)
    ensures ValidCounter(t.counter)
    decreases |calls|
  {
    if calls == [] then s else StateAfter(After(s, calls[0]), calls[1..])
  }

  /** Over any run without overflow every later id is greater. */
  lemma {:induction false} LaterIdsGreater(s: Snapshot, calls: seq<Call>)
    requires SteadyRun(s, calls) && calls != [] && s.time < Pow64(TIME_DIGITS)
    ensures StringLess(IdOf(s), IdOf(StateAfter(s, calls)))
    decreases |calls|
  {
    var next := After(s, calls[0]);
    NextIdGreaterIff(s, calls[0]);
    if |calls| > 1 {
      LaterIdsGreater(next, calls[1..]);
      StringLessTransitive(IdOf(s), IdOf(next), IdOf(StateAfter(s, calls)));
    } else {
      assert StateAfter(s, calls) == StateAfter(next, []) by { assert calls[1..] == []; }
    }
  }
}

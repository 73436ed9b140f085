/** The App Check token refresher: run an operation again and again, waiting longer after each
    failure. Durations are nanoseconds; the back-off arithmetic is done in whole milliseconds. */
module Refresher {
  const MILLI: nat := 1_000_000
  const TWO_64: nat := 0x1_0000_0000_0000_0000

  function Min(a: nat, b: nat): nat {
    if a <= b then a else b
  }

  function Pow2(j: nat): (p: nat)
    ensures p > j
  {
    if j == 0 then 1 else 2 * Pow2(j - 1)
  }

  /** The back-off after `current`: twice its whole milliseconds, capped, cut to 64 bits. */
  function Doubled(current: nat, upper: nat): nat {
    Min(2 * (current / MILLI), upper / MILLI) % TWO_64 * MILLI
  }

  /** The wait before the retry that follows `j` earlier failures in a row. */
  function BackOff(lower: nat, upper: nat, j: nat): nat {
    if j == 0 then lower else Doubled(BackOff(lower, upper, j - 1), upper)
  }

  datatype Outcome = Success | Retry | Fatal

  /** One turn of the loop as its surroundings decide it: when a stop arrives, if any, how long to wait
      after a success, and how the operation ends. A late stop falls between the last check and the
      start of the operation, or later. */
  datatype Turn = Turn(stopEarly: bool, waitDuration: nat, stopAsleep: bool, stopLate: bool, outcome: Outcome)

  /** How many operations failed in a row right before turn `i`. */
  function Streak(script: seq<Turn>, i: nat): nat
    requires i <= |script|
  {
    if i == 0 || script[i-1].outcome.Success? then 0 else 1 + Streak(script, i - 1)
  }

  function WaitAt(lower: nat, upper: nat, script: seq<Turn>, i: nat): nat
    requires i < |script|
  {
    var streak := Streak(script, i);
    if streak == 0 then script[i].waitDuration else BackOff(lower, upper, streak - 1)
  }

  lemma NextStreak(lower: nat, upper: nat, script: seq<Turn>, i: nat)
    requires i < |script|
    ensures var streak := Streak(script, i);
            && WaitAt(lower, upper, script, i) ==
               (if streak == 0 then script[i].waitDuration else BackOff(lower, upper, streak - 1))
            && Streak(script, i + 1) == (if script[i].outcome.Success? then 0 else 1 + streak)
            && BackOff(lower, upper, 0) == lower
            && BackOff(lower, upper, streak + 1) == Doubled(BackOff(lower, upper, streak), upper)
            && (streak > 0 ==>
                  BackOff(lower, upper, streak) == Doubled(BackOff(lower, upper, streak - 1), upper))
  {}

  /** How many operations a run begins. */
  function Begun(script: seq<Turn>): nat {
    if script == [] || script[0].stopEarly || script[0].stopAsleep then 0
    else if script[0].stopLate || script[0].outcome.Fatal? then 1
    else 1 + Begun(script[1..])
  }

  class Refresher {
    const lower: nat
    const upper: nat
    var nextErrorWait: nat
    var running: bool
    var cancelRequested: bool

    constructor (lower: nat, upper: nat)
      requires lower <= upper
      ensures this.lower == lower && this.upper == upper && nextErrorWait == lower && !running && !cancelRequested
    {
      this.lower, this.upper := lower, upper;
      nextErrorWait, running, cancelRequested := lower, false, false;
    }

    method NextWait(succeeded: bool, waitDuration: nat) returns (wait: nat)
      modifies this`nextErrorWait
      ensures succeeded ==> wait == waitDuration && nextErrorWait == lower
      ensures !succeeded ==> wait == old(nextErrorWait) && nextErrorWait == Doubled(wait, upper)
    {
      if succeeded {
        nextErrorWait := lower;
        return waitDuration;
      }
      wait := nextErrorWait;
      var next := 2 * (wait / MILLI);
      if next > upper / MILLI {
        next := upper / MILLI;
      }
      nextErrorWait := next % TWO_64 * MILLI;
    }

    /** Says whether a loop is to be spawned; a running refresher spawns none. */
    method Start() returns (spawned: bool)
      modifies this
      ensures spawned == !old(running) && running
      ensures spawned ==> nextErrorWait == lower && !cancelRequested
      ensures !spawned ==> nextErrorWait == old(nextErrorWait) && cancelRequested == old(cancelRequested)
    {
      if running {
        return false;
      }
      running, nextErrorWait, cancelRequested := true, lower, false;
      return true;
    }

    method Stop()
      modifies this`running, this`cancelRequested
      ensures cancelRequested && !running
    {
      cancelRequested, running := true, false;
    }

    /** A run of the loop from its start to its end, or to the end of the script if it is still going
        then. `waits` are the sleeps, in order. */
    method RunLoop(script: seq<Turn>) returns (waits: seq<nat>, begun: nat, exited: bool)
      requires !cancelRequested
      modifies this
      ensures |waits| <= |script|
      ensures forall i | 0 <= i < |waits| :: waits[i] == WaitAt(lower, upper, script, i)
      ensures begun == Begun(script) && begun <= |waits| <= begun + 1
      ensures exited ==> !running && !cancelRequested
    {
      waits, begun, exited := [], 0, false;
      var succeeded := true;
      for i := 0 to |script|
        invariant |waits| == begun == i
        invariant Begun(script) == i + if cancelRequested then 0 else Begun(script[i..])
        invariant forall k | 0 <= k < i :: waits[k] == WaitAt(lower, upper, script, k)
        invariant succeeded <==> Streak(script, i) == 0
        invariant !succeeded ==> nextErrorWait == BackOff(lower, upper, Streak(script, i) - 1)
      {
        hide Doubled, BackOff, WaitAt;
        NextStreak(lower, upper, script, i);
        assert script[i..][1..] == script[i+1..];
        if script[i].stopEarly { Stop(); }
        if cancelRequested {
          exited := true;
          break;
        }
        var wait := NextWait(succeeded, script[i].waitDuration);
        waits := waits + [wait];
        if script[i].stopAsleep { Stop(); }
        if cancelRequested {
          exited := true;
          break;
        }
        if script[i].stopLate { Stop(); }
        begun := begun + 1;
        match script[i].outcome {
          case Success => succeeded := true;
          case Retry => succeeded := false;
          case Fatal =>
            exited := true;
            break;
        }
      }
      if exited {
        running, cancelRequested := false, false;
      }
    }
  }

  // ----- The closed form -----

  /** Twice as many whole milliseconds after each failure, up to those of `upper`. */
  function InMillis(lower: nat, upper: nat, j: nat): nat {
    if j == 0 then lower else Min(lower / MILLI * Pow2(j), upper / MILLI) * MILLI
  }

  lemma WholeMillis(n: nat)
    ensures n * MILLI / MILLI == n && n * MILLI % MILLI == 0
  {}

  lemma TimesDouble(a: nat, p: nat)
    ensures a * (2 * p) == 2 * (a * p)
  {}

  lemma CappedDoubles(m: nat, top: nat)
    ensures Min(2 * Min(m, top), top) == Min(2 * m, top)
  {}

  lemma DoubledInMillis(millis: nat, upper: nat)
    requires upper / MILLI < TWO_64
    ensures Doubled(millis * MILLI, upper) == Min(2 * millis, upper / MILLI) * MILLI
  {
    WholeMillis(millis);
  }

  lemma InMillisDoubles(lower: nat, upper: nat, j: nat)
    requires upper / MILLI < TWO_64
    ensures Doubled(InMillis(lower, upper, j), upper) == InMillis(lower, upper, j + 1)
  {
    var whole, top := lower / MILLI, upper / MILLI;
    if j == 0 {
      assert Pow2(1) == 2 * Pow2(0) == 2;
    } else {
      hide Doubled, Min;
      TimesDouble(whole, Pow2(j));
      CappedDoubles(whole * Pow2(j), top);
      DoubledInMillis(Min(whole * Pow2(j), top), upper);
    }
  }

  lemma {:induction false} BackOffInMillis(lower: nat, upper: nat, j: nat)
    requires upper / MILLI < TWO_64
    ensures BackOff(lower, upper, j) == InMillis(lower, upper, j)
  {
    if j > 0 {
      BackOffInMillis(lower, upper, j - 1);
      InMillisDoubles(lower, upper, j - 1);
    }
  }

  lemma {:induction false} NoWaitFromNothing(upper: nat, j: nat)
    ensures BackOff(0, upper, j) == 0
  {
    if j > 0 { NoWaitFromNothing(upper, j - 1); }
  }

  lemma {:induction false} Pow2Grows(i: nat, j: nat)
    requires i <= j
    ensures Pow2(i) <= Pow2(j)
  {
    if i < j { Pow2Grows(i, j - 1); }
  }

  /** Neither cutting a wait to whole milliseconds nor cutting those to 64 bits loses anything. */
  predicate ExactBounds(lower: nat, upper: nat) {
    lower == 0 ||
    (upper / MILLI < TWO_64 && upper % MILLI == 0 && (lower % MILLI == 0 || upper <= 2 * (lower / MILLI) * MILLI))
  }

  lemma MinScales(a: nat, b: nat)
    ensures Min(a, b) * MILLI == Min(a * MILLI, b * MILLI)
  {}

  lemma WholeProduct(q: nat, p: nat)
    ensures q * MILLI * p == q * p * MILLI
  {}

  lemma ExactWhole(q: nat, upper: nat, p: nat)
    requires upper % MILLI == 0
    ensures Min(q * p, upper / MILLI) * MILLI == Min(q * MILLI * p, upper)
  {
    MinScales(q * p, upper / MILLI);
    WholeProduct(q, p);
  }

  lemma Monotone(a: nat, b: nat, p: nat)
    requires a <= b
    ensures a * p <= b * p && p * a <= p * b
  {}

  lemma ExactCapped(lower: nat, upper: nat, p: nat)
    requires upper % MILLI == 0 && upper <= 2 * (lower / MILLI) * MILLI && p >= 2
    ensures Min(lower / MILLI * p, upper / MILLI) * MILLI == upper && Min(lower * p, upper) == upper
  {
    var q := lower / MILLI;
    Monotone(2, p, q);
    Monotone(q * MILLI, lower, p);
    WholeProduct(q, p);
    assert upper / MILLI <= 2 * q;
  }

  lemma ExactBackOff(lower: nat, upper: nat, j: nat)
    requires lower <= upper && ExactBounds(lower, upper)
    ensures BackOff(lower, upper, j) == Min(lower * Pow2(j), upper)
  {
    if lower == 0 {
      NoWaitFromNothing(upper, j);
    } else if j > 0 {
      BackOffInMillis(lower, upper, j);
      if lower % MILLI == 0 {
        ExactWhole(lower / MILLI, upper, Pow2(j));
      } else {
        ExactCapped(lower, upper, Pow2(j));
      }
    }
  }

  lemma AtLeast(a: nat, p: nat)
    requires a > 0
    ensures p <= a * p
  {}

  lemma BackOffBelow64Bits(lower: nat, upper: nat, j: nat)
    requires j > 0
    ensures BackOff(lower, upper, j) < TWO_64 * MILLI && BackOff(lower, upper, j) % MILLI == 0
  {
    WholeMillis(Min(2 * (BackOff(lower, upper, j - 1) / MILLI), upper / MILLI) % TWO_64);
  }

  lemma InexactBackOff(lower: nat, upper: nat) returns (j: nat)
    requires lower <= upper && !ExactBounds(lower, upper)
    ensures BackOff(lower, upper, j) != Min(lower * Pow2(j), upper)
  {
    if upper % MILLI != 0 || upper / MILLI >= TWO_64 {
      j := upper + 1;
      AtLeast(lower, Pow2(j));
      BackOffBelow64Bits(lower, upper, j);
    } else {
      j := 1;
      BackOffInMillis(lower, upper, j);
      assert Pow2(1) == 2 * Pow2(0) == 2;
    }
  }

  /** The waits are `lower`, twice it, four times it, up to `upper`, exactly for these bounds. */
  lemma ClosedFormIff(lower: nat, upper: nat)
    requires lower <= upper
    ensures (forall j :: BackOff(lower, upper, j) == Min(lower * Pow2(j), upper)) <==> ExactBounds(lower, upper)
    ensures ExactBounds(lower, upper) <==>
            lower == 0 ||
            (upper < 18446744073709551616 * 1_000_000 && upper % 1_000_000 == 0
             && (lower % 1_000_000 == 0 || upper <= 2 * (lower / 1_000_000) * 1_000_000))
  {
    if ExactBounds(lower, upper) {
      forall j ensures BackOff(lower, upper, j) == Min(lower * Pow2(j), upper) {
        ExactBackOff(lower, upper, j);
      }
    } else {
      var j := InexactBackOff(lower, upper);
    }
  }

  /** No failure wait is shorter than `lower` exactly when `lower` is at least a millisecond and not
      above the whole milliseconds of `upper`. A lower bound under a millisecond makes every wait
      after the first one zero. */
  lemma NeverBelowLowerIff(lower: nat, upper: nat)
    requires lower <= upper && upper / MILLI < TWO_64
    ensures (forall j :: lower <= BackOff(lower, upper, j)) <==>
            lower == 0 || (lower >= MILLI && lower <= upper / MILLI * MILLI)
  {
    var whole := lower / MILLI;
    if lower >= MILLI && lower <= upper / MILLI * MILLI {
      forall j: nat ensures lower <= BackOff(lower, upper, j) {
        BackOffInMillis(lower, upper, j);
        if j > 0 {
          Pow2Grows(1, j);
          Monotone(2, Pow2(j), whole);
        }
      }
    } else if lower > 0 {
      BackOffInMillis(lower, upper, 1);
      assert InMillis(lower, upper, 1) <= upper / MILLI * MILLI;
      assert lower < MILLI ==> whole == 0 && InMillis(lower, upper, 1) == 0;
      assert BackOff(lower, upper, 1) < lower;
    }
  }

  // ----- Waiting -----

  /** The first turn waits as after a success, and so does a turn after a success. After `j` failures in
      a row, the wait is the lower bound or twice the last one, as long as that fits. */
  lemma WaitsAfter(lower: nat, upper: nat, script: seq<Turn>, i: nat, j: nat)
    requires j <= i < |script| && (i == j || script[i-j-1].outcome.Success?)
    requires forall k | i - j <= k < i :: !script[k].outcome.Success?
    ensures j == 0 ==> WaitAt(lower, upper, script, i) == script[i].waitDuration
    ensures j == 1 ==> WaitAt(lower, upper, script, i) == lower
    ensures j > 1 ==>
            WaitAt(lower, upper, script, i) ==
            var twice := 2 * (WaitAt(lower, upper, script, i - 1) / 1_000_000);
            Min(twice, upper / 1_000_000) % 18446744073709551616 * 1_000_000
  {
    StreakCounts(script, i, j);
    if j > 1 { StreakCounts(script, i - 1, j - 1); }
  }

  lemma {:induction false} StreakCounts(script: seq<Turn>, i: nat, j: nat)
    requires j <= i < |script| && (i == j || script[i-j-1].outcome.Success?)
    requires forall k | i - j <= k < i :: !script[k].outcome.Success?
    ensures Streak(script, i) == j
    decreases j
  {
    if j > 0 { StreakCounts(script, i - 1, j - 1); }
  }

  // ----- Stopping -----

  /** Once a stop arrives in turn `k`, no operation begins, or one if the stop comes after the last
      check; and none begins after a fatal failure. */
  lemma {:induction false} StopEndsTheRun(script: seq<Turn>, k: nat)
    requires k < |script|
    ensures script[k].stopEarly || script[k].stopAsleep ==> Begun(script) <= k
    ensures script[k].stopLate || script[k].outcome.Fatal? ==> Begun(script) <= k + 1
    decreases k
  {
    if k > 0 {
      StopEndsTheRun(script[1..], k - 1);
    }
  }

  /** Until then every turn begins one, unless a failure is fatal. */
  lemma {:induction false} RunsUntilStopped(script: seq<Turn>, k: nat)
    requires k <= |script|
    requires forall i | 0 <= i < k ::
             !script[i].stopEarly && !script[i].stopAsleep && !script[i].stopLate && !script[i].outcome.Fatal?
    ensures Begun(script) == k + Begun(script[k..])
    decreases k
  {
    if k == 0 {
      assert script[0..] == script;
    } else {
      RunsUntilStopped(script[1..], k - 1);
      assert script[1..][k-1..] == script[k..];
    }
  }
}

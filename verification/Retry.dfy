/**
 The retry loop around every call of Meta's API. The callable is the sequence of the outcomes its
 calls would have; time spent asleep is returned as the list of the sleeps. Jitter is a parameter.
 */
module Retry {
  import opened Wrappers

  datatype Outcome<T, E> = Returned(value: T) | Raised(error: E)

  /** How the retry loop ends: as one of its calls did, or by falling out of the loop. */
  datatype Ending<T, E> = AsCalled(outcome: Outcome<T, E>) | ExitedWithoutResult

  /** Two to the n. */
  function Power(n: nat): (r: real)
    ensures r >= 1.0
  {
    if n == 0 then 1.0 else 2.0 * Power(n - 1)
  }

  function Min(a: real, b: real): real { if b < a then b else a }

  /** The delay after failure number i, counted from 0, before jitter. */
  function Delay(i: nat, base: real, max: real): real {
    Min(max, base * Power(i))
  }

  predicate Retryable<T, E>(o: Outcome<T, E>, retryOn: E -> bool) {
    o.Raised? && retryOn(o.error)
  }

  /** A delay with the share j of a quarter of it added. */
  function Slept(delay: real, j: real): real {
    delay + j * (delay * 0.25)
  }

  /** Each sleep is its delay with up to a quarter added. */
  predicate Jittered(sleeps: seq<real>, base: real, max: real, jitter: nat -> real) {
    forall i: nat :: i < |sleeps| ==> sleeps[i] == Slept(Delay(i, base, max), jitter(i))
  }

  /** Ends like the first call that is not a retryable failure, or like the last one allowed. */
  method WithRetry<T, E(==)>(fn: nat -> Outcome<T, E>, attempts: int, base: real, max: real,
                             retryOn: E -> bool, jitter: nat -> real)
    returns (r: Ending<T, E>, calls: nat, sleeps: seq<real>)
    ensures r.ExitedWithoutResult? <==> attempts < 1
    ensures attempts < 1 ==> calls == 0 && sleeps == []
    ensures attempts >= 1 ==>
              && 1 <= calls <= attempts && |sleeps| == calls - 1
              && r == AsCalled(fn(calls - 1))
              && (forall i: nat :: i < calls - 1 ==> Retryable(fn(i), retryOn))
              && (calls < attempts ==> !Retryable(fn(calls - 1), retryOn))
    ensures Jittered(sleeps, base, max, jitter)
  {
    var lastError: Option<E> := None;
    calls, sleeps := 0, [];
    var attempt := 1;
    while attempt <= attempts
      invariant calls == attempt - 1 == |sleeps|
      invariant forall i: nat :: i < calls ==> Retryable(fn(i), retryOn)
      invariant calls == 0 ==> lastError.None?
      invariant calls > 0 ==> attempts > calls
      invariant Jittered(sleeps, base, max, jitter)
    {
      var outcome := fn(calls);
      calls := calls + 1;
      if outcome.Returned? || !retryOn(outcome.error) { return AsCalled(outcome), calls, sleeps; }
      lastError := Some(outcome.error);
      if attempt == attempts { return AsCalled(outcome), calls, sleeps; }
      var delay := Min(max, base * Power(attempt - 1));
      sleeps := sleeps + [Slept(delay, jitter(attempt - 1))];
      attempt := attempt + 1;
    }
    // The source raises the last error again here; with any attempt at all the loop has ended the call.
    if lastError.Some? { assert false; }
    return ExitedWithoutResult, calls, sleeps;
  }

  /** Sleep number i is base times two to the i, or the cap if that is less, with up to a quarter added. */
  lemma SleepIs(sleeps: seq<real>, base: real, max: real, jitter: nat -> real, i: nat) returns (delay: real)
    requires Jittered(sleeps, base, max, jitter) && i < |sleeps|
    ensures delay <= max && delay <= base * Power(i) && (delay == max || delay == base * Power(i))
    ensures sleeps[i] == delay * (1.0 + 0.25 * jitter(i))
  {
    delay := Delay(i, base, max);
    SleptIs(delay, jitter(i));
  }

  lemma SleptIs(d: real, j: real)
    ensures Slept(d, j) == d * (1.0 + 0.25 * j)
  {
    assert j * (d * 0.25) == d * (0.25 * j);
  }

  function Sum(sleeps: seq<real>): real {
    if sleeps == [] then 0.0 else Sum(sleeps[..|sleeps| - 1]) + sleeps[|sleeps| - 1]
  }

  /** The sum of the first k uncapped delays. */
  function Uncapped(base: real, k: nat): real {
    base * (Power(k) - 1.0)
  }

  function Capped(n: nat, max: real): real { n as real * max }

  lemma UncappedStep(base: real, k: nat)
    ensures Uncapped(base, k + 1) == Uncapped(base, k) + base * Power(k)
  {
    var p := Power(k);
    calc {
      base * (2.0 * p - 1.0);
      base * ((p - 1.0) + p);
      base * (p - 1.0) + base * p;
    }
  }

  lemma UncappedIsPositive(base: real, k: nat)
    requires base >= 0.0
    ensures base * Power(k) >= 0.0
  {
  }

  lemma JitterBounds(d: real, j: real)
    requires d >= 0.0 && 0.0 <= j <= 1.0
    ensures d <= Slept(d, j) <= 1.25 * d
  {
    var q := d * 0.25;
    assert 0.0 <= j * q;
    assert (1.0 - j) * q >= 0.0;
    assert (1.0 - j) * q == q - j * q;
  }

  lemma JitteredPrefix(sleeps: seq<real>, n: nat, base: real, max: real, jitter: nat -> real)
    requires n <= |sleeps| && Jittered(sleeps, base, max, jitter)
    ensures Jittered(sleeps[..n], base, max, jitter)
  {
  }

  lemma CappedStep(n: nat, max: real)
    ensures Capped(n + 1, max) == Capped(n, max) + max
  {
    assert (n + 1) as real == n as real + 1.0;
  }

  /** What one more sleep adds, between its delay and a quarter over it. */
  lemma OneSleep(sleep: real, n: nat, base: real, max: real, j: real)
    requires sleep == Slept(Delay(n, base, max), j) && 0.0 <= j <= 1.0
    requires base >= 0.0 && max >= 0.0
    ensures 0.0 <= sleep <= 1.25 * (Uncapped(base, n + 1) - Uncapped(base, n))
    ensures sleep <= 1.25 * (Capped(n + 1, max) - Capped(n, max))
  {
    UncappedIsPositive(base, n);
    JitterBounds(Delay(n, base, max), j);
    UncappedStep(base, n);
    CappedStep(n, max);
  }

  lemma NoSleep(base: real, max: real)
    ensures Uncapped(base, 0) == 0.0 == Capped(0, max)
  {
    assert base * 0.0 == 0.0;
    assert 0 as real * max == 0.0;
  }

  /** The time asleep: at most a quarter over both the uncapped delays and the caps. */
  lemma {:induction false} TotalSleep(sleeps: seq<real>, base: real, max: real, jitter: nat -> real)
    requires base >= 0.0 && max >= 0.0 && Jittered(sleeps, base, max, jitter)
    requires forall i: nat :: 0.0 <= jitter(i) <= 1.0
    ensures 0.0 <= Sum(sleeps) <= 1.25 * Min(Uncapped(base, |sleeps|), Capped(|sleeps|, max))
  {
    if sleeps == [] {
      NoSleep(base, max);
    } else {
      var n := |sleeps| - 1;
      JitteredPrefix(sleeps, n, base, max, jitter);
      TotalSleep(sleeps[..n], base, max, jitter);
      OneSleep(sleeps[n], n, base, max, jitter(n));
    }
  }

  /** The cap cuts delay number i. */
  predicate Cut(i: nat, base: real, max: real) {
    max < base * Power(i)
  }

  lemma OneFullSleep(sleep: real, n: nat, base: real, max: real)
    requires sleep == Slept(Delay(n, base, max), 1.0) && !Cut(n, base, max)
    ensures sleep == 1.25 * (Uncapped(base, n + 1) - Uncapped(base, n))
  {
    UncappedStep(base, n);
  }

  /** When no delay reaches its cap and jitter is greatest, the time asleep is exactly the bound. */
  lemma {:induction false} TotalSleepIsReached(sleeps: seq<real>, base: real, max: real, jitter: nat -> real)
    requires Jittered(sleeps, base, max, jitter)
    requires forall i: nat :: jitter(i) == 1.0
    requires forall i: nat :: i < |sleeps| ==> !Cut(i, base, max)
    ensures Sum(sleeps) == 1.25 * Uncapped(base, |sleeps|)
  {
    if sleeps == [] {
      NoSleep(base, max);
    } else {
      var n := |sleeps| - 1;
      JitteredPrefix(sleeps, n, base, max, jitter);
      TotalSleepIsReached(sleeps[..n], base, max, jitter);
      OneFullSleep(sleeps[n], n, base, max);
    }
  }
}

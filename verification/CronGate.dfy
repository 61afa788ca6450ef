/**
  run_with_period: a job with a period of ms milliseconds runs at those values of
  the tick counter that are multiples of a whole number of ticks.
 */
module CronGate {
  import opened LittleEndian
  import opened ByteOrder

  const MIN_HZ := 1
  const MAX_HZ := 500

  /** Length of a tick in milliseconds, rounded down by the division. */
  function Tick(hz: int): (t: int)
    requires MIN_HZ <= hz <= MAX_HZ
    ensures 2 <= t <= 1000
  {
    1000 / hz
  }

  /** The whole milliseconds in a second over hz, and no more. */
  lemma TickRoundsDown(hz: int)
    requires MIN_HZ <= hz <= MAX_HZ
    ensures hz * Tick(hz) <= 1000 < hz * (Tick(hz) + 1)
  {
  }

  /** The C remainder is zero exactly when the Euclidean one is, also for negative counters. */
  predicate Divides(p: int, n: int)
    requires p != 0
  {
    n % p == 0
  }

  predicate Fires(hz: int, ms: int, cronloops: int)
    requires MIN_HZ <= hz <= MAX_HZ
  {
    ms <= Tick(hz) || Divides(ms / Tick(hz), cronloops)
  }

  /** The number of ticks between two runs. */
  function Period(hz: int, ms: int): (p: int)
    requires MIN_HZ <= hz <= MAX_HZ && ms > Tick(hz)
    ensures p >= 1
  {
    ms / Tick(hz)
  }

  /** How many of the n counter values from start on let the job run, when the counter never wraps. */
  function Runs(hz: int, ms: int, start: nat, n: nat): nat
    requires MIN_HZ <= hz <= MAX_HZ
  {
    if n == 0 then 0
    else Runs(hz, ms, start, n - 1) + (if Fires(hz, ms, start + n - 1) then 1 else 0)
  }

  /** Multiples of p below a. */
  function Multiples(p: nat, a: nat): nat
    requires p > 0
  {
    if a == 0 then 0 else (a - 1) / p + 1
  }

  lemma MultiplesStep(p: nat, a: nat)
    requires p > 0
    ensures Multiples(p, a + 1) == Multiples(p, a) + (if a % p == 0 then 1 else 0)
  {
    if a == 0 {
      DivModUnique(0, p, 0, 0);
    } else if a % p == 0 {
      assert a / p >= 1;
      MulAdd(p, a / p - 1, 1);
      DivModUnique(a - 1, p, a / p - 1, p - 1);
    } else {
      DivModUnique(a - 1, p, a / p, a % p - 1);
    }
  }

  lemma {:induction false} RunsCountMultiples(hz: int, ms: int, start: nat, n: nat)
    requires MIN_HZ <= hz <= MAX_HZ && ms > Tick(hz)
    ensures var p := Period(hz, ms);
            Runs(hz, ms, start, n) == Multiples(p, start + n) - Multiples(p, start)
  {
    if n > 0 {
      RunsCountMultiples(hz, ms, start, n - 1);
      MultiplesStep(Period(hz, ms), start + n - 1);
    }
  }

  /** Any stretch of one period, wherever it starts, runs the job exactly once. */
  lemma OncePerPeriod(hz: int, ms: int, start: nat)
    requires MIN_HZ <= hz <= MAX_HZ && ms > Tick(hz)
    ensures Runs(hz, ms, start, Period(hz, ms)) == 1
  {
    RunsCountMultiples(hz, ms, start, Period(hz, ms));
    OneMultiple(Period(hz, ms), start);
  }

  lemma OneMultiple(p: nat, start: nat)
    requires p > 0
    ensures Multiples(p, start + p) == Multiples(p, start) + 1
  {
    if start == 0 {
      DivModUnique(p - 1, p, 0, p - 1);
    } else {
      MulAdd(p, (start - 1) / p, 1);
      DivModUnique(start - 1 + p, p, (start - 1) / p + 1, (start - 1) % p);
    }
  }

  /** So in n periods it runs n times. */
  lemma {:induction false} OncePerEachPeriod(hz: int, ms: int, start: nat, n: nat)
    requires MIN_HZ <= hz <= MAX_HZ && ms > Tick(hz)
    ensures Runs(hz, ms, start, Period(hz, ms) * n) == n
  {
    var p := Period(hz, ms);
    if n > 0 {
      OncePerEachPeriod(hz, ms, start, n - 1);
      OncePerPeriod(hz, ms, start + p * (n - 1));
      MulAdd(p, n - 1, 1);
      RunsJoin(hz, ms, start, p * (n - 1), p);
    }
  }

  lemma {:induction false} RunsJoin(hz: int, ms: int, start: nat, m: nat, n: nat)
    requires MIN_HZ <= hz <= MAX_HZ
    ensures Runs(hz, ms, start, m + n) == Runs(hz, ms, start, m) + Runs(hz, ms, start + m, n)
  {
    if n > 0 {
      RunsJoin(hz, ms, start, m, n - 1);
    }
  }

  /** The distance between two runs, in nominal milliseconds, falls short of ms by less than a tick. */
  lemma NominalInterval(hz: int, ms: int)
    requires MIN_HZ <= hz <= MAX_HZ && ms > Tick(hz)
    ensures ms - Tick(hz) < Period(hz, ms) * Tick(hz) <= ms
  {
  }

  /** A period of at most one tick runs the job at every tick. */
  lemma EveryTick(hz: int, ms: int, start: nat, n: nat)
    requires MIN_HZ <= hz <= MAX_HZ && ms <= Tick(hz)
    ensures Runs(hz, ms, start, n) == n
  {
  }

  // ---- the counter is an int ----

  /** The value of a 32-bit two's-complement counter after t ticks. */
  function Cronloops(t: nat): int { ToSigned32(t) }

  ghost predicate Regular(hz: int, ms: int)
    requires MIN_HZ <= hz <= MAX_HZ && ms > Tick(hz)
  {
    forall t: nat :: Fires(hz, ms, Cronloops(t)) <==> t % Period(hz, ms) == 0
  }

  /**
    If the counter is left to wrap, the rhythm survives for ever exactly when the
    period in ticks divides 2^32.
   */
  lemma WrapRegularIff(hz: int, ms: int)
    requires MIN_HZ <= hz <= MAX_HZ && ms > Tick(hz)
    ensures Regular(hz, ms) <==> B4 % Period(hz, ms) == 0
  {
    var p := Period(hz, ms);
    if B4 % p == 0 {
      forall t: nat
        ensures Fires(hz, ms, Cronloops(t)) <==> t % p == 0
      {
        WrapKeepsResidue(p, t);
      }
    } else {
      assert Cronloops(B4) == 0;
      DivModUnique(0, p, 0, 0);
      assert Fires(hz, ms, Cronloops(B4));
    }
  }

  lemma WrapKeepsResidue(p: int, t: nat)
    requires p > 0 && B4 % p == 0
    ensures Cronloops(t) % p == t % p
  {
    var d := t - Cronloops(t);
    var k := if t % B4 < 0x8000_0000 then t / B4 else t / B4 + 1;
    var q := B4 / p;
    assert B4 == p * q;
    assert d == B4 * k;
    assert d == p * (q * k) by { MulAssoc(p, q, k); }
    SameResidue(Cronloops(t), t, p, q * k);
  }

  lemma SameResidue(x: int, y: int, p: int, q: int)
    requires p > 0 && y == x + p * q
    ensures x % p == y % p
  {
    var a, b := x / p, y / p;
    assert x == p * a + x % p && y == p * b + y % p;
    MulAdd(p, a, q);
    QuotientUnique(p, a + q, x % p, b, y % p);
  }
}

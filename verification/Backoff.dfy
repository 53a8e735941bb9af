/** The retry engine of internal/retry: exponential backoff with a cap and jitter.
    Durations are integers of nanoseconds; the float64 arithmetic is over reals. */
module Backoff {

  import opened Durations
  const DEFAULT_MAX_ATTEMPTS := 5

  datatype Engine = Engine(
    baseDelay: int, maxDelay: int, multiplier: real, maxAttempts: int, jitter: real)
  {
    /** What NewEngine establishes. */
    predicate Normal() {
      0 < baseDelay <= maxDelay && multiplier > 1.0 && 0.0 <= jitter <= 1.0
    }
  }

  function NewEngine(cfg: Engine): (e: Engine)
    ensures e.Normal() && e.maxAttempts == cfg.maxAttempts
    ensures cfg.Normal() ==> e == cfg
    ensures e.baseDelay == if cfg.baseDelay > 0 then cfg.baseDelay else 1_000 * MILLISECOND
    ensures e.maxDelay == e.baseDelay || e.maxDelay == if cfg.maxDelay > 0 then cfg.maxDelay else 30_000 * MILLISECOND
    ensures e.maxDelay > e.baseDelay || cfg.maxDelay <= e.baseDelay
    ensures e.multiplier == if cfg.multiplier > 1.0 then cfg.multiplier else 2.0
    ensures 0.0 <= cfg.jitter <= 1.0 ==> e.jitter == cfg.jitter
    ensures cfg.jitter < 0.0 ==> e.jitter == 0.0
    ensures cfg.jitter > 1.0 ==> e.jitter == 1.0
  {
    var base := if cfg.baseDelay <= 0 then SECOND else cfg.baseDelay;
    var max := if cfg.maxDelay <= 0 then 30 * SECOND else cfg.maxDelay;
    Engine(
      base,
      if max < base then base else max,
      if cfg.multiplier <= 1.0 then 2.0 else cfg.multiplier,
      cfg.maxAttempts,
      if cfg.jitter < 0.0 then 0.0 else if cfg.jitter > 1.0 then 1.0 else cfg.jitter)
  }

  function Min(a: real, b: real): real { if a < b then a else b }

  function Pow(m: real, n: nat): real {
    if n == 0 then 1.0 else m * Pow(m, n - 1)
  }

  /** The uncapped delay after n failures. */
  function Raw(e: Engine, n: nat): real { e.baseDelay as real * Pow(e.multiplier, n) }

  /** The closed form: base * multiplier^n, capped. */
  function Capped(e: Engine, n: nat): real { Min(Raw(e, n), e.maxDelay as real) }

  function WithJitter(x: real, j: real, r: real): real { x + x * j * r }

  /** The delay for a draw r of rand.Float64, truncated to whole nanoseconds. */
  function DelaySpec(e: Engine, attempt: int, r: real): int {
    var capped := Capped(e, if attempt < 0 then 0 else attempt);
    Min(WithJitter(capped, e.jitter, r), e.maxDelay as real).Floor
  }

  lemma {:induction false} PowGrows(m: real, n: nat, k: nat)
    requires m > 1.0 && n <= k
    ensures 1.0 <= Pow(m, n) <= Pow(m, k)
    decreases k
  {
    if k > 0 {
      if n < k {
        PowGrows(m, n, k - 1);
        assert Pow(m, k) == m * Pow(m, k - 1) >= Pow(m, k - 1);
      } else {
        PowGrows(m, n - 1, n - 1);
        assert m * Pow(m, n - 1) >= Pow(m, n - 1);
      }
    }
  }

  lemma RawStep(e: Engine, n: nat)
    ensures Raw(e, 0) == e.baseDelay as real
    ensures Raw(e, n + 1) == Raw(e, n) * e.multiplier
  {
  }

  lemma RawGrows(e: Engine, n: nat, k: nat)
    requires e.Normal() && n <= k
    ensures e.baseDelay as real <= Raw(e, n) <= Raw(e, k)
  {
    PowGrows(e.multiplier, n, k);
    Scale(e.baseDelay as real, 1.0, Pow(e.multiplier, n));
    Scale(e.baseDelay as real, Pow(e.multiplier, n), Pow(e.multiplier, k));
  }

  lemma Scale(a: real, x: real, y: real)
    requires a >= 0.0 && x <= y
    ensures a * x <= a * y
  {
  }

  lemma JitterGrows(a: real, b: real, j: real, r: real)
    requires 0.0 <= a <= b && 0.0 <= j && 0.0 <= r
    ensures a <= WithJitter(a, j, r) <= WithJitter(b, j, r)
    ensures j == 0.0 ==> WithJitter(a, j, r) == a
  {
    Scale(j, 0.0, r);
    assert a * j * r == (j * r) * a && b * j * r == (j * r) * b;
    Scale(j * r, 0.0, a);
    Scale(j * r, a, b);
  }

  // ---------- the policy ----------

  /** The delay before jitter, one failure at a time: the base, and then each time the
      multiplier, never above the cap. */
  function Grown(e: Engine, failures: nat): real {
    if failures == 0 then e.baseDelay as real
    else
      var next := Grown(e, failures - 1) * e.multiplier;
      if next > e.maxDelay as real then e.maxDelay as real else next
  }

  lemma {:induction false} CappedIsGrown(e: Engine, n: nat)
    requires e.Normal()
    ensures Capped(e, n) == Grown(e, n)
  {
    hide Raw;
    RawStep(e, 0);
    if n > 0 {
      CappedIsGrown(e, n - 1);
      RawStep(e, n - 1);
      RawGrows(e, n - 1, n);
      if Raw(e, n - 1) > e.maxDelay as real { ScaleUp(e.maxDelay as real, e.multiplier); }
    }
  }

  lemma ScaleUp(a: real, m: real)
    requires a > 0.0 && m > 1.0
    ensures a * m > a
  {
    Scale(a, 1.0, m);
    assert a * m - a == a * (m - 1.0);
    assert a * (m - 1.0) > 0.0;
  }

  /** The growth law: a draw r stretches the grown delay by jitter * r, up to the cap, and
      the rest of the nanosecond is dropped. */
  lemma DelayLaw(e: Engine, attempt: int, r: real)
    requires e.Normal() && 0.0 <= r < 1.0
    ensures DelaySpec(e, attempt, r) == Stretched(e, attempt, r).Floor
    ensures e.jitter == 0.0 ==> DelaySpec(e, attempt, r) == Grown(e, if attempt < 0 then 0 else attempt).Floor
  {
    hide Raw, Grown;
    var n: nat := if attempt < 0 then 0 else attempt;
    CappedIsGrown(e, n);
    assert WithJitter(Grown(e, n), e.jitter, r) == Grown(e, n) * (1.0 + e.jitter * r);
  }

  function Stretched(e: Engine, attempt: int, r: real): real {
    var delay := Grown(e, if attempt < 0 then 0 else attempt) * (1.0 + e.jitter * r);
    if delay > e.maxDelay as real then e.maxDelay as real else delay
  }

  /** The server's engine waits 1, 2, 4, 8, 16 and then 30 seconds, before jitter. */
  lemma ServerDelays()
    ensures var e := Engine(SECOND, 30 * SECOND, 2.0, 5, 0.1);
      && DelaySpec(e, -1, 0.0) == DelaySpec(e, 0, 0.0) == 1_000_000_000 && DelaySpec(e, 1, 0.0) == 2_000_000_000
      && DelaySpec(e, 2, 0.0) == 4_000_000_000 && DelaySpec(e, 3, 0.0) == 8_000_000_000
      && DelaySpec(e, 4, 0.0) == 16_000_000_000 && DelaySpec(e, 5, 0.0) == DelaySpec(e, 6, 0.0) == 30_000_000_000
      && DelaySpec(e, 4, 0.5) == 16_800_000_000
  {
    var e := Engine(SECOND, 30 * SECOND, 2.0, 5, 0.1);
    assert Pow(2.0, 1) == 2.0 && Pow(2.0, 2) == 4.0 && Pow(2.0, 3) == 8.0;
    assert Pow(2.0, 4) == 2.0 * Pow(2.0, 3) && Pow(2.0, 5) == 2.0 * Pow(2.0, 4) && Pow(2.0, 6) == 2.0 * Pow(2.0, 5);
  }

  /** The loop with its early exit computes the closed form, and so follows the policy. */
  method Delay(e: Engine, attempt: int, r: real) returns (d: int)
    requires e.Normal() && 0.0 <= r < 1.0
    ensures d == DelaySpec(e, attempt, r) == Stretched(e, attempt, r).Floor
  {
    hide Raw, WithJitter, Stretched;
    var n: nat := if attempt < 0 then 0 else attempt;
    var delay := e.baseDelay as real;
    RawStep(e, 0);
    for i := 0 to n
      invariant delay == Raw(e, i)
    {
      RawStep(e, i);
      delay := delay * e.multiplier;
      if delay > e.maxDelay as real {
        delay := e.maxDelay as real;
        RawGrows(e, i + 1, n);
        break;
      }
    }
    if delay > e.maxDelay as real {
      delay := e.maxDelay as real;
    }
    RawGrows(e, 0, n);
    JitterGrows(delay, delay, e.jitter, r);
    if e.jitter > 0.0 {
      delay := WithJitter(delay, e.jitter, r);
      if delay > e.maxDelay as real {
        delay := e.maxDelay as real;
      }
    }
    d := delay.Floor;
    DelayLaw(e, attempt, r);
  }

  /** Every delay lies between BaseDelay and MaxDelay, and never shrinks from one
      attempt to the next for the same draw. */
  lemma DelayBounds(e: Engine, attempt: int, later: int, r: real)
    requires e.Normal() && 0.0 <= r < 1.0 && attempt <= later
    ensures e.baseDelay <= DelaySpec(e, attempt, r) <= DelaySpec(e, later, r) <= e.maxDelay
  {
    hide Raw, WithJitter;
    var n: nat, k: nat := if attempt < 0 then 0 else attempt, if later < 0 then 0 else later;
    RawGrows(e, n, k);
    JitterGrows(Capped(e, n), Capped(e, k), e.jitter, r);
  }

  predicate ShouldRetry(e: Engine, attempt: int) {
    e.maxAttempts <= 0 || attempt < e.maxAttempts
  }
}

/**
  Retry delays of src/options.rs, src/retryer.rs and the choice between them in
  src/executor.rs. Durations are nanoseconds, saturating where the source
  saturates.
 */
module Backoff {
  import opened Wrappers

  const U32_MAX: nat := 0xFFFF_FFFF
  const SECOND: nat := 1_000_000_000
  const DURATION_MAX: nat := U64_MAX * SECOND + 999_999_999
  const BASE_RETRY_DELAY: Duration := SECOND
  const MAX_RETRY_DELAY: Duration := 30 * SECOND

  type Duration = d: nat | d <= DURATION_MAX

  datatype RetryConfig = RetryConfig(
    maxRetries: nat,
    baseDelay: Duration,
    exponential: bool,
    maxDelay: Duration)

  function Min(a: nat, b: nat): nat { if a <= b then a else b }

  function Pow2(n: nat): (p: nat)
    ensures p >= 1
  {
    if n == 0 then 1 else 2 * Pow2(n - 1)
  }

  /** `2u32.saturating_pow(n)`, and the same in 64 bits. */
  function SaturatingPow2(n: nat, max: nat): nat { Min(Pow2(n), max) }

  function DelayForAttempt(c: RetryConfig, attempt: nat): Duration {
    if c.exponential then
      var delay := Min(c.baseDelay * SaturatingPow2(attempt, U32_MAX), DURATION_MAX);
      Min(delay, c.maxDelay)
    else Min(c.baseDelay, c.maxDelay)
  }

  /** `retryer::retry_delay`: 64-bit milliseconds, capped at 30 s. */
  function RetryDelay(attempt: nat): Duration {
    Min(Min(1000 * SaturatingPow2(attempt, U64_MAX), U64_MAX), 30_000) * 1_000_000
  }

  /** `executor::delay_for`: the fixed curve for the default shape. */
  function DelayFor(c: RetryConfig, attempt: nat): Duration {
    if c.exponential && c.baseDelay == BASE_RETRY_DELAY then RetryDelay(attempt) else DelayForAttempt(c, attempt)
  }

  // ----- powers of two -----

  lemma {:induction false} Pow2Monotone(n: nat, m: nat)
    requires n <= m
    ensures Pow2(n) <= Pow2(m)
    decreases m
  {
    if n < m { Pow2Monotone(n, m - 1); }
  }

  lemma {:induction false} Pow2Doubles(n: nat, m: nat)
    ensures Pow2(n + m) == Pow2(n) * Pow2(m)
  {
    if m > 0 {
      Pow2Doubles(n, m - 1);
      assert Pow2(n) * (2 * Pow2(m - 1)) == 2 * (Pow2(n) * Pow2(m - 1));
    }
  }

  lemma Pow2Of32()
    ensures Pow2(32) == U32_MAX + 1
  {
    Pow2Doubles(4, 4);
    assert Pow2(4) == 16;
    Pow2Doubles(8, 8);
    Pow2Doubles(16, 16);
  }

  lemma MulMonotone(a: nat, x: nat, y: nat)
    requires x <= y
    ensures a * x <= a * y
  {
    assert a * y == a * x + a * (y - x);
  }

  // ----- the configured curve -----

  /** The uncut curve. */
  ghost function Ideal(c: RetryConfig, n: nat): nat { Min(c.baseDelay * Pow2(n), c.maxDelay) }

  /** Delays never shrink from one attempt to a later one and never pass the
      cap. */
  lemma BackoffIsMonotone(c: RetryConfig, n: nat, m: nat)
    requires n <= m
    ensures DelayForAttempt(c, n) <= DelayForAttempt(c, m) <= c.maxDelay
  {
    Pow2Monotone(n, m);
    MulMonotone(c.baseDelay, SaturatingPow2(n, U32_MAX), SaturatingPow2(m, U32_MAX));
  }

  /** Saturation is invisible below attempt 32. */
  lemma BackoffIsIdealBelow32(c: RetryConfig, n: nat)
    requires c.exponential && n < 32
    ensures DelayForAttempt(c, n) == Ideal(c, n)
  {
    Pow2Monotone(n, 31);
    Pow2Of32();
    assert Pow2(32) == 2 * Pow2(31);
  }

  lemma SaturatedFrom32(n: nat)
    requires n >= 32
    ensures SaturatingPow2(n, U32_MAX) == U32_MAX
  {
    Pow2Of32();
    Pow2Monotone(32, n);
  }

  lemma IdealFrom32(c: RetryConfig, n: nat)
    requires c.exponential && n >= 32 && (c.baseDelay == 0 || c.baseDelay * U32_MAX >= c.maxDelay)
    ensures DelayForAttempt(c, n) == Ideal(c, n)
  {
    SaturatedFrom32(n);
    Pow2Of32();
    Pow2Monotone(32, n);
    MulMonotone(c.baseDelay, U32_MAX, Pow2(n));
  }

  lemma NotIdealAt32(c: RetryConfig)
    requires c.exponential && c.baseDelay > 0 && c.baseDelay * U32_MAX < c.maxDelay
    ensures DelayForAttempt(c, 32) != Ideal(c, 32)
  {
    SaturatedFrom32(32);
    Pow2Of32();
    assert c.baseDelay * Pow2(32) == c.baseDelay * U32_MAX + c.baseDelay;
  }

  /** The delay is the uncut curve capped at `max_delay` for every attempt
      exactly when the 32-bit multiplier is large enough to reach the cap. */
  lemma BackoffIsIdealIff(c: RetryConfig)
    requires c.exponential
    ensures (forall n: nat :: DelayForAttempt(c, n) == Ideal(c, n)) <==>
      c.baseDelay == 0 || c.baseDelay * U32_MAX >= c.maxDelay
  {
    if c.baseDelay == 0 || c.baseDelay * U32_MAX >= c.maxDelay {
      forall n: nat
        ensures DelayForAttempt(c, n) == Ideal(c, n)
      {
        if n < 32 { BackoffIsIdealBelow32(c, n); } else { IdealFrom32(c, n); }
      }
    } else {
      NotIdealAt32(c);
    }
  }

  // ----- the executor's fast path -----

  lemma RetryDelayIsCapped(n: nat)
    ensures RetryDelay(n) == Min(SECOND * Pow2(n), MAX_RETRY_DELAY)
  {
  }

  lemma FastPathDisagrees(c: RetryConfig)
    requires c.exponential && c.baseDelay == BASE_RETRY_DELAY && c.maxDelay != MAX_RETRY_DELAY
    ensures exists n: nat :: DelayFor(c, n) != DelayForAttempt(c, n)
  {
    Pow2Of32();
    SaturatedFrom32(32);
    RetryDelayIsCapped(32);
    assert DelayForAttempt(c, 32) == Min(Min(SECOND * U32_MAX, DURATION_MAX), c.maxDelay);
    assert DelayFor(c, 32) != DelayForAttempt(c, 32);
  }

  /** The fast path gives the configured delays exactly when the cap is 30 s;
      any other `max_delay` is ignored on it. */
  lemma FastPathAgreesIff(c: RetryConfig)
    requires c.exponential && c.baseDelay == BASE_RETRY_DELAY
    ensures (forall n: nat :: DelayFor(c, n) == DelayForAttempt(c, n)) <==> c.maxDelay == MAX_RETRY_DELAY
  {
    if c.maxDelay == MAX_RETRY_DELAY {
      BackoffIsIdealIff(c);
      forall n: nat
        ensures DelayFor(c, n) == DelayForAttempt(c, n)
      {
        assert DelayForAttempt(c, n) == Ideal(c, n);
        RetryDelayIsCapped(n);
      }
    } else {
      FastPathDisagrees(c);
    }
  }

  /** The delay in use, for every configuration: the fixed curve for the default
      shape, the configured one with its 32-bit multiplier otherwise, and without
      exponential growth the base delay, cut off at the cap. */
  lemma DelayForIs(c: RetryConfig, n: nat)
    ensures c.exponential && c.baseDelay == SECOND ==> DelayFor(c, n) == Min(SECOND * Pow2(n), 30 * SECOND)
    ensures c.exponential && c.baseDelay != SECOND ==>
      DelayFor(c, n) == Min(c.baseDelay * Min(Pow2(n), U32_MAX), c.maxDelay)
    ensures !c.exponential ==> DelayFor(c, n) == (if c.baseDelay <= c.maxDelay then c.baseDelay else c.maxDelay)
  {
    RetryDelayIsCapped(n);
  }

  /** Total backoff of the first `k` retries. */
  ghost function TotalSleep(c: RetryConfig, k: nat): nat {
    if k == 0 then 0 else TotalSleep(c, k - 1) + DelayFor(c, k - 1)
  }

  /** With the default cap no retry sleeps longer than 30 s. */
  lemma {:induction false} TotalSleepBound(c: RetryConfig, k: nat)
    requires c.maxDelay == MAX_RETRY_DELAY
    ensures TotalSleep(c, k) <= k * MAX_RETRY_DELAY
  {
    if k > 0 {
      TotalSleepBound(c, k - 1);
      RetryDelayIsCapped(k - 1);
      BackoffIsMonotone(c, k - 1, k - 1);
    }
  }
}

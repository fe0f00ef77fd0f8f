/** Bounded retry with exponential backoff and jitter. Durations are in nanoseconds. */
module Retry {
  import opened Prelude

  type Duration = nat

  const MILLI: nat := 1_000_000

  datatype RetryConfig = RetryConfig(maxRetries: u32, baseDelay: Duration, maxDelay: Duration)

  /** `as_millis() as u64`: whole milliseconds, truncated to 64 bits. */
  function AsMillis(d: Duration): u64 {
    (d / MILLI) % (MAX_U64 + 1)
  }

  function FromMillis(ms: nat): Duration {
    ms * MILLI
  }

  function SatMul(a: u64, b: u64): u64 {
    Min(a * b, MAX_U64)
  }

  function Pow2(k: nat): (p: nat)
    ensures 1 <= p
  {
    if k == 0 then 1 else 2 * Pow2(k - 1)
  }

  /** `2u64.saturating_pow(k)`. */
  function SatPow2(k: nat): u64 {
    Min(Pow2(k), MAX_U64)
  }

  function Backoff(cfg: RetryConfig, attempt: u32): Duration {
    Min(FromMillis(SatMul(AsMillis(cfg.baseDelay), SatPow2(attempt))), cfg.maxDelay)
  }

  /** Up to a quarter more, from the nanosecond reading of a clock. */
  function Jitter(delay: Duration, nanos: nat): Duration {
    if delay == 0 then delay
    else
      var base := AsMillis(delay);
      var extra := SatMul(base / 4, nanos % 1000) / 1000;
      FromMillis(Min(base + extra, MAX_U64))
  }

  predicate IsTransient(e: Error) {
    e.Source?
  }

  // ---- The delay law ----

  /** Saturation never shows except as one more cap: the delay is the least of
      `base * 2^attempt`, the longest span of 64-bit milliseconds, and the
      configured maximum. */
  lemma BackoffLaw(cfg: RetryConfig, k: u32)
    ensures Backoff(cfg, k)
         == Min(FromMillis(Min(AsMillis(cfg.baseDelay) * Pow2(k), MAX_U64)), cfg.maxDelay)
  {
  }

  /** The documented law, `min(base * 2^attempt, max_delay)`, holds exactly when
      the maximum caps what is computed, or nothing is lost on the way: the base is
      whole milliseconds and the uncapped delay fits 64 bits of them. */
  lemma DocumentedBackoffIff(cfg: RetryConfig, k: u32)
    ensures var uncapped := cfg.baseDelay * Pow2(k);
            var computed := FromMillis(Min(AsMillis(cfg.baseDelay) * Pow2(k), MAX_U64));
            Backoff(cfg, k) == Min(uncapped, cfg.maxDelay)
            <==> cfg.maxDelay <= computed || (cfg.baseDelay % MILLI == 0 && uncapped <= FromMillis(MAX_U64))
  {
    BackoffLaw(cfg, k);
    NothingLostIff(cfg.baseDelay, Pow2(k));
  }

  /** The computed delay never exceeds the exact one, and equals it exactly when
      the base is whole milliseconds and the result fits 64 bits of them. */
  lemma {:induction false} NothingLostIff(base: Duration, p: nat)
    requires 1 <= p
    ensures var computed := FromMillis(Min(AsMillis(base) * p, MAX_U64));
            computed <= base * p && (computed == base * p <==> base % MILLI == 0 && base * p <= FromMillis(MAX_U64))
  {
    var whole, kept := base / MILLI, AsMillis(base);
    assert kept <= whole && base == whole * MILLI + base % MILLI;
    ScaleGrows(p, kept, whole);
    assert base * p == whole * p * MILLI + base % MILLI * p by {
      Distribute(whole, base % MILLI, p);
    }
    assert whole <= whole * p && base % MILLI <= base % MILLI * p;
    if kept < whole {
      ScaleGrows(p, kept + 1, whole);
      assert MAX_U64 < whole;
    }
  }

  lemma Distribute(whole: nat, rest: nat, p: nat)
    ensures (whole * MILLI + rest) * p == whole * p * MILLI + rest * p
  {
  }

  /** Half a millisecond is no delay at all. */
  lemma HalfMillisecondIsLost()
    ensures var cfg := RetryConfig(1, MILLI / 2, 1000 * MILLI);
            Backoff(cfg, 0) == 0 && Min(cfg.baseDelay * Pow2(0), cfg.maxDelay) == MILLI / 2
  {
  }

  /** Nor is one of 2^64 milliseconds, whose low 64 bits are zero. */
  lemma HugeBaseIsLost()
    ensures var cfg := RetryConfig(1, FromMillis(MAX_U64 + 1), 30_000 * MILLI);
            Backoff(cfg, 0) == 0 && Min(cfg.baseDelay * Pow2(0), cfg.maxDelay) == cfg.maxDelay
  {
  }

  /** The first delay is the base, and below the caps each next one is twice the last. */
  lemma BackoffDoubles(cfg: RetryConfig, k: u32)
    requires k < MAX_U32 && Backoff(cfg, k) < cfg.maxDelay && 2 * Backoff(cfg, k) <= FromMillis(MAX_U64)
    ensures Backoff(cfg, k + 1) == Min(2 * Backoff(cfg, k), cfg.maxDelay)
    ensures Backoff(cfg, 0) == Min(FromMillis(AsMillis(cfg.baseDelay)), cfg.maxDelay)
  {
    BackoffLaw(cfg, 0);
    BackoffLaw(cfg, k);
    BackoffLaw(cfg, k + 1);
    Doubled(AsMillis(cfg.baseDelay), Pow2(k));
  }

  lemma Doubled(a: nat, p: nat)
    ensures a * (2 * p) == 2 * (a * p)
  {
  }

  lemma {:induction false} Pow2Grows(j: nat, k: nat)
    requires j <= k
    ensures Pow2(j) <= Pow2(k)
  {
    if j < k {
      Pow2Grows(j, k - 1);
    }
  }

  lemma BackoffGrows(cfg: RetryConfig, j: u32, k: u32)
    requires j <= k
    ensures Backoff(cfg, j) <= Backoff(cfg, k) <= cfg.maxDelay
  {
    BackoffLaw(cfg, j);
    BackoffLaw(cfg, k);
    Pow2Grows(j, k);
    ScaleGrows(AsMillis(cfg.baseDelay), Pow2(j), Pow2(k));
  }

  lemma ScaleGrows(a: nat, p: nat, q: nat)
    requires p <= q
    ensures a * p <= a * q
  {
  }

  /** Jitter adds at most a quarter of the delay, and loses less than a millisecond
      of a delay that fits 64-bit milliseconds. */
  lemma JitterBounds(delay: Duration, nanos: nat)
    ensures 4 * Jitter(delay, nanos) <= 5 * delay
    ensures delay <= FromMillis(MAX_U64) ==> delay < Jitter(delay, nanos) + MILLI
  {
    WholeMillis(delay);
    var base := AsMillis(delay);
    QuarterAtMost(base / 4, nanos % 1000);
    var extra := SatMul(base / 4, nanos % 1000) / 1000;
    assert 4 * extra <= base;
    hide AsMillis, SatMul;
  }

  lemma WholeMillis(d: Duration)
    ensures FromMillis(AsMillis(d)) <= d
    ensures d <= FromMillis(MAX_U64) ==> d < FromMillis(AsMillis(d)) + MILLI
  {
  }

  /** The jitter follows the clock: of a delay of `4q` milliseconds and the last
      three digits `r` of the reading, it is `q * r / 1000` whole milliseconds, next
      to nothing at 0 and next to a quarter at 999. */
  lemma JitterSpreads(delay: Duration, nanos: nat)
    requires 2 * delay <= FromMillis(MAX_U64 / 1000)
    ensures var q, r := AsMillis(delay) / 4, nanos % 1000;
            var extra := Jitter(delay, nanos) - FromMillis(AsMillis(delay));
            extra % MILLI == 0 && q * r - 1000 < 1000 * (extra / MILLI) <= q * r
  {
    var base, r := AsMillis(delay), nanos % 1000;
    assert base <= MAX_U64 / 2000;
    NotSaturated(base / 4, r);
    hide AsMillis, SatMul;
    var e := SatMul(base / 4, r) / 1000;
    assert Jitter(delay, nanos) == FromMillis(base + e) by {
      if delay == 0 {
        NoDelay(nanos);
      }
    }
    hide Jitter;
    Spread(base, e);
  }

  lemma NoDelay(nanos: nat)
    ensures AsMillis(0) == 0 && SatMul(AsMillis(0) / 4, nanos % 1000) / 1000 == 0
  {
  }

  lemma NotSaturated(q: u64, r: u64)
    requires r < 1000 && q <= MAX_U64 / 8000
    ensures SatMul(q, r) == q * r && q * r / 1000 <= q
    ensures q * r - 1000 < 1000 * (q * r / 1000) <= q * r
  {
    ScaleGrows(q, r, 1000);
  }

  lemma Spread(base: nat, extra: nat)
    ensures FromMillis(base + extra) - FromMillis(base) == extra * MILLI
    ensures extra * MILLI % MILLI == 0 && extra * MILLI / MILLI == extra
  {
  }

  lemma QuarterAtMost(q: nat, n: nat)
    requires n < 1000
    ensures Min(q * n, MAX_U64) / 1000 <= q
  {
  }

  // ---- The retry loop ----

  /** `calls` is where retrying stops: every earlier outcome was a source failure,
      and this one is not, or is the last one the budget allows. */
  ghost predicate StopsAfter<T(!new)>(op: nat -> Result<T>, maxRetries: u32, calls: nat) {
    && 1 <= calls <= maxRetries + 1
    && (forall j: nat :: j < calls - 1 ==> op(j).Err? && op(j).error.Source?)
    && (op(calls - 1).Ok? || !op(calls - 1).error.Source? || calls == maxRetries + 1)
  }

  lemma StopIsUnique<T(!new)>(op: nat -> Result<T>, maxRetries: u32, m: nat, n: nat)
    requires StopsAfter(op, maxRetries, m) && StopsAfter(op, maxRetries, n)
    ensures m == n
  {
  }

  function Total(sleeps: seq<Duration>): Duration {
    if |sleeps| == 0 then 0 else Total(sleeps[..|sleeps| - 1]) + sleeps[|sleeps| - 1]
  }

  /** One sleep is at most a quarter over the maximum. */
  lemma SleepBound(cfg: RetryConfig, k: u32, nanos: nat)
    ensures 4 * Jitter(Backoff(cfg, k), nanos) <= 5 * cfg.maxDelay
  {
    hide Jitter;
    JitterBounds(Backoff(cfg, k), nanos);
    assert Backoff(cfg, k) <= cfg.maxDelay;
  }

  lemma OneMore(n: nat, d: Duration)
    ensures (n + 1) * d == n * d + d
  {
  }

  lemma {:induction false} TotalSleepBound(cfg: RetryConfig, clock: nat -> nat, sleeps: seq<Duration>)
    requires |sleeps| <= MAX_U32
    requires forall k :: 0 <= k < |sleeps| ==> sleeps[k] == Jitter(Backoff(cfg, k), clock(k))
    ensures 4 * Total(sleeps) <= 5 * (|sleeps| * cfg.maxDelay)
  {
    if |sleeps| > 0 {
      hide Jitter, Backoff;
      var n := |sleeps| - 1;
      TotalSleepBound(cfg, clock, sleeps[..n]);
      SleepBound(cfg, n, clock(n));
      OneMore(n, cfg.maxDelay);
    }
  }

  /** `op(k)` is the outcome of call `k`; `clock(k)` the reading before sleep `k`,
      which is the jittered backoff of attempt `k`. */
  method RetryAsync<T(!new)>(cfg: RetryConfig, op: nat -> Result<T>, clock: nat -> nat)
    returns (r: Result<T>, calls: nat, sleeps: seq<Duration>)
    ensures StopsAfter(op, cfg.maxRetries, calls) && r == op(calls - 1)
    ensures |sleeps| == calls - 1
    ensures forall k :: 0 <= k < calls - 1 ==> sleeps[k] == Jitter(Backoff(cfg, k), clock(k))
    ensures 4 * Total(sleeps) <= 5 * (cfg.maxRetries * cfg.maxDelay)
  {
    hide Jitter, Backoff, Total;
    var attempt: u32 := 0;
    calls, sleeps := 0, [];
    while true
      invariant calls == attempt == |sleeps| <= cfg.maxRetries
      invariant forall j: nat :: j < attempt ==> op(j).Err? && op(j).error.Source?
      invariant forall k :: 0 <= k < attempt ==> sleeps[k] == Jitter(Backoff(cfg, k), clock(k))
      decreases cfg.maxRetries - attempt
    {
      TotalSleepBound(cfg, clock, sleeps);
      ScaleGrows(cfg.maxDelay, attempt, cfg.maxRetries);
      r := op(calls);
      calls := calls + 1;
      match r {
        case Ok(_) => return;
        case Err(e) =>
          if !IsTransient(e) || attempt >= cfg.maxRetries {
            return;
          }
          sleeps := sleeps + [Jitter(Backoff(cfg, attempt), clock(attempt))];
          attempt := attempt + 1;
      }
    }
  }
}

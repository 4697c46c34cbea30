/** Retries with exponential backoff, and the client that runs them under the package's circuit breaker
    (pkg/resilience/resilience.go, lines 141-219). */
module Retries {
  import opened Breakers

  /** Delays are whole nanoseconds, as in Go's time.Duration. */
  datatype RetryConfig = RetryConfig(maxAttempts: int, baseDelay: int, maxDelay: int, multiplier: real)

  function Power(x: real, n: nat): real {
    if n == 0 then 1.0 else x * Power(x, n - 1)
  }

  /** The delay before attempt + 2 without jitter, rounding or cap. */
  function Ideal(cfg: RetryConfig, attempt: nat): real {
    cfg.baseDelay as real * Power(cfg.multiplier, attempt)
  }

  /** Up to a quarter more or less. */
  function Jittered(base: real, jitter: real): real {
    base + base * 0.25 * jitter
  }

  /** Conversion of a float to an integer drops the fraction. */
  function Truncated(x: real): int {
    if x >= 0.0 then x.Floor else -((-x).Floor)
  }

  /** The delay before attempt + 2; jitter stands for the random number in [-1, 1]. */
  function BackoffDelay(cfg: RetryConfig, attempt: nat, jitter: real): int {
    var delay := Truncated(Jittered(Ideal(cfg, attempt), jitter));
    if delay > cfg.maxDelay then cfg.maxDelay else delay
  }

  /** What a run of Retry is made of: the outcome of each call and the random number before each sleep. */
  datatype World = World(succeeds: nat -> bool, jitter: nat -> real)

  function Attempts(cfg: RetryConfig): nat {
    if cfg.maxAttempts > 0 then cfg.maxAttempts else 0
  }

  /** The sleeps there have been after n failed attempts: one after each but the last that is allowed. */
  function SleepsAfter(cfg: RetryConfig, n: nat): nat {
    if 0 < n == cfg.maxAttempts then n - 1 else n
  }

  /** Retry calls up to the first success or maxAttempts, reports success exactly when a call succeeded,
      and sleeps once between consecutive calls. */
  method Retry(cfg: RetryConfig, w: World) returns (ok: bool, calls: nat, slept: seq<int>)
    ensures calls <= Attempts(cfg)
    ensures ok <==> exists i: nat | i < Attempts(cfg) :: w.succeeds(i)
    ensures forall i: nat | i < calls :: w.succeeds(i) <==> ok && i == calls - 1
    ensures if ok then calls > 0 else calls == Attempts(cfg)
    ensures |slept| == if calls == 0 then 0 else calls - 1
    ensures forall i | 0 <= i < |slept| :: slept[i] == BackoffDelay(cfg, i, w.jitter(i))
  {
    calls, slept := 0, [];
    var attempt: nat := 0;
    while attempt < cfg.maxAttempts
      invariant attempt <= Attempts(cfg)
      invariant calls == attempt
      invariant |slept| == SleepsAfter(cfg, attempt)
      invariant forall i | 0 <= i < |slept| :: slept[i] == BackoffDelay(cfg, i, w.jitter(i))
      invariant forall i: nat | i < attempt :: !w.succeeds(i)
    {
      var succeeded := w.succeeds(attempt);
      calls := calls + 1;
      if succeeded {
        return true, calls, slept;
      }
      if attempt < cfg.maxAttempts - 1 {
        slept := slept + [BackoffDelay(cfg, attempt, w.jitter(attempt))];
      }
      attempt := attempt + 1;
    }
    ok := false;
  }

  // ---- How long Retry sleeps ----

  function Smaller(x: real, y: real): real {
    if x < y then x else y
  }

  function Total(slept: seq<int>): int {
    if slept == [] then 0 else Total(slept[..|slept| - 1]) + slept[|slept| - 1]
  }

  /** The longest that n sleeps can take together. */
  function Longest(cfg: RetryConfig, n: nat): real {
    if n == 0 then 0.0 else Longest(cfg, n - 1) + Smaller(cfg.maxDelay as real, 1.25 * Ideal(cfg, n - 1))
  }

  lemma {:induction false} PowerNotNegative(x: real, n: nat)
    requires x >= 0.0
    ensures Power(x, n) >= 0.0
  {
    if n == 0 {
    } else {
      PowerNotNegative(x, n - 1);
    }
  }

  lemma WithinQuarter(base: real, jitter: real)
    requires base >= 0.0 && -1.0 <= jitter <= 1.0
    ensures 0.75 * base <= Jittered(base, jitter) <= 1.25 * base
  {
    var q := base * 0.25;
    assert q * (1.0 - jitter) >= 0.0 && q * (1.0 + jitter) >= 0.0;
    assert q * (1.0 - jitter) == q - q * jitter && q * (1.0 + jitter) == q + q * jitter;
  }

  lemma TruncatedBounds(x: real)
    requires x >= 0.0
    ensures Truncated(x) as real <= x < Truncated(x) as real + 1.0
  {
  }

  /** Each delay is within a quarter of base * multiplier^attempt, up to rounding, and never above maxDelay. */
  lemma BackoffBounds(cfg: RetryConfig, attempt: nat, jitter: real)
    requires cfg.baseDelay >= 0 && cfg.multiplier >= 0.0 && -1.0 <= jitter <= 1.0
    ensures var delay := BackoffDelay(cfg, attempt, jitter) as real;
            && delay <= Smaller(cfg.maxDelay as real, 1.25 * Ideal(cfg, attempt))
            && (delay == cfg.maxDelay as real || delay > 0.75 * Ideal(cfg, attempt) - 1.0)
  {
    PowerNotNegative(cfg.multiplier, attempt);
    var base := Ideal(cfg, attempt);
    assert base >= 0.0;
    hide Ideal, Jittered, Truncated;
    WithinQuarter(base, jitter);
    TruncatedBounds(Jittered(base, jitter));
  }

  /** A random number in [-1, 1] moves the delay by that many quarters of the ideal; it is cut to whole nanoseconds,
      and to maxDelay. */
  lemma BackoffExactly(cfg: RetryConfig, attempt: nat, jitter: real)
    requires cfg.baseDelay >= 0 && cfg.multiplier >= 0.0 && -1.0 <= jitter <= 1.0
    ensures var ideal := cfg.baseDelay as real * Power(cfg.multiplier, attempt);
            var delay, wanted := BackoffDelay(cfg, attempt, jitter), ideal + ideal * 0.25 * jitter;
            && delay <= cfg.maxDelay && delay as real <= wanted
            && (delay == cfg.maxDelay || wanted < delay as real + 1.0)
  {
    PowerNotNegative(cfg.multiplier, attempt);
    var base := Ideal(cfg, attempt);
    assert base >= 0.0 && base == cfg.baseDelay as real * Power(cfg.multiplier, attempt);
    assert Jittered(base, jitter) == base + base * 0.25 * jitter;
    hide Ideal, Jittered, Truncated, Power;
    WithinQuarter(base, jitter);
    TruncatedBounds(Jittered(base, jitter));
  }

  ghost predicate SleptBy(cfg: RetryConfig, w: World, slept: seq<int>) {
    && (forall i | 0 <= i < |slept| :: slept[i] == BackoffDelay(cfg, i, w.jitter(i)))
    && (forall i: nat :: -1.0 <= w.jitter(i) <= 1.0)
  }

  lemma {:induction false} TotalSleepBounded(cfg: RetryConfig, w: World, slept: seq<int>)
    requires cfg.baseDelay >= 0 && cfg.multiplier >= 0.0 && SleptBy(cfg, w, slept)
    ensures Total(slept) as real <= Longest(cfg, |slept|)
  {
    if slept == [] {
    } else {
      var n := |slept| - 1;
      TotalSleepBounded(cfg, w, slept[..n]);
      BackoffBounds(cfg, n, w.jitter(n));
    }
  }

  /** The sum of b, b * m, b * m^2, .. up to the term before b * p, for p a power of m. */
  function GeometricSum(b: real, m: real, p: real): real
    requires m > 1.0
  {
    b * (p - 1.0) / (m - 1.0)
  }

  lemma GeometricStep(b: real, m: real, p: real, next: real)
    requires m > 1.0 && next == m * p
    ensures GeometricSum(b, m, 1.0) == 0.0
    ensures GeometricSum(b, m, p) + b * p == GeometricSum(b, m, next)
  {
    var d := m - 1.0;
    assert b * (m * p - 1.0) == b * (p - 1.0) + b * p * d;
    assert (b * (p - 1.0) + b * p * d) / d == b * (p - 1.0) / d + b * p;
  }

  /** With a multiplier above one, n sleeps stay below the closed form of the geometric sum, whatever maxDelay is. */
  lemma {:induction false} GeometricBound(cfg: RetryConfig, n: nat)
    requires cfg.baseDelay >= 0 && cfg.multiplier > 1.0
    ensures Longest(cfg, n) <= GeometricSum(1.25 * cfg.baseDelay as real, cfg.multiplier, Power(cfg.multiplier, n))
  {
    hide GeometricSum;
    var b, m := 1.25 * cfg.baseDelay as real, cfg.multiplier;
    if n == 0 {
      GeometricStep(b, m, 1.0, m);
    } else {
      GeometricBound(cfg, n - 1);
      GeometricStep(b, m, Power(m, n - 1), Power(m, n));
      assert 1.25 * Ideal(cfg, n - 1) == b * Power(m, n - 1);
    }
  }

  // ---- The client against a failing downstream ----

  datatype DoResult = Success | CircuitOpen | RetriesExhausted

  class ResilientClient {
    const breaker: CircuitBreaker
    const retry: RetryConfig

    constructor (cfg: Config, retry: RetryConfig)
      ensures this.retry == retry && breaker.cfg == cfg && breaker.View() == INITIAL
      ensures fresh(breaker)
    {
      this.retry := retry;
      breaker := new CircuitBreaker(cfg);
    }

    /** Retry runs between the breaker's two locked sections; w gives each attempt's outcome, where an error
        and a timeout count alike. */
    method Do(w: World, began: real, ended: real) returns (result: DoResult, calls: nat)
      modifies breaker
      ensures var (asked, admitted) := Begin(breaker.cfg, old(breaker.View()), began);
              && (result == CircuitOpen <==> !admitted)
              && breaker.View() == (if admitted then Finish(breaker.cfg, asked, result != Success, ended) else asked)
              && (!admitted ==> calls == 0)
              && calls <= Attempts(retry)
              && (forall i: nat | i < calls :: w.succeeds(i) <==> result == Success && i == calls - 1)
              && (admitted ==> (result == Success <==> exists i: nat | i < Attempts(retry) :: w.succeeds(i)))
              && (result == RetriesExhausted ==> calls == Attempts(retry))
    {
      var admitted := breaker.BeginExecute(began);
      if !admitted {
        return CircuitOpen, 0;
      }
      var ok, made, _ := Retry(retry, w);
      breaker.FinishExecute(!ok, ended);
      return if ok then Success else RetriesExhausted, made;
    }
  }

  /** One serial use of the client: when Do asked the breaker, and when its retries were over. */
  datatype Turn = Turn(began: real, ended: real)

  /** Do with a downstream that fails every attempt. */
  function FailingDo(c: Config, b: Breaker, t: Turn): (Breaker, bool) {
    var (asked, admitted) := Begin(c, b, t.began);
    (if admitted then Finish(c, asked, true, t.ended) else asked, admitted)
  }

  function Outage(c: Config, ts: seq<Turn>): Breaker {
    if ts == [] then INITIAL else FailingDo(c, Outage(c, ts[..|ts| - 1]), ts[|ts| - 1]).0
  }

  /** How many of the turns the breaker let through. */
  function Admissions(c: Config, ts: seq<Turn>): nat {
    if ts == [] then 0
    else
      var before := ts[..|ts| - 1];
      Admissions(c, before) + (if FailingDo(c, Outage(c, before), ts[|ts| - 1]).1 then 1 else 0)
  }

  /** How often the turns called the failing downstream. */
  function DownstreamCalls(c: Config, retry: RetryConfig, ts: seq<Turn>): nat {
    if ts == [] then 0
    else
      var before := ts[..|ts| - 1];
      DownstreamCalls(c, retry, before)
        + (if FailingDo(c, Outage(c, before), ts[|ts| - 1]).1 then Attempts(retry) else 0)
  }

  /** Turns do not overlap and start no earlier than `from`. */
  ghost predicate Serial(ts: seq<Turn>, from: real) {
    && (forall i | 0 <= i < |ts| :: from <= ts[i].began <= ts[i].ended)
    && (forall i, j | 0 <= i < j < |ts| :: ts[i].ended <= ts[j].began)
  }

  function Timeouts(c: Config, n: int): real {
    n as real * c.timeout
  }

  lemma TimeoutsNext(c: Config, n: int)
    ensures Timeouts(c, n + 1) == Timeouts(c, n) + c.timeout
    ensures Timeouts(c, 0) == 0.0
  {
  }

  /** The breaker counts failures until it opens; from then on each admission waits one more timeout. */
  lemma {:induction false} OutageState(c: Config, ts: seq<Turn>, from: real)
    requires c.Valid() && Serial(ts, from)
    ensures var b, n := Outage(c, ts), Admissions(c, ts);
            var k := n - c.failureThreshold;
            && (k < 0 ==> b.state == Closed && b.failures == n)
            && (k >= 0 ==> b.state == Open && b.failures == 0 && from + Timeouts(c, k) <= b.lastFailure)
            && (k > 0 ==> from + Timeouts(c, k) < ts[|ts| - 1].began)
  {
    hide Timeouts;
    if ts == [] {
    } else {
      var before, last := ts[..|ts| - 1], ts[|ts| - 1];
      OutageState(c, before, from);
      var k := Admissions(c, before) - c.failureThreshold;
      TimeoutsNext(c, k);
      TimeoutsNext(c, 0);
      if before != [] {
        assert before[|before| - 1].ended <= last.began;
      }
    }
  }

  lemma WholeTimeouts(c: Config, k: int, span: real)
    requires c.timeout > 0.0 && Timeouts(c, k) < span
    ensures k <= (span / c.timeout).Floor
  {
    assert k as real * c.timeout < span / c.timeout * c.timeout;
    assert k as real < span / c.timeout;
  }

  lemma NoTimeouts(c: Config, span: real)
    requires c.timeout > 0.0 && span >= 0.0
    ensures (span / c.timeout).Floor >= 0
  {
  }

  /** By time from + span a client fresh at `from` lets at most failureThreshold + floor(span / timeout) turns
      through to a failing downstream. */
  lemma OutageAdmissions(c: Config, ts: seq<Turn>, from: real, span: real)
    requires c.Valid() && c.timeout > 0.0 && Serial(ts, from)
    requires span >= 0.0 && forall t | t in ts :: t.began <= from + span
    ensures Admissions(c, ts) <= c.failureThreshold + (span / c.timeout).Floor
  {
    var k := Admissions(c, ts) - c.failureThreshold;
    assert k > 0 ==> ts != [] && ts[|ts| - 1] in ts;
    OutageState(c, ts, from);
    hide *;
    if k > 0 {
      WholeTimeouts(c, k, span);
    } else {
      NoTimeouts(c, span);
    }
  }

  lemma {:induction false} CallsPerAdmission(c: Config, retry: RetryConfig, ts: seq<Turn>)
    ensures DownstreamCalls(c, retry, ts) == Admissions(c, ts) * Attempts(retry)
  {
    if ts == [] {
    } else {
      CallsPerAdmission(c, retry, ts[..|ts| - 1]);
    }
  }

  lemma TimesMonotone(a: int, b: int, n: nat)
    requires a <= b
    ensures a * n <= b * n
  {
  }

  /** So the downstream is called at most maxAttempts times as often. */
  lemma OutageLoad(c: Config, retry: RetryConfig, ts: seq<Turn>, from: real, span: real)
    requires c.Valid() && c.timeout > 0.0 && Serial(ts, from)
    requires span >= 0.0 && forall t | t in ts :: t.began <= from + span
    ensures DownstreamCalls(c, retry, ts) <= (c.failureThreshold + (span / c.timeout).Floor) * Attempts(retry)
  {
    OutageAdmissions(c, ts, from, span);
    CallsPerAdmission(c, retry, ts);
    TimesMonotone(Admissions(c, ts), c.failureThreshold + (span / c.timeout).Floor, Attempts(retry));
  }

  /** The k-th of evenly spaced times. */
  function Spaced(from: real, gap: real, k: int): real {
    from + k as real * gap
  }

  lemma SpacedNext(from: real, gap: real, k: int)
    ensures Spaced(from, gap, k) == Spaced(from, gap, k - 1) + gap
    ensures Spaced(from, gap, 0) == from
  {
  }

  /** A turn more than timeout after the last failure is let through, and fails. */
  lemma OneMoreAdmission(c: Config, before: seq<Turn>, at: real, from: real)
    requires c.Valid() && Serial(before, from) && Admissions(c, before) >= c.failureThreshold
    requires at - Outage(c, before).lastFailure > c.timeout
    ensures var ts := before + [Turn(at, at)];
            && Admissions(c, ts) == Admissions(c, before) + 1
            && Outage(c, ts).state == Open && Outage(c, ts).lastFailure == at
  {
    OutageState(c, before, from);
    assert (before + [Turn(at, at)])[..|before|] == before;
    hide Timeouts, Serial;
  }

  lemma SerialNext(before: seq<Turn>, at: real, from: real)
    requires Serial(before, from) && from <= at && forall t | t in before :: t.ended <= at
    ensures Serial(before + [Turn(at, at)], from)
  {
  }

  lemma {:induction false} Burst(c: Config, from: real, n: int) returns (ts: seq<Turn>)
    requires c.Valid() && 0 <= n <= c.failureThreshold
    ensures |ts| == n && (forall i | 0 <= i < n :: ts[i] == Turn(from, from)) && Serial(ts, from)
    ensures Admissions(c, ts) == n
    ensures n == c.failureThreshold ==> Outage(c, ts).state == Open && Outage(c, ts).lastFailure == from
  {
    if n == 0 {
      ts := [];
    } else {
      var before := Burst(c, from, n - 1);
      ts := before + [Turn(from, from)];
      assert ts[..|ts| - 1] == before;
      OutageState(c, before, from);
    }
  }

  /** The bound is the best possible: k extra admissions do happen in any span longer than k timeouts. */
  lemma {:induction false} OutageLoadReached(c: Config, from: real, gap: real, k: nat) returns (ts: seq<Turn>)
    requires c.Valid() && gap > c.timeout >= 0.0
    ensures Serial(ts, from)
    ensures Admissions(c, ts) == c.failureThreshold + k
    ensures forall t | t in ts :: t.began <= t.ended <= Spaced(from, gap, k)
    ensures Outage(c, ts).state == Open && from <= Outage(c, ts).lastFailure == Spaced(from, gap, k)
  {
    hide Spaced, Serial, Admissions, Outage;
    SpacedNext(from, gap, k);
    if k == 0 {
      SpacedNext(from, gap, 0);
      ts := Burst(c, from, c.failureThreshold);
    } else {
      var before := OutageLoadReached(c, from, gap, k - 1);
      var at := Spaced(from, gap, k);
      OneMoreAdmission(c, before, at, from);
      SerialNext(before, at, from);
      ts := before + [Turn(at, at)];
    }
  }
}

/** The load on a failing downstream when calls overlap: any number of callers share the breaker of pkg/resilience
    (pkg/resilience/resilience.go, lines 92-137 and 213-219), and every call that it admits fails. */
module OverlappingOutages {
  import opened Breakers
  import opened Retries

  /** Every completion so far has failed. */
  ghost predicate AllFail(h: History) {
    forall i | 0 <= i < |h| :: !h[i].Succeeds()
  }

  /** No more than m calls were ever in flight at once. */
  ghost predicate AtMostInFlight(c: Config, h: History, m: nat) {
    forall n | 0 <= n <= |h| :: |InFlight(c, h[..n])| <= m
  }

  /** How often the breaker moved out of Open. */
  function MovesOut(c: Config, h: History): nat {
    if h == [] then 0
    else
      var before := h[..|h| - 1];
      MovesOut(c, before) + (if After(c, before).state == Open && After(c, h).state != Open then 1 else 0)
  }

  function Admitted(c: Config, h: History): nat {
    Begins(c, h, true)
  }

  /** The last event of an outage. */
  lemma LastEvent(c: Config, h: History, m: nat)
    requires h != [] && Executable(c, h) && AllFail(h) && AtMostInFlight(c, h, m)
    ensures var before, last := h[..|h| - 1], h[|h| - 1];
            && Executable(c, before) && AllFail(before) && AtMostInFlight(c, before, m)
            && (last.Finished? ==> last.failed) && Possible(c, before, last)
            && |InFlight(c, before)| <= m && |InFlight(c, h)| <= m
  {
    hide Possible, InFlight;
    var before := h[..|h| - 1];
    ExecutablePrefix(c, h);
    assert forall n | 0 <= n <= |before| :: before[..n] == h[..n];
    assert h[..|h|] == h && before[..|before|] == before;
  }

  /** m times k, kept from the solver. */
  function Phases(m: nat, k: int): int {
    m * k
  }

  lemma PhasesNext(m: nat, k: int)
    ensures Phases(m, k + 1) == Phases(m, k) + m && Phases(m, 0) == 0
  {
  }

  ghost predicate Bounded(c: Config, b: Breaker, admitted: int, inFlight: int, moves: int, m: nat) {
    match b.state
    case Closed =>
      moves == 0 && b.failures == b.totalFailures < c.failureThreshold && admitted == b.totalFailures + inFlight
    case Open => admitted <= c.failureThreshold + m - 1 + Phases(m, moves)
    case HalfOpen => admitted <= c.failureThreshold + m - 1 + Phases(m, moves - 1) + inFlight
  }

  lemma BeginBounded(c: Config, b: Breaker, admitted: int, inFlight: nat, moves: nat, m: nat, now: real)
    requires c.Valid() && Bounded(c, b, admitted, inFlight, moves, m)
    ensures var (t, ok) := Begin(c, b, now);
            var one := if ok then 1 else 0;
            var move := if b.state == Open && t.state != Open then 1 else 0;
            Bounded(c, t, admitted + one, inFlight + one, moves + move, m)
  {
    hide Phases;
    PhasesNext(m, moves);
  }

  lemma FailureBounded(c: Config, b: Breaker, admitted: int, inFlight: nat, moves: nat, m: nat, now: real)
    requires c.Valid() && Bounded(c, b, admitted, inFlight, moves, m) && 1 <= inFlight <= m
    ensures Bounded(c, Finish(c, b, true, now), admitted, inFlight - 1, moves, m)
  {
    hide Phases;
    PhasesNext(m, moves - 1);
    PhasesNext(m, 0);
  }

  lemma BeganCounts(c: Config, before: History, h: History, e: Event)
    requires h == before + [e] && e.Began? && e.call !in InFlight(c, before)
    ensures var b := After(c, before);
            var (t, ok) := Begin(c, b, e.at);
            && After(c, h) == t
            && Admitted(c, h) == Admitted(c, before) + (if ok then 1 else 0)
            && |InFlight(c, h)| == |InFlight(c, before)| + (if ok then 1 else 0)
            && MovesOut(c, h) == MovesOut(c, before) + (if b.state == Open && t.state != Open then 1 else 0)
  {
    assert h[..|h| - 1] == before && h[|h| - 1] == e;
    hide Begin;
  }

  lemma FailedCounts(c: Config, before: History, h: History, e: Event)
    requires h == before + [e] && e.Fails() && e.call in InFlight(c, before)
    ensures After(c, h) == Finish(c, After(c, before), true, e.at)
    ensures Admitted(c, h) == Admitted(c, before)
    ensures |InFlight(c, h)| == |InFlight(c, before)| - 1
    ensures MovesOut(c, h) == MovesOut(c, before)
  {
    assert h[..|h| - 1] == before && h[|h| - 1] == e;
    assert InFlight(c, before) == InFlight(c, h) + {e.call};
  }

  lemma NoneBounded(c: Config, m: nat)
    requires c.Valid()
    ensures Bounded(c, After(c, []), Admitted(c, []), |InFlight(c, [])|, MovesOut(c, []), m)
  {
  }

  ghost predicate RunsBounded(c: Config, h: History, m: nat) {
    Bounded(c, After(c, h), Admitted(c, h), |InFlight(c, h)|, MovesOut(c, h), m)
  }

  lemma BeganBounded(c: Config, before: History, h: History, e: Event, m: nat)
    requires c.Valid() && h == before + [e] && e.Began? && e.call !in InFlight(c, before) && RunsBounded(c, before, m)
    ensures RunsBounded(c, h, m)
  {
    hide Bounded, InFlight, After, Admitted, MovesOut, Begin;
    BeganCounts(c, before, h, e);
    BeginBounded(c, After(c, before), Admitted(c, before), |InFlight(c, before)|, MovesOut(c, before), m, e.at);
  }

  lemma FailedBounded(c: Config, before: History, h: History, e: Event, m: nat)
    requires c.Valid() && h == before + [e] && e.Fails() && e.call in InFlight(c, before) && RunsBounded(c, before, m)
    requires |InFlight(c, before)| <= m
    ensures RunsBounded(c, h, m)
  {
    hide Bounded, InFlight, After, Admitted, MovesOut, Finish;
    FailedCounts(c, before, h, e);
    FailureBounded(c, After(c, before), Admitted(c, before), |InFlight(c, before)|, MovesOut(c, before), m, e.at);
  }

  lemma {:induction false} RunBounded(c: Config, h: History, m: nat)
    requires c.Valid() && m >= 1 && Executable(c, h) && AllFail(h) && AtMostInFlight(c, h, m)
    ensures RunsBounded(c, h, m)
  {
    if h == [] {
      NoneBounded(c, m);
    } else {
      var before, last := h[..|h| - 1], h[|h| - 1];
      hide Executable, AllFail, AtMostInFlight, RunsBounded, InFlight;
      LastEvent(c, h, m);
      RunBounded(c, before, m);
      if last.Began? {
        BeganBounded(c, before, h, last, m);
      } else {
        FailedBounded(c, before, h, last, m);
      }
    }
  }

  /** Each move out of Open waits one more timeout. */
  lemma {:induction false} MovesWait(c: Config, h: History, from: real)
    requires c.Valid() && Sorted(h) && AllFail(h) && (h != [] ==> from <= h[0].at)
    ensures var k := MovesOut(c, h);
            && (After(c, h).state == Open ==> from + Timeouts(c, k) <= After(c, h).lastFailure)
            && (k > 0 ==> h != [] && from + Timeouts(c, k) < h[|h| - 1].at)
  {
    hide Timeouts;
    if h == [] {
    } else {
      var before, last := h[..|h| - 1], h[|h| - 1];
      MovesWait(c, before, from);
      TimeoutsNext(c, MovesOut(c, before));
      TimeoutsNext(c, 0);
      assert !last.Succeeds() && from <= last.at;
      if before != [] {
        assert before[|before| - 1].at <= last.at;
      }
    }
  }

  lemma PhasesGrow(m: nat, k: int, n: int)
    requires k <= n
    ensures Phases(m, k) <= Phases(m, n)
  {
  }

  lemma BoundedAdmissions(c: Config, b: Breaker, admitted: int, inFlight: nat, moves: nat, m: nat)
    requires c.Valid() && Bounded(c, b, admitted, inFlight, moves, m) && inFlight <= m
    ensures admitted <= c.failureThreshold + m - 1 + Phases(m, moves)
  {
    hide Phases;
    PhasesNext(m, moves - 1);
    PhasesNext(m, 0);
  }

  /** With no more than m calls in flight at once, a breaker fresh at `from` lets at most
      failureThreshold + m - 1 calls through to a failing downstream before it opens, and at most m more each time it
      moves out of Open, which it does at most floor(span / timeout) times by from + span. */
  lemma OverlappingAdmissions(c: Config, h: History, m: nat, from: real, span: real)
    requires c.Valid() && c.timeout > 0.0 && span >= 0.0 && m >= 1
    requires Sorted(h) && Executable(c, h) && AllFail(h) && AtMostInFlight(c, h, m)
    requires forall e | e in h :: from <= e.at <= from + span
    ensures Admitted(c, h) <= c.failureThreshold + m - 1 + m * MovesOut(c, h)
    ensures MovesOut(c, h) <= (span / c.timeout).Floor
    ensures Admitted(c, h) <= c.failureThreshold + m - 1 + m * (span / c.timeout).Floor
  {
    var k, n := MovesOut(c, h), (span / c.timeout).Floor;
    assert |InFlight(c, h)| <= m by {
      assert h[..|h|] == h;
    }
    assert h != [] ==> h[0] in h && h[|h| - 1] in h;
    MovesWait(c, h, from);
    hide Timeouts, Sorted, Executable, AllFail, AtMostInFlight, Admitted, InFlight, After, MovesOut;
    if k > 0 {
      WholeTimeouts(c, k, span);
    } else {
      NoTimeouts(c, span);
    }
    RunBounded(c, h, m);
    BoundedAdmissions(c, After(c, h), Admitted(c, h), |InFlight(c, h)|, k, m);
    PhasesGrow(m, k, n);
  }

  /** So the calls that are admitted make at most maxAttempts times as many calls of the downstream. */
  lemma OverlappingLoad(c: Config, retry: RetryConfig, h: History, m: nat, from: real, span: real)
    requires c.Valid() && c.timeout > 0.0 && span >= 0.0 && m >= 1
    requires Sorted(h) && Executable(c, h) && AllFail(h) && AtMostInFlight(c, h, m)
    requires forall e | e in h :: from <= e.at <= from + span
    ensures Admitted(c, h) * Attempts(retry)
         <= (c.failureThreshold + m - 1 + m * (span / c.timeout).Floor) * Attempts(retry)
  {
    OverlappingAdmissions(c, h, m, from, span);
    TimesMonotone(Admitted(c, h), c.failureThreshold + m - 1 + m * (span / c.timeout).Floor, Attempts(retry));
  }
}

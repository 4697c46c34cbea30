/** The circuit breaker of pkg/resilience (pkg/resilience/resilience.go, lines 21-137).
    `Execute` holds its lock twice, before and after the protected call, so a history is an
    interleaving of begin and finish steps with any number of calls in flight. */
module Breakers {
  import opened Counting
  import Remainders

  datatype State = Closed | Open | HalfOpen

  datatype Config = Config(failureThreshold: int, successThreshold: int, timeout: real) {
    /** Thresholds of at least one, as in every configuration of the repository. */
    predicate Valid() {
      failureThreshold >= 1 && successThreshold >= 1
    }
  }

  datatype Breaker = Breaker(
    state: State,
    failures: int,
    successes: int,
    lastFailure: real,
    totalRequests: int,
    totalFailures: int,
    totalSuccesses: int)

  /** The time 0.0 stands for Go's zero time; it is never read before a failure overwrites it. */
  const INITIAL := Breaker(Closed, 0, 0, 0.0, 0, 0, 0)

  /** The first locked section of Execute: is the call admitted? */
  function Begin(c: Config, b: Breaker, now: real): (Breaker, bool) {
    var counted := b.(totalRequests := b.totalRequests + 1);
    if b.state != Open then (counted, true)
    else if now - b.lastFailure > c.timeout then (counted.(state := HalfOpen, successes := 0), true)
    else (counted, false)
  }

  /** The second locked section of Execute, for an admitted call that failed or succeeded. */
  function Finish(c: Config, b: Breaker, failed: bool, now: real): Breaker {
    if failed then
      var b' := b.(
        totalFailures := b.totalFailures + 1, failures := b.failures + 1, successes := 0, lastFailure := now);
      if b.state == HalfOpen || b'.failures >= c.failureThreshold then b'.(state := Open, failures := 0) else b'
    else
      var b' := b.(totalSuccesses := b.totalSuccesses + 1, failures := 0);
      if b.state != HalfOpen then b'
      else if b.successes + 1 >= c.successThreshold then b'.(state := Closed, successes := 0)
      else b'.(successes := b.successes + 1)
  }

  class CircuitBreaker {
    const cfg: Config
    var state: State
    var failures: int
    var successes: int
    var lastFailure: real
    var totalRequests: int
    var totalFailures: int
    var totalSuccesses: int

    constructor (cfg: Config)
      ensures this.cfg == cfg && View() == INITIAL
    {
      this.cfg := cfg;
      state, failures, successes, lastFailure := Closed, 0, 0, 0.0;
      totalRequests, totalFailures, totalSuccesses := 0, 0, 0;
    }

    function View(): Breaker
      reads this
    {
      Breaker(state, failures, successes, lastFailure, totalRequests, totalFailures, totalSuccesses)
    }

    method BeginExecute(now: real) returns (admitted: bool)
      modifies this
      ensures (View(), admitted) == Begin(cfg, old(View()), now)
    {
      totalRequests := totalRequests + 1;
      if state == Open {
        if now - lastFailure > cfg.timeout {
          state := HalfOpen;
          successes := 0;
        } else {
          return false;
        }
      }
      return true;
    }

    method FinishExecute(failed: bool, now: real)
      modifies this
      ensures View() == Finish(cfg, old(View()), failed, now)
    {
      if failed {
        totalFailures := totalFailures + 1;
        failures := failures + 1;
        successes := 0;
        lastFailure := now;
        if state == HalfOpen || failures >= cfg.failureThreshold {
          state := Open;
          failures := 0;
        }
        return;
      }
      totalSuccesses := totalSuccesses + 1;
      failures := 0;
      if state == HalfOpen {
        successes := successes + 1;
        if successes >= cfg.successThreshold {
          state := Closed;
          successes := 0;
        }
      }
    }
  }

  // ---- Histories ----

  /** `call` names the call of Execute that takes the step. */
  datatype Event =
    | Began(call: nat, at: real)
    | Finished(call: nat, at: real, failed: bool)
  {
    predicate Fails() {
      Finished? && failed
    }

    predicate Succeeds() {
      Finished? && !failed
    }
  }

  type History = seq<Event>

  function Step(c: Config, b: Breaker, e: Event): Breaker {
    match e
    case Began(_, at) => Begin(c, b, at).0
    case Finished(_, at, failed) => Finish(c, b, failed, at)
  }

  function After(c: Config, h: History): Breaker {
    if h == [] then INITIAL else Step(c, After(c, h[..|h| - 1]), h[|h| - 1])
  }

  ghost predicate Sorted(h: History) {
    forall i, j | 0 <= i <= j < |h| :: h[i].at <= h[j].at
  }

  /** The begin steps that were admitted (or refused). */
  function Begins(c: Config, h: History, admitted: bool): nat {
    if h == [] then 0
    else
      var before, last := h[..|h| - 1], h[|h| - 1];
      Begins(c, before, admitted)
        + (if last.Began? && Begin(c, After(c, before), last.at).1 == admitted then 1 else 0)
  }

  /** Failed completions at the end of h, with no success among them, whatever the breaker did. */
  function Streak(h: History): nat {
    if h == [] then 0
    else
      var before, last := h[..|h| - 1], h[|h| - 1];
      if last.Succeeds() then 0 else Streak(before) + (if last.Fails() then 1 else 0)
  }

  /** Failed completions since the last success and the last move into Open, whichever is later. */
  function FailuresSince(c: Config, h: History): nat {
    if h == [] then 0
    else
      var before, last := h[..|h| - 1], h[|h| - 1];
      if last.Began? then FailuresSince(c, before)
      else if last.Succeeds() || (After(c, before).state != Open && After(c, h).state == Open) then 0
      else FailuresSince(c, before) + 1
  }

  lemma Unfold(c: Config, h: History, e: Event)
    ensures After(c, h + [e]) == Step(c, After(c, h), e)
    ensures Streak(h + [e]) == if e.Succeeds() then 0 else Streak(h) + (if e.Fails() then 1 else 0)
  {
    assert (h + [e])[..|h|] == h;
  }

  // ---- Calls in flight ----

  /** The calls that were admitted and have not finished. */
  function InFlight(c: Config, h: History): set<nat> {
    if h == [] then {}
    else
      var before, last := h[..|h| - 1], h[|h| - 1];
      if last.Finished? then InFlight(c, before) - {last.call}
      else InFlight(c, before) + (if Begin(c, After(c, before), last.at).1 then {last.call} else {})
  }

  /** A call begins under a name that no call in flight has, and only calls in flight finish. */
  ghost predicate Possible(c: Config, h: History, e: Event) {
    if e.Began? then e.call !in InFlight(c, h) else e.call in InFlight(c, h)
  }

  ghost predicate Executable(c: Config, h: History) {
    forall n | 0 <= n < |h| :: Possible(c, h[..n], h[n])
  }

  /** Event i admitted the call, and nothing since has finished it. */
  ghost predicate UnderwaySince(c: Config, h: History, call: nat, i: nat) {
    && i < |h| && h[i].Began? && h[i].call == call
    && Begin(c, After(c, h[..i]), h[i].at).1
    && forall j | i < j < |h| :: !(h[j].Finished? && h[j].call == call)
  }

  lemma {:induction false} InFlightExactly(c: Config, h: History, call: nat)
    ensures call in InFlight(c, h) <==> exists i: nat :: UnderwaySince(c, h, call, i)
  {
    if h == [] {
    } else {
      var before, last := h[..|h| - 1], h[|h| - 1];
      InFlightExactly(c, before, call);
      assert forall i | 0 <= i <= |before| :: before[..i] == h[..i];
      if call in InFlight(c, h) {
        if last.Began? && last.call == call && Begin(c, After(c, before), last.at).1 {
          assert UnderwaySince(c, h, call, |h| - 1);
        } else {
          var i: nat :| UnderwaySince(c, before, call, i);
          assert UnderwaySince(c, h, call, i);
        }
      } else if i: nat :| UnderwaySince(c, h, call, i) {
        if i < |before| {
          assert UnderwaySince(c, before, call, i);
        }
      }
    }
  }

  lemma ExecutableNext(c: Config, h: History, e: Event)
    requires Executable(c, h) && Possible(c, h, e)
    ensures Executable(c, h + [e])
    ensures InFlight(c, h + [e]) ==
      if e.Finished? then InFlight(c, h) - {e.call}
      else InFlight(c, h) + (if Begin(c, After(c, h), e.at).1 then {e.call} else {})
  {
    hide Possible;
    var longer := h + [e];
    assert longer[..|h|] == h;
    assert forall n | 0 <= n <= |h| :: longer[..n] == h[..n];
  }

  lemma ExecutablePrefix(c: Config, h: History)
    requires h != [] && Executable(c, h)
    ensures var before := h[..|h| - 1]; Executable(c, before) && Possible(c, before, h[|h| - 1])
  {
    hide Possible;
    var before := h[..|h| - 1];
    assert forall i | 0 <= i <= |before| :: before[..i] == h[..i];
  }

  /** The totals count completions and requests. Every request of an execution was refused, succeeded, failed or
      is in flight, and no two calls in flight share a name. */
  lemma {:induction false} TotalsAreExact(c: Config, h: History)
    ensures var b := After(c, h);
            && b.totalSuccesses == Tally(h, (e: Event) => e.Succeeds())
            && b.totalFailures == Tally(h, (e: Event) => e.Fails())
            && b.totalRequests == Begins(c, h, true) + Begins(c, h, false)
    ensures Executable(c, h) ==>
      var b := After(c, h);
      b.totalRequests == b.totalSuccesses + b.totalFailures + Begins(c, h, false) + |InFlight(c, h)|
  {
    if h == [] {
    } else {
      TotalsAreExact(c, h[..|h| - 1]);
      if Executable(c, h) {
        ExecutablePrefix(c, h);
      }
    }
  }

  ghost predicate CountersFit(c: Config, b: Breaker, since: nat, streak: nat)
    requires c.Valid()
  {
    && b.failures == since % c.failureThreshold
    && 0 <= b.failures < c.failureThreshold
    && (b.state == Closed ==> b.failures == streak)
    && 0 <= b.successes < c.successThreshold
    && (b.state != HalfOpen ==> b.successes == 0)
    && b.failures <= streak
  }

  lemma FailureFits(c: Config, b: Breaker, since: nat, streak: nat, at: real)
    requires c.Valid() && CountersFit(c, b, since, streak)
    ensures var t := Finish(c, b, true, at);
            CountersFit(c, t, if b.state != Open && t.state == Open then 0 else since + 1, streak + 1)
  {
    Remainders.NextRemainder(since, c.failureThreshold);
  }

  lemma OtherFits(c: Config, b: Breaker, since: nat, streak: nat, e: Event)
    requires c.Valid() && CountersFit(c, b, since, streak) && !e.Fails()
    ensures if e.Began? then CountersFit(c, Step(c, b, e), since, streak) else CountersFit(c, Step(c, b, e), 0, 0)
  {
  }

  /** In every state the counters summarise the history; a closed breaker's count is the plain streak. */
  lemma {:induction false} CountersAreExact(c: Config, h: History)
    requires c.Valid()
    ensures var b := After(c, h);
            && b.failures == FailuresSince(c, h) % c.failureThreshold
            && 0 <= b.failures < c.failureThreshold
            && (b.state == Closed ==> b.failures == Streak(h))
            && 0 <= b.successes < c.successThreshold
            && (b.state != HalfOpen ==> b.successes == 0)
            && b.failures <= Streak(h)
  {
    if h == [] {
    } else {
      var before, last := h[..|h| - 1], h[|h| - 1];
      CountersAreExact(c, before);
      var since, streak := FailuresSince(c, before), Streak(before);
      hide Begin, Finish;
      assert CountersFit(c, After(c, h), FailuresSince(c, h), Streak(h)) by {
        assert CountersFit(c, After(c, before), since, streak);
        hide CountersFit;
        if last.Fails() {
          FailureFits(c, After(c, before), since, streak, last.at);
        } else {
          OtherFits(c, After(c, before), since, streak, last);
        }
      }
      hide After, FailuresSince, Streak;
    }
  }

  // ---- Time ----

  /** The breaker's lastFailure is the time of the latest failed completion, stragglers included. */
  lemma {:induction false} LastFailureIsLatest(c: Config, h: History)
    requires Sorted(h)
    ensures After(c, h).state == Open ==> exists i | 0 <= i < |h| :: h[i].Fails()
    ensures (exists i | 0 <= i < |h| :: h[i].Fails()) ==>
      exists i | 0 <= i < |h| :: h[i].Fails() && h[i].at == After(c, h).lastFailure
    ensures forall i | 0 <= i < |h| :: h[i].Fails() ==> h[i].at <= After(c, h).lastFailure
  {
    if h == [] {
    } else {
      var before, last := h[..|h| - 1], h[|h| - 1];
      LastFailureIsLatest(c, before);
      if last.Fails() {
        assert h[|h| - 1].Fails() && h[|h| - 1].at == After(c, h).lastFailure;
      } else {
        assert forall i | 0 <= i < |before| :: before[i] == h[i];
      }
    }
  }

  /** An open breaker lets a request through exactly when every failure so far is more than timeout ago;
      a request is refused exactly when the breaker is open and some failure is no older than that. */
  lemma {:induction false} AdmitsAfterTimeout(c: Config, h: History, now: real)
    requires Sorted(h)
    ensures var admitted := Begin(c, After(c, h), now).1;
            && (After(c, h).state == Open ==>
                 (admitted <==> forall i | 0 <= i < |h| :: h[i].Fails() ==> now - h[i].at > c.timeout))
            && (!admitted <==>
                 After(c, h).state == Open && exists i | 0 <= i < |h| :: h[i].Fails() && now - h[i].at <= c.timeout)
  {
    LastFailureIsLatest(c, h);
  }

  // ---- Half-open ----

  /** From event m on, h is one half-open period: m let a request out of Open, and nothing left HalfOpen since. */
  ghost predicate HalfOpenSince(c: Config, h: History, m: nat) {
    && m < |h|
    && h[m].Began?
    && After(c, h[..m]).state == Open
    && (forall i | m < i <= |h| :: After(c, h[..i]).state == HalfOpen)
  }

  /** A half-open breaker's successes are exactly the completions of its half-open period, none a failure. */
  lemma {:induction false} SuccessesSinceHalfOpen(c: Config, h: History) returns (m: nat)
    requires c.Valid() && After(c, h).state == HalfOpen
    ensures HalfOpenSince(c, h, m)
    ensures forall e | e in h[m..] :: !e.Fails()
    ensures After(c, h).successes == Tally(h[m..], (e: Event) => e.Finished?) < c.successThreshold
  {
    var before, last := h[..|h| - 1], h[|h| - 1];
    assert forall i | 0 <= i <= |before| :: before[..i] == h[..i];
    assert h[..|h|] == h;
    if After(c, before).state == Open {
      m := |h| - 1;
      assert h[m..] == [last];
      assert Tally([last], (e: Event) => e.Finished?) == 0 by {
        assert [last][..0] == [];
      }
    } else {
      m := SuccessesSinceHalfOpen(c, before);
      assert h[m..][..|h[m..]| - 1] == before[m..];
      CountersAreExact(c, before);
    }
  }

  /** The whole machine in terms of its history alone. A closed breaker opens exactly on the completion
      that makes the last failureThreshold ones all failures. An open one becomes half-open exactly on a
      request more than timeout after every failure so far. A half-open one opens on any failure, and
      closes exactly on the success that completes successThreshold of them in its half-open period m. */
  lemma NextState(c: Config, h: History, e: Event) returns (m: nat)
    requires c.Valid() && Sorted(h)
    ensures After(c, h).state == HalfOpen ==>
      HalfOpenSince(c, h, m) && forall x | x in h[m..] :: !x.Fails()
    ensures After(c, h + [e]).state ==
      match After(c, h).state
      case Closed => if e.Fails() && Streak(h + [e]) == c.failureThreshold then Open else Closed
      case Open =>
        if e.Began? && (forall i | 0 <= i < |h| :: h[i].Fails() ==> e.at - h[i].at > c.timeout) then HalfOpen
        else Open
      case HalfOpen =>
        if e.Fails() then Open
        else if e.Succeeds() && Tally((h + [e])[m..], (x: Event) => x.Finished?) == c.successThreshold then Closed
        else HalfOpen
  {
    Unfold(c, h, e);
    CountersAreExact(c, h);
    m := 0;
    match After(c, h).state
    case Closed =>
    case Open =>
      AdmitsAfterTimeout(c, h, e.at);
    case HalfOpen =>
      m := SuccessesSinceHalfOpen(c, h);
      var all := (h + [e])[m..];
      assert all == h[m..] + [e] && all[..|all| - 1] == h[m..];
  }
}

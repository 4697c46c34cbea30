/** The gateway's own circuit breaker (services/api-gateway/cmd/main.go, lines 103-185), what
    proxyHandler records on it (lines 299-337), and its equivalence with the breaker of pkg/resilience. */
module GatewayBreakers {
  import opened Breakers

  datatype Gateway = Gateway(state: State, failures: int, successes: int, lastFailure: real)

  const FRESH := Gateway(Closed, 0, 0, 0.0)

  function Allow(c: Config, g: Gateway, now: real): (Gateway, bool) {
    if g.state != Open then (g, true)
    else if now - g.lastFailure > c.timeout then (g.(state := HalfOpen, successes := 0), true)
    else (g, false)
  }

  /** Unlike the package, closing leaves the count of successes as it is. */
  function RecordSuccess(c: Config, g: Gateway): Gateway {
    var g' := g.(failures := 0);
    if g.state != HalfOpen then g'
    else if g.successes + 1 >= c.successThreshold then g'.(state := Closed, successes := g.successes + 1)
    else g'.(successes := g.successes + 1)
  }

  function RecordFailure(c: Config, g: Gateway, now: real): Gateway {
    var g' := g.(failures := g.failures + 1, successes := 0, lastFailure := now);
    if g.state == HalfOpen || g'.failures >= c.failureThreshold then g'.(state := Open, failures := 0) else g'
  }

  /** What one forwarded request comes to. */
  datatype Outcome =
    | TransportError
    | Response(status: int)

  /** What proxyHandler records for an admitted request. A transport error is recorded twice: by the
      error handler, and again because that handler answers 502 through the wrapped writer. */
  function Record(c: Config, g: Gateway, o: Outcome, now: real): Gateway {
    match o
    case TransportError => RecordFailure(c, RecordFailure(c, g, now), now)
    case Response(status) => if status < 500 then RecordSuccess(c, g) else RecordFailure(c, g, now)
  }

  class CircuitBreaker {
    const cfg: Config
    var state: State
    var failures: int
    var successes: int
    var lastFailure: real

    constructor (cfg: Config)
      ensures this.cfg == cfg && View() == FRESH
    {
      this.cfg := cfg;
      state, failures, successes, lastFailure := Closed, 0, 0, 0.0;
    }

    function View(): Gateway
      reads this
    {
      Gateway(state, failures, successes, lastFailure)
    }

    method Admit(now: real) returns (ok: bool)
      modifies this
      ensures (View(), ok) == Allow(cfg, old(View()), now)
    {
      if state == Open {
        if now - lastFailure > cfg.timeout {
          state := HalfOpen;
          successes := 0;
          return true;
        }
        return false;
      }
      return true;
    }

    method Succeeded()
      modifies this
      ensures View() == RecordSuccess(cfg, old(View()))
    {
      failures := 0;
      if state == HalfOpen {
        successes := successes + 1;
        if successes >= cfg.successThreshold {
          state := Closed;
        }
      }
    }

    method Failed(now: real)
      modifies this
      ensures View() == RecordFailure(cfg, old(View()), now)
    {
      failures := failures + 1;
      successes := 0;
      lastFailure := now;
      if state == HalfOpen || failures >= cfg.failureThreshold {
        state := Open;
        failures := 0;
      }
    }

    method Forwarded(o: Outcome, now: real)
      modifies this
      ensures View() == Record(cfg, old(View()), o, now)
    {
      var status := 200;
      match o {
        case TransportError =>
          Failed(now);
          status := 502;
        case Response(s) =>
          status := s;
      }
      if status < 500 {
        Succeeded();
      } else {
        Failed(now);
      }
    }
  }

  // ---- The two breakers are one machine ----

  function GatewayStep(c: Config, g: Gateway, e: Event): Gateway {
    match e
    case Began(_, at) => Allow(c, g, at).0
    case Finished(_, at, failed) => if failed then RecordFailure(c, g, at) else RecordSuccess(c, g)
  }

  function GatewayAfter(c: Config, h: History): Gateway {
    if h == [] then FRESH else GatewayStep(c, GatewayAfter(c, h[..|h| - 1]), h[|h| - 1])
  }

  /** Over every interleaving of begins and completions the gateway's breaker and the package's are in the
      same state and answer every request alike; outside half-open the gateway's success count may only
      differ by the stale successThreshold it closed with. */
  lemma {:induction false} SameMachine(c: Config, h: History)
    ensures var b, g := After(c, h), GatewayAfter(c, h);
            && b.state == g.state
            && b.failures == g.failures
            && b.lastFailure == g.lastFailure
            && (b.state == HalfOpen ==> b.successes == g.successes)
            && forall now :: Begin(c, b, now).1 == Allow(c, g, now).1
    ensures c.Valid() ==>
      var g := GatewayAfter(c, h);
      && (g.state == HalfOpen ==> 0 <= g.successes < c.successThreshold)
      && (g.state != HalfOpen ==> g.successes == 0 || (g.state == Closed && g.successes == c.successThreshold))
  {
    if h == [] {
    } else {
      SameMachine(c, h[..|h| - 1]);
    }
  }

  /** The settings of UpstreamRegistry.Register. */
  const UPSTREAM := Config(5, 2, 30.0)

  lemma GatewayUnfold(c: Config, h: History, e: Event)
    ensures GatewayAfter(c, h + [e]) == GatewayStep(c, GatewayAfter(c, h), e)
    ensures After(c, h + [e]) == Step(c, After(c, h), e)
  {
    assert (h + [e])[..|h|] == h;
  }

  /** One more call, admitted and finished at one time while no other is in flight. */
  lemma OneMoreCall(c: Config, h: History, at: real, failed: bool) returns (longer: History)
    requires Executable(c, h) && InFlight(c, h) == {} && Begin(c, After(c, h), at).1
    ensures Executable(c, longer) && InFlight(c, longer) == {}
    ensures After(c, longer) == Finish(c, Begin(c, After(c, h), at).0, failed, at)
    ensures GatewayAfter(c, longer)
         == var g := Allow(c, GatewayAfter(c, h), at).0; if failed then RecordFailure(c, g, at) else RecordSuccess(c, g)
  {
    var began, finished := Began(0, at), Finished(0, at, failed);
    GatewayUnfold(c, h, began);
    GatewayUnfold(c, h + [began], finished);
    ExecutableNext(c, h, began);
    ExecutableNext(c, h + [began], finished);
    longer := h + [began] + [finished];
  }

  /** The stale count is real: after closing, the two breakers' counts of successes differ. */
  lemma StaleSuccesses() returns (h: History)
    ensures Executable(UPSTREAM, h)
    ensures After(UPSTREAM, h).successes == 0 && GatewayAfter(UPSTREAM, h).successes == 2
  {
    h := [];
    h := OneMoreCall(UPSTREAM, h, 0.0, true);
    h := OneMoreCall(UPSTREAM, h, 0.0, true);
    h := OneMoreCall(UPSTREAM, h, 0.0, true);
    h := OneMoreCall(UPSTREAM, h, 0.0, true);
    h := OneMoreCall(UPSTREAM, h, 0.0, true);
    h := OneMoreCall(UPSTREAM, h, 31.0, false);
    h := OneMoreCall(UPSTREAM, h, 31.0, false);
  }

  // ---- Serial traffic ----

  datatype Request = Request(outcome: Outcome, at: real) {
    predicate Fails() {
      outcome.TransportError? || outcome.status >= 500
    }
  }

  /** One request served to the end before the next: asked for, and recorded if admitted. */
  function Serve(c: Config, g: Gateway, r: Request): Gateway {
    var (asked, ok) := Allow(c, g, r.at);
    if ok then Record(c, asked, r.outcome, r.at) else asked
  }

  function ServedFrom(c: Config, g: Gateway, rs: seq<Request>): Gateway {
    if rs == [] then g else Serve(c, ServedFrom(c, g, rs[..|rs| - 1]), rs[|rs| - 1])
  }

  function Served(c: Config, rs: seq<Request>): Gateway {
    ServedFrom(c, FRESH, rs)
  }

  /** The failures that the requests since the last response below 500 weigh: two for each transport error, one for
      each response of 500 or more. */
  function WeightSince(rs: seq<Request>): nat {
    if rs == [] then 0
    else
      var before, last := rs[..|rs| - 1], rs[|rs| - 1];
      if !last.Fails() then 0 else WeightSince(before) + (if last.outcome.TransportError? then 2 else 1)
  }

  ghost predicate ClosedThroughout(c: Config, rs: seq<Request>) {
    forall n | 0 <= n <= |rs| :: Served(c, rs[..n]).state == Closed
  }

  ghost predicate LightThroughout(c: Config, rs: seq<Request>) {
    forall n | 0 <= n <= |rs| :: WeightSince(rs[..n]) < c.failureThreshold
  }

  lemma PrefixesOfLast(c: Config, rs: seq<Request>)
    requires rs != []
    ensures var before := rs[..|rs| - 1];
            && (ClosedThroughout(c, rs) <==> ClosedThroughout(c, before) && Served(c, rs).state == Closed)
            && (LightThroughout(c, rs) <==> LightThroughout(c, before) && WeightSince(rs) < c.failureThreshold)
            && (ClosedThroughout(c, before) ==> Served(c, before).state == Closed)
  {
    hide Served, WeightSince;
    var before := rs[..|rs| - 1];
    assert forall n | 0 <= n <= |before| :: before[..n] == rs[..n];
    assert rs[..|rs|] == rs && before[..|before|] == before;
  }

  lemma ServeClosed(c: Config, g: Gateway, r: Request, weight: nat)
    requires c.Valid() && g.state == Closed && g.failures == weight < c.failureThreshold
    ensures var after := if !r.Fails() then 0 else weight + (if r.outcome.TransportError? then 2 else 1);
            && (Serve(c, g, r).state == Closed <==> after < c.failureThreshold)
            && (after < c.failureThreshold ==> Serve(c, g, r).failures == after)
            && (after >= c.failureThreshold ==> Serve(c, g, r).state == Open)
  {
  }

  /** A fresh breaker stays closed through a run of requests, whatever their outcomes, exactly while the weight of
      those since the last response below 500 stays below the threshold; it then opens. */
  lemma {:induction false} OpensOnDoubledErrors(c: Config, rs: seq<Request>)
    requires c.Valid()
    ensures ClosedThroughout(c, rs) <==> LightThroughout(c, rs)
    ensures ClosedThroughout(c, rs) ==> Served(c, rs).failures == WeightSince(rs)
    ensures rs != [] && !ClosedThroughout(c, rs) && ClosedThroughout(c, rs[..|rs| - 1]) ==> Served(c, rs).state == Open
  {
    if rs == [] {
      assert rs[..0] == rs;
    } else {
      var before, last := rs[..|rs| - 1], rs[|rs| - 1];
      OpensOnDoubledErrors(c, before);
      PrefixesOfLast(c, rs);
      if ClosedThroughout(c, before) {
        assert WeightSince(before) < c.failureThreshold by {
          assert before[..|before|] == before;
        }
        ServeClosed(c, Served(c, before), last, WeightSince(before));
      }
      hide ClosedThroughout, LightThroughout, Serve;
    }
  }

  /** The number of requests that end one way. */
  function CountOf(rs: seq<Request>, transport: bool): nat {
    if rs == [] then 0
    else CountOf(rs[..|rs| - 1], transport) + (if rs[|rs| - 1].outcome.TransportError? == transport then 1 else 0)
  }

  /** In a run without a response below 500 the weight is twice the transport errors plus the error responses. */
  lemma {:induction false} WeightWithoutSuccess(rs: seq<Request>)
    requires forall r | r in rs :: r.Fails()
    ensures WeightSince(rs) == 2 * CountOf(rs, true) + CountOf(rs, false)
  {
    if rs == [] {
    } else {
      assert rs[|rs| - 1] in rs;
      WeightWithoutSuccess(rs[..|rs| - 1]);
    }
  }

  /** From half-open, exactly successThreshold responses below 500 in a row close the breaker. */
  lemma {:induction false} HalfOpenCloses(c: Config, g: Gateway, rs: seq<Request>)
    requires g.state == HalfOpen && g.successes < c.successThreshold && forall r | r in rs :: !r.Fails()
    ensures ServedFrom(c, g, rs).state == if g.successes + |rs| >= c.successThreshold then Closed else HalfOpen
    ensures g.successes + |rs| < c.successThreshold ==> ServedFrom(c, g, rs).successes == g.successes + |rs|
  {
    if rs == [] {
    } else {
      assert rs[|rs| - 1] in rs;
      HalfOpenCloses(c, g, rs[..|rs| - 1]);
    }
  }

  lemma {:induction false} ServedFirst(c: Config, g: Gateway, rs: seq<Request>)
    requires rs != []
    ensures ServedFrom(c, g, rs) == ServedFrom(c, Serve(c, g, rs[0]), rs[1..])
  {
    if |rs| == 1 {
      assert rs[..0] == [];
    } else {
      ServedFirst(c, g, rs[..|rs| - 1]);
      assert rs[..|rs| - 1][1..] == rs[1..][..|rs| - 2];
    }
  }

  /** An open breaker refuses all requests within timeout of its last failure. The first one after that is a probe:
      if it fails the breaker is open again, and if it and the next ones are answered below 500 the breaker closes
      on the successThreshold-th. */
  lemma OpenRecovers(c: Config, g: Gateway, rs: seq<Request>)
    requires c.Valid() && g.state == Open && rs != []
    ensures rs[0].at - g.lastFailure <= c.timeout ==> Serve(c, g, rs[0]) == g
    ensures rs[0].at - g.lastFailure > c.timeout && rs[0].Fails() ==>
      Serve(c, g, rs[0]).state == Open && Serve(c, g, rs[0]).lastFailure == rs[0].at
    ensures rs[0].at - g.lastFailure > c.timeout && (forall r | r in rs :: !r.Fails()) ==>
      ServedFrom(c, g, rs).state == if |rs| >= c.successThreshold then Closed else HalfOpen
  {
    if rs[0].at - g.lastFailure > c.timeout && forall r | r in rs :: !r.Fails() {
      var half := Allow(c, g, rs[0].at).0;
      ServedFirst(c, g, rs);
      ServedFirst(c, half, rs);
      assert Serve(c, g, rs[0]) == Serve(c, half, rs[0]);
      HalfOpenCloses(c, half, rs);
    }
  }

  /** The documented five failures in a row open an upstream's breaker only if none is a transport error:
      three transport errors are enough. */
  lemma ThreeTransportErrorsOpen(a: Request, b: Request, d: Request)
    requires a.outcome.TransportError? && b.outcome.TransportError? && d.outcome.TransportError?
    ensures Served(UPSTREAM, [a, b, d]).state == Open
  {
    var rs := [a, b, d];
    assert rs[..2] == [a, b] && [a, b][..1] == [a] && [a][..0] == [];
    assert ServedFrom(UPSTREAM, FRESH, []) == FRESH;
    assert ServedFrom(UPSTREAM, FRESH, [a]) == Serve(UPSTREAM, FRESH, a);
    assert ServedFrom(UPSTREAM, FRESH, [a, b]) == Serve(UPSTREAM, Serve(UPSTREAM, FRESH, a), b);
    assert Served(UPSTREAM, [a]) == Gateway(Closed, 2, 0, a.at);
    assert Served(UPSTREAM, [a, b]) == Gateway(Closed, 4, 0, b.at);
  }

  lemma {:induction false} OneEach(rs: seq<Request>)
    requires forall r | r in rs :: r.outcome.Response? && r.outcome.status >= 500
    ensures WeightSince(rs) == |rs|
  {
    if rs == [] {
    } else {
      assert rs[|rs| - 1] in rs;
      OneEach(rs[..|rs| - 1]);
    }
  }

  /** An upstream's breaker opens on the fifth response of 500 or more in a row, not before; thirty seconds later it
      lets a request through, and two responses below 500 close it. */
  lemma UpstreamSettings(rs: seq<Request>, g: Gateway, a: Request, b: Request)
    requires forall r | r in rs :: r.outcome.Response? && r.outcome.status >= 500
    requires g.state == Open && !a.Fails() && !b.Fails()
    ensures ClosedThroughout(UPSTREAM, rs) <==> |rs| < 5
    ensures Serve(UPSTREAM, g, a).state == if a.at - g.lastFailure > 30.0 then HalfOpen else Open
    ensures a.at - g.lastFailure > 30.0 ==> ServedFrom(UPSTREAM, g, [a, b]).state == Closed
  {
    OpensOnDoubledErrors(UPSTREAM, rs);
    forall n | 0 <= n <= |rs|
      ensures WeightSince(rs[..n]) == n
    {
      assert forall r | r in rs[..n] :: r in rs;
      OneEach(rs[..n]);
    }
    assert |rs| >= 5 ==> WeightSince(rs[..5]) == 5;
    OpenRecovers(UPSTREAM, g, [a]);
    OpenRecovers(UPSTREAM, g, [a, b]);
  }
}

/** The gateway's rate limiter: one token bucket for each client, with a background sweep that
    drops buckets idle for more than ten minutes (services/api-gateway/cmd/main.go, lines 57-99).
    The main result says exactly when nobody can tell that buckets are ever dropped. */
module RateLimiters {
  import opened TokenBuckets

  type Buckets = map<string, Level>

  /** Ten minutes, in seconds. */
  const IDLE_LIMIT := 600.0

  /** One call of RateLimiter.Allow. */
  function Touch(p: Limits, m: Buckets, key: string, now: real): (Buckets, bool) {
    var taken := Take(p, if key in m then m[key] else New(p, now), now);
    (m[key := taken.0], taken.1)
  }

  lemma TouchFound(p: Limits, was: Buckets, m: Buckets, key: string, now: real)
    requires m == if key in was then was else was[key := New(p, now)]
    ensures Touch(p, was, key, now) == (m[key := Take(p, m[key], now).0], Take(p, m[key], now).1)
  {
    var taken := Take(p, m[key], now).0;
    assert m[key := taken] == was[key := taken];
  }

  predicate Idle(b: Level, now: real) {
    now - b.lastFill > IDLE_LIMIT
  }

  /** One round of cleanup. */
  function Swept(m: Buckets, now: real): Buckets {
    map k | k in m && !Idle(m[k], now) :: m[k]
  }

  class RateLimiter {
    var buckets: map<string, TokenBucket>
    const rate: real
    const burst: real

    constructor (rate: real, burst: real)
      ensures Valid() && View() == map[] && Params() == Limits(rate, burst)
    {
      this.rate, this.burst := rate, burst;
      buckets := map[];
    }

    function Params(): Limits {
      Limits(rate, burst)
    }

    /** Every bucket has the limiter's rate and burst, and no two clients share one. */
    ghost predicate Valid()
      reads this, buckets.Values
    {
      && (forall k | k in buckets :: buckets[k].Params() == Params())
      && (forall k, l | k in buckets && l in buckets && k != l :: buckets[k] != buckets[l])
    }

    ghost function View(): Buckets
      reads this, buckets.Values
    {
      map k | k in buckets :: buckets[k].View()
    }

    /** Makes the client a full bucket if it has none. */
    method EnsureBucket(key: string, now: real)
      requires Valid()
      modifies this`buckets
      ensures Valid() && key in buckets
      ensures View() == old(if key in buckets then View() else View()[key := New(Params(), now)])
      ensures fresh(buckets.Values - old(buckets.Values))
    {
      if key !in buckets {
        var bucket := new TokenBucket(rate, burst, now);
        assert forall k | k in buckets :: buckets[k] != bucket;
        buckets := buckets[key := bucket];
        assert View() == old(View())[key := New(Params(), now)];
      }
    }

    method UseBucket(key: string, now: real) returns (ok: bool)
      requires Valid() && key in buckets
      modifies buckets[key]
      ensures Valid()
      ensures var taken := Take(Params(), old(View())[key], now);
              View() == old(View())[key := taken.0] && ok == taken.1
    {
      hide Take;
      ok := buckets[key].Allow(now);
    }

    method Allow(key: string, now: real) returns (ok: bool)
      requires Valid()
      modifies this, buckets.Values
      ensures Valid()
      ensures (View(), ok) == Touch(Params(), old(View()), key, now)
      ensures fresh(buckets.Values - old(buckets.Values))
    {
      ghost var was := View();
      EnsureBucket(key, now);
      TouchFound(Params(), was, View(), key, now);
      hide Touch, Take, View;
      ok := UseBucket(key, now);
    }

    method Cleanup(now: real)
      requires Valid()
      modifies this`buckets
      ensures Valid()
      ensures View() == Swept(old(View()), now)
      ensures buckets.Values <= old(buckets.Values)
    {
      var keys := buckets.Keys;
      while keys != {}
        invariant keys <= buckets.Keys <= old(buckets.Keys)
        invariant forall k | k in buckets :: buckets[k] == old(buckets[k])
        invariant forall k | k in old(buckets) && k !in keys :: k in buckets <==> !Idle(old(buckets[k].View()), now)
        decreases keys
      {
        var k :| k in keys;
        keys := keys - {k};
        if now - buckets[k].lastFill > IDLE_LIMIT {
          buckets := buckets - {k};
        }
      }
    }
  }

  // ---- Runs of the limiter ----

  datatype Op =
    | Call(key: string, at: real)
    | Sweep(at: real)

  /** The answer given to one client. */
  datatype Reply = Reply(key: string, ok: bool)

  /** The clock never goes back, starting from `from`. */
  ghost predicate InOrder(ops: seq<Op>, from: real) {
    ops == [] || (from <= ops[0].at && InOrder(ops[1..], ops[0].at))
  }

  /** The replies of a run that starts with buckets m. A limiter that does not evict ignores sweeps. */
  function Replies(p: Limits, m: Buckets, ops: seq<Op>, evict: bool): seq<Reply>
    decreases ops
  {
    if ops == [] then []
    else
      match ops[0]
      case Call(key, at) =>
        var touched := Touch(p, m, key, at);
        [Reply(key, touched.1)] + Replies(p, touched.0, ops[1..], evict)
      case Sweep(at) => Replies(p, if evict then Swept(m, at) else m, ops[1..], evict)
  }

  ghost predicate Full(p: Limits, b: Level, now: real) {
    b.tokens + Gain(p, now - b.lastFill) >= p.burst
  }

  /** What the evicting limiter's buckets e may lack against those of one that never forgets: buckets
      that the time since their last use has filled up again. */
  ghost predicate Coupled(p: Limits, e: Buckets, n: Buckets, now: real) {
    && e.Keys <= n.Keys
    && (forall k | k in n :: n[k].lastFill <= now && n[k].tokens >= 0.0)
    && (forall k | k in n :: if k in e then e[k] == n[k] else Full(p, n[k], now))
  }

  lemma GainMonotone(p: Limits, a: real, b: real)
    requires p.Valid() && a <= b
    ensures Gain(p, a) <= Gain(p, b)
  {
    GainAdds(p, a, b - a);
    GainGrows(p, b - a);
  }

  lemma IdleIsFull(p: Limits, b: Level, now: real)
    requires p.Valid() && p.burst <= IDLE_LIMIT * p.rate
    requires Idle(b, now) && b.tokens >= 0.0
    ensures Full(p, b, now)
  {
    GainMonotone(p, IDLE_LIMIT, now - b.lastFill);
  }

  lemma FullStaysFull(p: Limits, b: Level, now: real, later: real)
    requires p.Valid() && Full(p, b, now) && now <= later
    ensures Full(p, b, later)
  {
    GainMonotone(p, now - b.lastFill, later - b.lastFill);
  }

  /** Time alone keeps the two limiters coupled. */
  lemma CoupledLater(p: Limits, e: Buckets, n: Buckets, now: real, later: real)
    requires p.Valid() && Coupled(p, e, n, now) && now <= later
    ensures Coupled(p, e, n, later)
  {
    forall k | k in n && k !in e
      ensures Full(p, n[k], later)
    {
      FullStaysFull(p, n[k], now, later);
    }
  }

  lemma TakeKeepsTokens(p: Limits, b: Level, now: real)
    requires p.Valid() && b.tokens >= 0.0 && b.lastFill <= now
    ensures var c := Take(p, b, now).0; c.tokens >= 0.0 && c.lastFill == now
  {
    GainGrows(p, now - b.lastFill);
  }

  lemma CoupledTouch(p: Limits, e: Buckets, n: Buckets, key: string, now: real)
    requires p.Valid() && Coupled(p, e, n, now)
    ensures Touch(p, e, key, now).1 == Touch(p, n, key, now).1
    ensures Coupled(p, Touch(p, e, key, now).0, Touch(p, n, key, now).0, now)
  {
    GainGrows(p, 0.0);
    TakeKeepsTokens(p, New(p, now), now);
    if key in n {
      TakeKeepsTokens(p, n[key], now);
      if key !in e {
        assert Refilled(p, n[key], now) == p.burst == Refilled(p, New(p, now), now) by {
          assert Full(p, n[key], now);
          assert Gain(p, 0.0) == 0.0;
        }
      }
    }
  }

  lemma CoupledSweep(p: Limits, e: Buckets, n: Buckets, now: real)
    requires p.Valid() && p.burst <= IDLE_LIMIT * p.rate && Coupled(p, e, n, now)
    ensures Coupled(p, Swept(e, now), n, now)
  {
    forall k | k in n && k !in Swept(e, now)
      ensures Full(p, n[k], now)
    {
      if k in e {
        IdleIsFull(p, n[k], now);
      }
    }
  }

  lemma {:induction false} CoupledReplies(p: Limits, e: Buckets, n: Buckets, ops: seq<Op>, now: real)
    requires p.Valid() && p.burst <= IDLE_LIMIT * p.rate
    requires Coupled(p, e, n, now) && InOrder(ops, now)
    ensures Replies(p, e, ops, true) == Replies(p, n, ops, false)
    decreases ops
  {
    hide Coupled, Touch, Swept;
    if ops == [] {
    } else {
      var at := ops[0].at;
      CoupledLater(p, e, n, now, at);
      match ops[0]
      case Call(key, _) =>
        CoupledTouch(p, e, n, key, at);
        CoupledReplies(p, Touch(p, e, key, at).0, Touch(p, n, key, at).0, ops[1..], at);
      case Sweep(_) =>
        CoupledSweep(p, e, n, at);
        CoupledReplies(p, Swept(e, at), n, ops[1..], at);
    }
  }

  /** With a burst below one token every call is refused, whatever the buckets hold. */
  lemma {:induction false} TinyBurstReplies(p: Limits, e: Buckets, n: Buckets, ops: seq<Op>)
    requires p.burst < 1.0
    ensures Replies(p, e, ops, true) == Replies(p, n, ops, false)
    decreases ops
  {
    if ops == [] {
    } else {
      match ops[0]
      case Call(key, at) =>
        TinyBurstReplies(p, Touch(p, e, key, at).0, Touch(p, n, key, at).0, ops[1..]);
      case Sweep(at) =>
        TinyBurstReplies(p, Swept(e, at), n, ops[1..]);
    }
  }

  // ---- Which buckets there are ----

  /** The buckets after a run. */
  function After(p: Limits, ops: seq<Op>): Buckets {
    if ops == [] then map[]
    else
      var before, last := After(p, ops[..|ops| - 1]), ops[|ops| - 1];
      match last
      case Call(key, at) => Touch(p, before, key, at).0
      case Sweep(at) => Swept(before, at)
  }

  /** Operation n was the client's last call so far, and no sweep since came more than ten minutes after it. */
  ghost predicate KeptSince(ops: seq<Op>, n: nat, key: string) {
    && n < |ops| && ops[n].Call? && ops[n].key == key
    && forall m | n < m < |ops| ::
         if ops[m].Call? then ops[m].key != key else ops[m].at - ops[n].at <= 600.0
  }

  lemma TouchStamps(p: Limits, m: Buckets, key: string, now: real)
    ensures var t := Touch(p, m, key, now).0;
            && t.Keys == m.Keys + {key} && t[key].lastFill == now
            && forall k | k in m && k != key :: t[k] == m[k]
  {
  }

  /** After any run a client has a bucket exactly if it has called, and no sweep has come more than ten minutes after
      its last call; whoever else is busy or idle makes no difference. */
  lemma {:induction false} KeptExactly(p: Limits, ops: seq<Op>, key: string)
    ensures key in After(p, ops) <==> exists n: nat :: KeptSince(ops, n, key)
    ensures key in After(p, ops) ==>
      exists n: nat :: KeptSince(ops, n, key) && After(p, ops)[key].lastFill == ops[n].at
  {
    if ops == [] {
    } else {
      var before, last := ops[..|ops| - 1], ops[|ops| - 1];
      KeptExactly(p, before, key);
      if last.Call? {
        TouchStamps(p, After(p, before), last.key, last.at);
        hide Touch;
        if last.key == key {
          assert KeptSince(ops, |before|, key);
        }
      }
      if key in After(p, before) {
        var n: nat :| KeptSince(before, n, key) && After(p, before)[key].lastFill == before[n].at;
        forall m: nat | KeptSince(ops, m, key) && m < |before|
          ensures m == n
        {
        }
        if key in After(p, ops) && !(last.Call? && last.key == key) {
          assert KeptSince(ops, n, key);
        }
      }
      if m: nat :| KeptSince(ops, m, key) {
        if m < |before| {
          assert KeptSince(before, m, key);
        }
      }
    }
  }

  // ---- When the idle limit is too short, some client can tell ----

  ghost predicate Tells(p: Limits, e: Buckets, n: Buckets, ops: seq<Op>, now: real) {
    InOrder(ops, now) && Replies(p, e, ops, true) != Replies(p, n, ops, false)
  }

  /** One more operation in front of a run that tells. */
  lemma TellsBefore(p: Limits, e: Buckets, n: Buckets, op: Op, ops: seq<Op>, now: real)
    requires now <= op.at
    requires match op
             case Call(key, at) => Tells(p, Touch(p, e, key, at).0, Touch(p, n, key, at).0, ops, at)
             case Sweep(at) => Tells(p, Swept(e, at), n, ops, at)
    ensures Tells(p, e, n, [op] + ops, now)
  {
    var run := [op] + ops;
    assert run[0] == op && run[1..] == ops;
    if op.Call? {
      var x, y := Replies(p, e, run, true), Replies(p, n, run, false);
      assert x[1..] == Replies(p, Touch(p, e, op.key, op.at).0, ops, true);
      assert y[1..] == Replies(p, Touch(p, n, op.key, op.at).0, ops, false);
    }
  }

  lemma TellsNow(p: Limits, e: Buckets, n: Buckets, key: string, at: real, now: real)
    requires now <= at && Touch(p, e, key, at).1 != Touch(p, n, key, at).1
    ensures Tells(p, e, n, [Call(key, at)], now)
  {
    var run := [Call(key, at)];
    assert Replies(p, e, run, true)[0] != Replies(p, n, run, false)[0];
  }

  const CLIENT := "client"

  function Only(b: Level): Buckets {
    map[CLIENT := b]
  }

  lemma TouchOnly(p: Limits, b: Level, now: real)
    ensures Touch(p, Only(b), CLIENT, now) == (Only(Take(p, b, now).0), Take(p, b, now).1)
    ensures Touch(p, map[], CLIENT, now) == Touch(p, Only(New(p, now)), CLIENT, now)
  {
    var c := Take(p, b, now).0;
    assert Only(b)[CLIENT := c] == Only(c);
    var d := Take(p, New(p, now), now).0;
    assert Only(New(p, now))[CLIENT := d] == Only(d);
  }

  lemma TakeAtOnce(p: Limits, tokens: real, now: real)
    requires p.Valid() && tokens <= p.burst
    ensures Take(p, Level(tokens, now), now)
         == if tokens >= 1.0 then (Level(tokens - 1.0, now), true) else (Level(tokens, now), false)
  {
    GainGrows(p, 0.0);
  }

  /** Two buckets that differ now can be told apart: spend both down to the last token. */
  lemma {:induction false} UnequalTells(p: Limits, more: real, less: real, now: real) returns (ops: seq<Op>)
    requires p.Valid() && 1.0 <= p.burst && 0.0 <= less < more <= p.burst
    requires p.rate > 0.0 || less + 1.0 <= more
    ensures Tells(p, Only(Level(more, now)), Only(Level(less, now)), ops, now)
    decreases less.Floor
  {
    var e, n := Level(more, now), Level(less, now);
    TakeAtOnce(p, more, now);
    TakeAtOnce(p, less, now);
    TouchOnly(p, e, now);
    TouchOnly(p, n, now);
    if less >= 1.0 {
      ops := UnequalTells(p, more - 1.0, less - 1.0, now);
      TellsBefore(p, Only(e), Only(n), Call(CLIENT, now), ops, now);
      ops := [Call(CLIENT, now)] + ops;
    } else if more >= 1.0 {
      ops := [Call(CLIENT, now)];
      TellsNow(p, Only(e), Only(n), CLIENT, now, now);
    } else {
      var wait := (1.0 - more) / p.rate;
      assert Gain(p, wait) == 1.0 - more;
      TouchOnly(p, e, now + wait);
      TouchOnly(p, n, now + wait);
      ops := [Call(CLIENT, now + wait)];
      TellsNow(p, Only(e), Only(n), CLIENT, now + wait, now);
    }
  }

  /** A pause long enough to be swept but too short to refill. */
  lemma PauseFor(p: Limits, tokens: real) returns (pause: real)
    requires p.Valid() && tokens + IDLE_LIMIT * p.rate < p.burst
    ensures pause > IDLE_LIMIT && tokens + Gain(p, pause) < p.burst
  {
    if p.rate == 0.0 {
      pause := IDLE_LIMIT + 1.0;
      assert Gain(p, pause) == 0.0;
    } else {
      var slack := p.burst - tokens - IDLE_LIMIT * p.rate;
      pause := IDLE_LIMIT + slack / (2.0 * p.rate);
      assert slack / (2.0 * p.rate) * p.rate == slack / 2.0;
      GainAdds(p, IDLE_LIMIT, slack / (2.0 * p.rate));
    }
  }

  /** A swept client comes back to a full bucket, where it would have found a partly filled one. */
  lemma SweptTells(p: Limits, tokens: real, now: real) returns (ops: seq<Op>)
    requires p.Valid() && 1.0 <= p.burst && 0.0 <= tokens && tokens + IDLE_LIMIT * p.rate < p.burst
    requires p.rate > 0.0 || tokens + 1.0 <= p.burst
    ensures Tells(p, Only(Level(tokens, now)), Only(Level(tokens, now)), ops, now)
  {
    var pause := PauseFor(p, tokens);
    var b, back := Level(tokens, now), now + pause;
    var left := tokens + Gain(p, pause);
    GainGrows(p, pause);
    GainGrows(p, 0.0);
    assert Swept(Only(b), back) == map[];
    TouchOnly(p, b, back);
    TouchOnly(p, New(p, back), back);
    TakeAtOnce(p, p.burst, back);
    assert Refilled(p, b, back) == left;
    if left >= 1.0 {
      if p.rate == 0.0 {
        assert left == tokens by {
          assert Gain(p, pause) == 0.0;
        }
      }
      ops := UnequalTells(p, p.burst - 1.0, left - 1.0, back);
      TellsBefore(p, map[], Only(b), Call(CLIENT, back), ops, back);
      ops := [Call(CLIENT, back)] + ops;
    } else {
      ops := [Call(CLIENT, back)];
      TellsNow(p, map[], Only(b), CLIENT, back, back);
    }
    TellsBefore(p, Only(b), Only(b), Sweep(back), ops, now);
    ops := [Sweep(back)] + ops;
  }

  /** A bucket spent to less than one token, then to nothing if it refills at all, tells. */
  lemma {:induction false} SpentTells(p: Limits, tokens: real, now: real) returns (ops: seq<Op>)
    requires p.Valid() && 1.0 <= p.burst && IDLE_LIMIT * p.rate < p.burst
    requires 0.0 <= tokens && tokens + 1.0 <= p.burst
    ensures Tells(p, Only(Level(tokens, now)), Only(Level(tokens, now)), ops, now)
    decreases tokens.Floor
  {
    var b := Level(tokens, now);
    TakeAtOnce(p, tokens, now);
    TouchOnly(p, b, now);
    if tokens >= 1.0 {
      ops := SpentTells(p, tokens - 1.0, now);
      TellsBefore(p, Only(b), Only(b), Call(CLIENT, now), ops, now);
      ops := [Call(CLIENT, now)] + ops;
    } else if p.rate == 0.0 || tokens == 0.0 {
      assert IDLE_LIMIT * p.rate + tokens < p.burst;
      ops := SweptTells(p, tokens, now);
    } else {
      var wait := (1.0 - tokens) / p.rate;
      assert Gain(p, wait) == 1.0 - tokens;
      var later := now + wait;
      TouchOnly(p, b, later);
      assert Take(p, b, later) == (Level(0.0, later), true);
      ops := SweptTells(p, 0.0, later);
      TellsBefore(p, Only(b), Only(b), Call(CLIENT, later), ops, now);
      ops := [Call(CLIENT, later)] + ops;
    }
  }

  lemma EvictionCanTell(p: Limits) returns (ops: seq<Op>)
    requires p.Valid() && 1.0 <= p.burst && IDLE_LIMIT * p.rate < p.burst
    ensures Tells(p, map[], map[], ops, 0.0)
  {
    TakeAtOnce(p, p.burst, 0.0);
    TouchOnly(p, New(p, 0.0), 0.0);
    ops := SpentTells(p, p.burst - 1.0, 0.0);
    TellsBefore(p, map[], map[], Call(CLIENT, 0.0), ops, 0.0);
    ops := [Call(CLIENT, 0.0)] + ops;
  }

  /** Within the idle limit a bucket refills, or it never admits: when eviction cannot be told. */
  predicate Forgettable(p: Limits) {
    p.burst < 1.0 || p.burst <= IDLE_LIMIT * p.rate
  }

  /** In this run no client can tell that buckets are ever dropped. */
  ghost predicate SameReplies(p: Limits, ops: seq<Op>, from: real) {
    InOrder(ops, from) ==> Replies(p, map[], ops, true) == Replies(p, map[], ops, false)
  }

  /** Eviction is unobservable exactly when a bucket refills within the idle limit, or never admits. */
  lemma EvictionUnobservable(p: Limits)
    requires p.Valid()
    ensures (forall ops, from :: SameReplies(p, ops, from)) <==> Forgettable(p)
  {
    if Forgettable(p) {
      forall ops, from
        ensures SameReplies(p, ops, from)
      {
        if p.burst < 1.0 {
          TinyBurstReplies(p, map[], map[], ops);
        } else if InOrder(ops, from) {
          CoupledReplies(p, map[], map[], ops, from);
        }
      }
    } else {
      var ops := EvictionCanTell(p);
      assert !SameReplies(p, ops, 0.0);
    }
  }

  // ---- Clients do not disturb each other ----

  /** The answers one client gets, in order. */
  function For(key: string, replies: seq<Reply>): seq<bool> {
    if replies == [] then []
    else (if replies[0].key == key then [replies[0].ok] else []) + For(key, replies[1..])
  }

  /** The times at which one client calls. */
  function CallsOf(key: string, ops: seq<Op>): seq<real> {
    if ops == [] then []
    else (if ops[0].Call? && ops[0].key == key then [ops[0].at] else []) + CallsOf(key, ops[1..])
  }

  /** The bucket a client's next call finds: its own, or a fresh one made at that call. */
  function Found(p: Limits, m: Buckets, key: string, times: seq<real>): Level {
    if key in m then m[key] else if times == [] then New(p, 0.0) else New(p, times[0])
  }

  /** A client's answers are those of a bucket of its own run on its own calls. */
  lemma {:induction false} ClientIsAlone(p: Limits, m: Buckets, ops: seq<Op>, key: string)
    ensures var times := CallsOf(key, ops);
            For(key, Replies(p, m, ops, false)) == Answers(p, Found(p, m, key, times), times)
    decreases ops
  {
    hide Answers, Take, New;
    if ops == [] {
      assert Answers(p, Found(p, m, key, []), []) == [];
    } else if ops[0].Sweep? {
      ClientIsAlone(p, m, ops[1..], key);
      assert CallsOf(key, ops) == CallsOf(key, ops[1..]);
    } else {
      var touched := Touch(p, m, ops[0].key, ops[0].at);
      var rest := Replies(p, touched.0, ops[1..], false);
      assert Replies(p, m, ops, false)[1..] == rest;
      ClientIsAlone(p, touched.0, ops[1..], key);
      var times := CallsOf(key, ops);
      if ops[0].key == key {
        assert times[1..] == CallsOf(key, ops[1..]);
        AnswersFirst(p, Found(p, m, key, times), times);
      } else {
        assert times == CallsOf(key, ops[1..]);
        assert Found(p, touched.0, key, times) == Found(p, m, key, times);
      }
    }
  }

  lemma {:induction false} CallsSorted(key: string, ops: seq<Op>, from: real)
    requires InOrder(ops, from)
    ensures var times := CallsOf(key, ops); Sorted(times) && (times != [] ==> from <= times[0])
    decreases ops
  {
    if ops == [] {
    } else {
      CallsSorted(key, ops[1..], ops[0].at);
    }
  }

  /** The deployed limiter, evicting as it does: in every run each client gets the answers of a lone bucket on its
      own calls, and so is admitted at most burst + rate * (y - x) times from any time x to any time y. */
  lemma EachClientWithinLimits(p: Limits, ops: seq<Op>, from: real, key: string)
    requires p.Valid() && Forgettable(p) && InOrder(ops, from)
    ensures var times := CallsOf(key, ops);
            var answers := For(key, Replies(p, map[], ops, true));
            answers == Answers(p, New(p, if times == [] then 0.0 else times[0]), times)
            && Conforms(p, times, answers)
            && forall x, y | x <= y :: AdmittedIn(times, answers, |times|, x, y) as real <= p.burst + Gain(p, y - x)
  {
    var times := CallsOf(key, ops);
    EvictionUnobservable(p);
    assert SameReplies(p, ops, from);
    ClientIsAlone(p, map[], ops, key);
    CallsSorted(key, ops, from);
    BucketConforms(p, Found(p, map[], key, times), times);
    var answers := For(key, Replies(p, map[], ops, true));
    forall x, y | x <= y
      ensures AdmittedIn(times, answers, |times|, x, y) as real <= p.burst + Gain(p, y - x)
    {
      WindowBound(p, times, answers, |times|, x, y);
    }
  }

  /** The gateway's own settings, 100 tokens per second and bursts of 200, refill in time. */
  lemma GatewayEvictionUnobservable(ops: seq<Op>, from: real)
    ensures SameReplies(Limits(100.0, 200.0), ops, from)
  {
    var p := Limits(100.0, 200.0);
    EvictionUnobservable(p);
    assert p.burst <= IDLE_LIMIT * p.rate;
  }
}

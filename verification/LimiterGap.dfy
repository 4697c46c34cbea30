/** The rate limiter lock by lock (services/api-gateway/cmd/main.go, lines 74-99). Allow looks its bucket up under
    the limiter's lock and uses it under the bucket's own, and the sweep tests one bucket at a time; here each of
    these is a step, so that a sweep can drop a bucket between a call's look-up and its use. Such an orphaned
    bucket still answers its call, while the client's next look-up gets a new one. */
module LimiterGaps {
  import opened TokenBuckets
  import opened RateLimiters

  datatype Bucket = Bucket(key: string, level: Level)

  /** Every bucket ever made, the ones in the map, and the one each call under way has looked up. */
  datatype State = State(made: seq<Bucket>, buckets: map<string, nat>, held: map<nat, nat>)

  const NONE := State([], map[], map[])

  datatype Event =
    | LookUp(call: nat, key: string, at: real)
    | Use(call: nat, at: real)
    | Evict(key: string, at: real)

  /** The bucket a client's call finds, made if there is none. */
  function Ensured(p: Limits, s: State, key: string, now: real): State {
    if key in s.buckets then s
    else s.(made := s.made + [Bucket(key, New(p, now))], buckets := s.buckets[key := |s.made|])
  }

  function Do(p: Limits, s: State, e: Event): State {
    match e
    case LookUp(call, key, at) =>
      var s' := Ensured(p, s, key, at);
      s'.(held := s'.held[call := s'.buckets[key]])
    case Use(call, at) =>
      if call in s.held && s.held[call] < |s.made| then
        var b := s.made[s.held[call]];
        s.(made := s.made[s.held[call] := b.(level := Take(p, b.level, at).0)], held := s.held - {call})
      else s
    case Evict(key, at) =>
      if key in s.buckets && s.buckets[key] < |s.made| && Idle(s.made[s.buckets[key]].level, at)
      then s.(buckets := s.buckets - {key})
      else s
  }

  /** A call's answer, and whether its bucket was no longer its client's. */
  datatype Used = Used(key: string, at: real, ok: bool, orphan: bool)

  function UseOf(p: Limits, s: State, e: Event): seq<Used> {
    if e.Use? && e.call in s.held && s.held[e.call] < |s.made| then
      var b := s.made[s.held[e.call]];
      [Used(b.key, e.at, Take(p, b.level, e.at).1, b.key !in s.buckets || s.buckets[b.key] != s.held[e.call])]
    else []
  }

  function Uses(p: Limits, s: State, es: seq<Event>): seq<Used>
    decreases es
  {
    if es == [] then [] else UseOf(p, s, es[0]) + Uses(p, Do(p, s, es[0]), es[1..])
  }

  /** The clock never goes back, starting from `from`. */
  ghost predicate Timed(es: seq<Event>, from: real) {
    es == [] || (from <= es[0].at && Timed(es[1..], es[0].at))
  }

  /** The uses that found their client's own bucket, as calls of a limiter, and their answers. */
  function OwnCalls(us: seq<Used>): seq<Op> {
    if us == [] then []
    else (if us[0].orphan then [] else [Call(us[0].key, us[0].at)]) + OwnCalls(us[1..])
  }

  function OwnReplies(us: seq<Used>): seq<Reply> {
    if us == [] then []
    else (if us[0].orphan then [] else [Reply(us[0].key, us[0].ok)]) + OwnReplies(us[1..])
  }

  // ---- Nothing between look-up and use ----

  function Levels(s: State): Buckets {
    map k | k in s.buckets && s.buckets[k] < |s.made| :: s.made[s.buckets[k]].level
  }

  /** References lead to buckets; those in the map to the client's own. */
  ghost predicate WellFormed(s: State) {
    && (forall k | k in s.buckets :: s.buckets[k] < |s.made| && s.made[s.buckets[k]].key == k)
    && (forall c | c in s.held :: s.held[c] < |s.made|)
  }

  lemma DoWellFormed(p: Limits, s: State, e: Event)
    requires WellFormed(s)
    ensures WellFormed(Do(p, s, e))
  {
  }

  lemma LooksUp(p: Limits, s: State, call: nat, key: string, at: real)
    requires WellFormed(s)
    ensures var t := Do(p, s, LookUp(call, key, at));
            && WellFormed(t) && key in t.buckets && call in t.held && t.held[call] == t.buckets[key]
            && Levels(t) == if key in Levels(s) then Levels(s) else Levels(s)[key := New(p, at)]
  {
    DoWellFormed(p, s, LookUp(call, key, at));
  }

  lemma UsesOwn(p: Limits, s: State, call: nat, key: string, at: real)
    requires WellFormed(s) && key in s.buckets && call in s.held && s.held[call] == s.buckets[key]
    ensures var t, taken := Do(p, s, Use(call, at)), Take(p, Levels(s)[key], at);
            Levels(t) == Levels(s)[key := taken.0] && UseOf(p, s, Use(call, at)) == [Used(key, at, taken.1, false)]
  {
    hide Take;
    DoWellFormed(p, s, Use(call, at));
  }

  /** With nothing in between, look-up and use are the one step that RateLimiters takes them for, and a sweep is
      the eviction of each client in any order. */
  lemma AtOnceIsTouch(p: Limits, s: State, call: nat, key: string, at: real)
    requires WellFormed(s)
    ensures var looked := Do(p, s, LookUp(call, key, at));
            var used := Do(p, looked, Use(call, at));
            && Levels(used) == Touch(p, Levels(s), key, at).0
            && UseOf(p, looked, Use(call, at)) == [Used(key, at, Touch(p, Levels(s), key, at).1, false)]
  {
    var looked := Do(p, s, LookUp(call, key, at));
    LooksUp(p, s, call, key, at);
    UsesOwn(p, looked, call, key, at);
    hide Take, Levels, Do, UseOf;
    TouchFound(p, Levels(s), Levels(looked), key, at);
  }

  function LookUps(es: seq<Event>): nat {
    if es == [] then 0 else (if es[0].LookUp? then 1 else 0) + LookUps(es[1..])
  }

  lemma HeldAfter(p: Limits, s: State, e: Event)
    ensures |Do(p, s, e).held| + |UseOf(p, s, e)| <= |s.held| + (if e.LookUp? then 1 else 0)
  {
    var t := Do(p, s, e);
    assert |t.held| == |t.held.Keys| && |s.held| == |s.held.Keys|;
    match e
    case LookUp(call, key, at) => assert t.held.Keys == s.held.Keys + {call};
    case Use(call, at) =>
      if t != s {
        assert t.held.Keys == s.held.Keys - {call};
      }
    case Evict(_, _) =>
  }

  /** A bucket is used at most once for each look-up. */
  lemma {:induction false} LookUpsUsedOnce(p: Limits, s: State, es: seq<Event>)
    ensures |Uses(p, s, es)| <= |s.held| + LookUps(es)
    decreases es
  {
    if es == [] {
    } else {
      HeldAfter(p, s, es[0]);
      LookUpsUsedOnce(p, Do(p, s, es[0]), es[1..]);
      hide Do, UseOf;
    }
  }

  // ---- Against a limiter that never forgets ----

  /** The mapped bucket of a client, if any, against the one a limiter that never forgets has for it: the same, or
      both full by now. */
  ghost predicate Matches(p: Limits, s: State, n: Buckets, k: string, now: real)
    requires WellFormed(s)
  {
    if k in s.buckets then
      var b := s.made[s.buckets[k]].level;
      (k in n && n[k] == b) || (Full(p, b, now) && (k in n ==> Full(p, n[k], now)))
    else k in n ==> Full(p, n[k], now)
  }

  ghost predicate SaneLevel(b: Level, now: real) {
    b.lastFill <= now && b.tokens >= 0.0
  }

  ghost predicate Sane(s: State, n: Buckets, now: real) {
    && (forall i | 0 <= i < |s.made| :: SaneLevel(s.made[i].level, now))
    && (forall k | k in n :: SaneLevel(n[k], now))
  }

  ghost predicate Raced(p: Limits, s: State, n: Buckets, now: real) {
    WellFormed(s) && Sane(s, n, now) && forall k :: Matches(p, s, n, k, now)
  }

  lemma RacedLater(p: Limits, s: State, n: Buckets, now: real, later: real)
    requires p.Valid() && Raced(p, s, n, now) && now <= later
    ensures Raced(p, s, n, later)
  {
    forall k
      ensures Matches(p, s, n, k, later)
    {
      assert Matches(p, s, n, k, now);
      if k in n && Full(p, n[k], now) {
        FullStaysFull(p, n[k], now, later);
      }
      if k in s.buckets && Full(p, s.made[s.buckets[k]].level, now) {
        FullStaysFull(p, s.made[s.buckets[k]].level, now, later);
      }
    }
  }

  lemma NewIsFull(p: Limits, now: real)
    requires p.Valid()
    ensures Full(p, New(p, now), now) && SaneLevel(New(p, now), now)
  {
    GainGrows(p, 0.0);
  }

  lemma RacedLookUp(p: Limits, s: State, n: Buckets, call: nat, key: string, now: real)
    requires p.Valid() && Raced(p, s, n, now)
    ensures Raced(p, Do(p, s, LookUp(call, key, now)), n, now)
  {
    var t := Do(p, s, LookUp(call, key, now));
    DoWellFormed(p, s, LookUp(call, key, now));
    NewIsFull(p, now);
    hide Full, SaneLevel;
    forall k
      ensures Matches(p, t, n, k, now)
    {
      assert Matches(p, s, n, k, now);
    }
  }

  lemma RacedEvict(p: Limits, s: State, n: Buckets, key: string, now: real)
    requires p.Valid() && p.burst <= IDLE_LIMIT * p.rate && Raced(p, s, n, now)
    ensures Raced(p, Do(p, s, Evict(key, now)), n, now)
  {
    var t := Do(p, s, Evict(key, now));
    if t != s {
      IdleIsFull(p, s.made[s.buckets[key]].level, now);
    }
    hide Full, Idle;
    forall k
      ensures Matches(p, t, n, k, now)
    {
      assert Matches(p, s, n, k, now);
    }
  }

  lemma SameAnswer(p: Limits, s: State, n: Buckets, k: string, now: real)
    requires p.Valid() && WellFormed(s) && Matches(p, s, n, k, now) && k in s.buckets
    ensures Touch(p, n, k, now).1 == Take(p, s.made[s.buckets[k]].level, now).1
    ensures Touch(p, n, k, now).0 == n[k := Take(p, s.made[s.buckets[k]].level, now).0]
  {
    NewIsFull(p, now);
  }

  /** A use of the client's own bucket is answered as the limiter that never forgets answers. */
  lemma RacedUse(p: Limits, s: State, n: Buckets, call: nat, now: real)
    requires p.Valid() && Raced(p, s, n, now) && call in s.held
    ensures var t, u := Do(p, s, Use(call, now)), UseOf(p, s, Use(call, now));
            && u != []
            && Raced(p, t, if u[0].orphan then n else Touch(p, n, u[0].key, now).0, now)
            && (!u[0].orphan ==> u[0].ok == Touch(p, n, u[0].key, now).1)
  {
    var t, u := Do(p, s, Use(call, now)), UseOf(p, s, Use(call, now))[0];
    var b := s.made[s.held[call]];
    var n' := if u.orphan then n else Touch(p, n, u.key, now).0;
    DoWellFormed(p, s, Use(call, now));
    TakeKeepsTokens(p, b.level, now);
    NewIsFull(p, now);
    if !u.orphan {
      assert Matches(p, s, n, u.key, now);
      if u.key in n {
        TakeKeepsTokens(p, n[u.key], now);
      } else {
        TakeKeepsTokens(p, New(p, now), now);
      }
      SameAnswer(p, s, n, u.key, now);
    }
    hide Full, Take, Idle;
    forall k
      ensures Matches(p, t, n', k, now)
    {
      assert Matches(p, s, n, k, now);
    }
  }

  lemma NoUse(p: Limits, s: State, e: Event)
    requires !e.Use? || e.call !in s.held
    ensures UseOf(p, s, e) == [] && (e.Use? ==> Do(p, s, e) == s)
    ensures forall us: seq<Used> :: [] + us == us
  {
  }

  lemma OneUse(p: Limits, s: State, e: Event)
    ensures |UseOf(p, s, e)| <= 1
    ensures UseOf(p, s, e) != [] ==> UseOf(p, s, e) == [UseOf(p, s, e)[0]] && UseOf(p, s, e)[0].at == e.at
  {
  }

  lemma UsesFirst(u: Used, us: seq<Used>)
    ensures ([u] + us)[1..] == us
    ensures OwnCalls([u] + us) == (if u.orphan then [] else [Call(u.key, u.at)]) + OwnCalls(us)
    ensures OwnReplies([u] + us) == (if u.orphan then [] else [Reply(u.key, u.ok)]) + OwnReplies(us)
  {
    assert ([u] + us)[1..] == us;
  }

  lemma RepliesFirst(p: Limits, n: Buckets, key: string, at: real, ops: seq<Op>)
    ensures var touched := Touch(p, n, key, at);
            Replies(p, n, [Call(key, at)] + ops, false) == [Reply(key, touched.1)] + Replies(p, touched.0, ops, false)
    ensures [] + ops == ops
  {
    assert ([Call(key, at)] + ops)[1..] == ops;
  }

  lemma {:induction false} RacedReplies(p: Limits, s: State, n: Buckets, es: seq<Event>, now: real)
    requires p.Valid() && p.burst <= IDLE_LIMIT * p.rate
    requires Raced(p, s, n, now) && Timed(es, now)
    ensures var us := Uses(p, s, es); OwnReplies(us) == Replies(p, n, OwnCalls(us), false)
    decreases es
  {
    hide Raced, Touch, Do, UseOf;
    if es == [] {
    } else {
      var e, rest := es[0], Uses(p, Do(p, s, es[0]), es[1..]);
      RacedLater(p, s, n, now, e.at);
      match e
      case LookUp(call, key, at) =>
        RacedLookUp(p, s, n, call, key, at);
        RacedReplies(p, Do(p, s, e), n, es[1..], at);
        NoUse(p, s, e);
      case Evict(key, at) =>
        RacedEvict(p, s, n, key, at);
        RacedReplies(p, Do(p, s, e), n, es[1..], at);
        NoUse(p, s, e);
      case Use(call, at) =>
        if call in s.held {
          RacedUse(p, s, n, call, at);
          OneUse(p, s, e);
          var u := UseOf(p, s, e)[0];
          RacedReplies(p, Do(p, s, e), if u.orphan then n else Touch(p, n, u.key, at).0, es[1..], at);
          UsesFirst(u, rest);
          RepliesFirst(p, n, u.key, at, OwnCalls(rest));
        } else {
          NoUse(p, s, e);
          RacedReplies(p, Do(p, s, e), n, es[1..], at);
        }
    }
  }

  lemma TinyTake(p: Limits, b: Level, now: real)
    requires p.burst < 1.0
    ensures !Take(p, b, now).1
  {
  }

  /** With a burst below one token every use is refused, and so is every call of the other limiter. */
  lemma {:induction false} TinyUses(p: Limits, s: State, n: Buckets, es: seq<Event>)
    requires p.burst < 1.0
    ensures var us := Uses(p, s, es);
            (forall u | u in us :: !u.ok) && OwnReplies(us) == Replies(p, n, OwnCalls(us), false)
    decreases es
  {
    hide Do, Take;
    if es == [] {
    } else {
      var e, rest := es[0], Uses(p, Do(p, s, es[0]), es[1..]);
      OneUse(p, s, e);
      if UseOf(p, s, e) == [] {
        TinyUses(p, Do(p, s, e), n, es[1..]);
        assert [] + rest == rest;
      } else {
        var u := UseOf(p, s, e)[0];
        TinyTake(p, s.made[s.held[e.call]].level, e.at);
        TinyTake(p, if u.key in n then n[u.key] else New(p, u.at), u.at);
        hide UseOf;
        TinyUses(p, Do(p, s, e), if u.orphan then n else Touch(p, n, u.key, u.at).0, es[1..]);
        UsesFirst(u, rest);
        RepliesFirst(p, n, u.key, u.at, OwnCalls(rest));
      }
    }
  }

  /** Over every interleaving of look-ups, uses and evictions, the uses that found their client's own bucket are
      answered, in order, as a limiter that never forgets answers those calls alone. */
  lemma OwnUsesUnforgotten(p: Limits, es: seq<Event>, from: real)
    requires p.Valid() && Forgettable(p) && Timed(es, from)
    ensures var us := Uses(p, NONE, es); OwnReplies(us) == Replies(p, map[], OwnCalls(us), false)
  {
    if p.burst < 1.0 {
      TinyUses(p, NONE, map[], es);
    } else {
      RacedReplies(p, NONE, map[], es, from);
    }
  }

  // ---- What orphaned buckets can add ----

  /** A client's admissions at times from x to y. */
  function Admitted(us: seq<Used>, key: string, x: real, y: real): nat {
    if us == [] then 0
    else (if us[0].key == key && us[0].ok && x <= us[0].at <= y then 1 else 0) + Admitted(us[1..], key, x, y)
  }

  /** Its uses of orphaned buckets at times from x to y. */
  function Orphaned(us: seq<Used>, key: string, x: real, y: real): nat {
    if us == [] then 0
    else (if us[0].key == key && us[0].orphan && x <= us[0].at <= y then 1 else 0) + Orphaned(us[1..], key, x, y)
  }

  lemma SkipFirst(u: Used, us: seq<Used>, key: string)
    requires u.orphan || u.key != key
    ensures CallsOf(key, OwnCalls([u] + us)) == CallsOf(key, OwnCalls(us))
    ensures For(key, OwnReplies([u] + us)) == For(key, OwnReplies(us))
  {
    UsesFirst(u, us);
    if u.orphan {
      assert [] + OwnCalls(us) == OwnCalls(us) && [] + OwnReplies(us) == OwnReplies(us);
    } else {
      assert ([Call(u.key, u.at)] + OwnCalls(us))[1..] == OwnCalls(us);
      assert ([Reply(u.key, u.ok)] + OwnReplies(us))[1..] == OwnReplies(us);
    }
  }

  lemma KeepFirst(u: Used, us: seq<Used>, key: string)
    requires !u.orphan && u.key == key
    ensures CallsOf(key, OwnCalls([u] + us)) == [u.at] + CallsOf(key, OwnCalls(us))
    ensures For(key, OwnReplies([u] + us)) == [u.ok] + For(key, OwnReplies(us))
  {
    UsesFirst(u, us);
    assert ([Call(u.key, u.at)] + OwnCalls(us))[1..] == OwnCalls(us);
    assert ([Reply(u.key, u.ok)] + OwnReplies(us))[1..] == OwnReplies(us);
  }

  lemma {:induction false} OwnAndOrphaned(us: seq<Used>, key: string, x: real, y: real)
    ensures var times, d := CallsOf(key, OwnCalls(us)), For(key, OwnReplies(us));
            |times| == |d| && Admitted(us, key, x, y) <= AdmittedIn(times, d, |times|, x, y) + Orphaned(us, key, x, y)
  {
    if us == [] {
    } else {
      var u, rest := us[0], us[1..];
      OwnAndOrphaned(rest, key, x, y);
      assert us == [u] + rest;
      UsesFirst(u, rest);
      var times, d := CallsOf(key, OwnCalls(us)), For(key, OwnReplies(us));
      if u.orphan || u.key != key {
        SkipFirst(u, rest, key);
      } else {
        KeepFirst(u, rest, key);
        AdmittedFirst(times, d, |times|, x, y);
      }
    }
  }

  lemma InOrderEarlier(ops: seq<Op>, from: real, earlier: real)
    requires InOrder(ops, from) && earlier <= from
    ensures InOrder(ops, earlier)
  {
  }

  lemma {:induction false} OwnCallsInOrder(p: Limits, s: State, es: seq<Event>, from: real)
    requires Timed(es, from)
    ensures InOrder(OwnCalls(Uses(p, s, es)), from)
    decreases es
  {
    hide Do, UseOf;
    if es == [] {
    } else {
      var e, rest := es[0], Uses(p, Do(p, s, es[0]), es[1..]);
      OwnCallsInOrder(p, Do(p, s, e), es[1..], e.at);
      OneUse(p, s, e);
      if UseOf(p, s, e) == [] {
        assert [] + rest == rest;
        InOrderEarlier(OwnCalls(rest), e.at, from);
      } else {
        var u := UseOf(p, s, e)[0];
        UsesFirst(u, rest);
        var ops := OwnCalls(rest);
        InOrderEarlier(ops, e.at, from);
        assert ([Call(u.key, u.at)] + ops)[1..] == ops && [] + ops == ops;
      }
    }
  }

  /** Over every interleaving, from any time x to any time y a client is admitted at most burst + rate * (y - x)
      times, and once more for each use of a bucket that was evicted between its look-up and its use. */
  lemma OrphansExceedByOne(p: Limits, es: seq<Event>, from: real, key: string, x: real, y: real)
    requires p.Valid() && Forgettable(p) && Timed(es, from) && x <= y
    ensures var us := Uses(p, NONE, es);
            Admitted(us, key, x, y) as real <= p.burst + Gain(p, y - x) + Orphaned(us, key, x, y) as real
  {
    var us := Uses(p, NONE, es);
    var calls := OwnCalls(us);
    var times, d := CallsOf(key, calls), For(key, OwnReplies(us));
    OwnUsesUnforgotten(p, es, from);
    OwnCallsInOrder(p, NONE, es, from);
    ClientIsAlone(p, map[], calls, key);
    CallsSorted(key, calls, from);
    hide Uses, OwnCalls, OwnReplies, CallsOf, For, Replies, Gain;
    BucketConforms(p, Found(p, map[], key, times), times);
    WindowBound(p, times, d, |times|, x, y);
    OwnAndOrphaned(us, key, x, y);
  }

  lemma UsesNext(p: Limits, s: State, e: Event, es: seq<Event>, from: real)
    ensures Uses(p, s, [e] + es) == UseOf(p, s, e) + Uses(p, Do(p, s, e), es)
    ensures from <= e.at && Timed(es, e.at) ==> Timed([e] + es, from)
  {
    assert ([e] + es)[1..] == es;
  }

  lemma AdmittedSplit(u: Used, us: seq<Used>, key: string, x: real, y: real)
    ensures Admitted([u] + us, key, x, y)
         == (if u.key == key && u.ok && x <= u.at <= y then 1 else 0) + Admitted(us, key, x, y)
    ensures Admitted([] + us, key, x, y) == Admitted(us, key, x, y)
  {
    assert ([u] + us)[1..] == us && [] + us == us;
  }

  /** One more look-up and its use, before the rest. */
  lemma UsedAtOnce(p: Limits, s: State, key: string, at: real, es: seq<Event>)
    requires WellFormed(s) && Timed(es, at)
    ensures var t := Do(p, Do(p, s, LookUp(1, key, at)), Use(1, at));
            var all, taken := [LookUp(1, key, at), Use(1, at)] + es, Touch(p, Levels(s), key, at);
            && Timed(all, at)
            && WellFormed(t) && Levels(t) == taken.0
            && Admitted(Uses(p, s, all), key, at, at)
                 == (if taken.1 then 1 else 0) + Admitted(Uses(p, t, es), key, at, at)
  {
    var look, use := LookUp(1, key, at), Use(1, at);
    var looked := Do(p, s, look);
    AtOnceIsTouch(p, s, 1, key, at);
    DoWellFormed(p, s, look);
    DoWellFormed(p, looked, use);
    UsesNext(p, looked, use, es, at);
    UsesNext(p, s, look, [use] + es, at);
    NoUse(p, s, look);
    AdmittedSplit(UseOf(p, looked, use)[0], Uses(p, Do(p, looked, use), es), key, at, at);
    assert [look, use] + es == [look] + ([use] + es);
  }

  /** A client that has its bucket to itself spends it down to less than one token. */
  lemma {:induction false} SpendAll(p: Limits, s: State, key: string, tokens: real, at: real) returns (es: seq<Event>)
    requires p.Valid() && WellFormed(s) && 0.0 <= tokens <= p.burst
    requires key in Levels(s) && Levels(s)[key] == Level(tokens, at)
    ensures Timed(es, at) && Admitted(Uses(p, s, es), key, at, at) as real > tokens - 1.0
    decreases tokens.Floor
  {
    if tokens < 1.0 {
      es := [];
    } else {
      var t := Do(p, Do(p, s, LookUp(1, key, at)), Use(1, at));
      TakeAtOnce(p, tokens, at);
      UsedAtOnce(p, s, key, at, []);
      hide Do, Uses, Levels, WellFormed, Timed, Take;
      es := SpendAll(p, t, key, tokens - 1.0, at);
      UsedAtOnce(p, s, key, at, es);
      es := [LookUp(1, key, at), Use(1, at)] + es;
    }
  }

  const LATE := 601.0

  /** The client's first bucket, made at time 0, is evicted while call 0 holds it, and still admits that call. */
  lemma OrphanUsed(p: Limits, key: string)
    requires p.Valid() && 1.0 <= p.burst
    ensures var s1 := Do(p, NONE, LookUp(0, key, 0.0));
            var s2 := Do(p, s1, Evict(key, LATE));
            && UseOf(p, s2, Use(0, LATE)) == [Used(key, LATE, true, true)]
            && Do(p, s2, Use(0, LATE)) == State([Bucket(key, Level(p.burst - 1.0, LATE))], map[], map[])
  {
    var s1 := Do(p, NONE, LookUp(0, key, 0.0));
    assert s1 == State([Bucket(key, New(p, 0.0))], map[key := 0], map[0 := 0]);
    var s2 := Do(p, s1, Evict(key, LATE));
    assert s2 == State([Bucket(key, New(p, 0.0))], map[], map[0 := 0]);
    assert Take(p, New(p, 0.0), LATE) == (Level(p.burst - 1.0, LATE), true) by {
      GainGrows(p, LATE);
    }
  }

  /** The client's next calls find a new bucket, which is full. */
  lemma NewBucketSpent(p: Limits, key: string, s: State) returns (es: seq<Event>)
    requires p.Valid() && 1.0 <= p.burst && WellFormed(s) && key !in s.buckets
    ensures Timed(es, LATE) && Admitted(Uses(p, s, es), key, LATE, LATE) as real > p.burst - 1.0
  {
    TakeAtOnce(p, p.burst, LATE);
    UsedAtOnce(p, s, key, LATE, []);
    var t := Do(p, Do(p, s, LookUp(1, key, LATE)), Use(1, LATE));
    assert key !in Levels(s);
    hide Do, Uses, Levels, WellFormed, Timed, Take;
    es := SpendAll(p, t, key, p.burst - 1.0, LATE);
    UsedAtOnce(p, s, key, LATE, es);
    es := [LookUp(1, key, LATE), Use(1, LATE)] + es;
  }

  /** An orphaned bucket does break the bound, for every limiter that admits at all: one call is admitted by it, and
      as many as the burst allows by the new bucket, all at one moment. */
  lemma OrphanAdmits(p: Limits, key: string) returns (es: seq<Event>)
    requires p.Valid() && 1.0 <= p.burst
    ensures Timed(es, 0.0)
    ensures Admitted(Uses(p, NONE, es), key, LATE, LATE) as real > p.burst + Gain(p, LATE - LATE)
  {
    hide Do, UseOf, Uses, Gain;
    var e1, e2, e3 := LookUp(0, key, 0.0), Evict(key, LATE), Use(0, LATE);
    var s1 := Do(p, NONE, e1);
    var s2 := Do(p, s1, e2);
    var s3 := Do(p, s2, e3);
    OrphanUsed(p, key);
    es := NewBucketSpent(p, key, s3);
    AdmittedSplit(Used(key, LATE, true, true), Uses(p, s3, es), key, LATE, LATE);
    UsesNext(p, s2, e3, es, LATE);
    es := [e3] + es;
    UsesNext(p, s1, e2, es, 0.0);
    NoUse(p, s1, e2);
    es := [e2] + es;
    UsesNext(p, NONE, e1, es, 0.0);
    NoUse(p, NONE, e1);
    es := [e1] + es;
    assert Gain(p, LATE - LATE) == 0.0 by {
      GainAdds(p, 0.0, 0.0);
    }
  }

  /** This client stays within its bound from x to y. */
  ghost predicate WithinBound(p: Limits, es: seq<Event>, from: real, key: string, x: real, y: real) {
    x <= y && Timed(es, from) ==> Admitted(Uses(p, NONE, es), key, x, y) as real <= p.burst + Gain(p, y - x)
  }

  lemma {:induction false} NoneAdmitted(us: seq<Used>, key: string, x: real, y: real)
    requires forall u | u in us :: !u.ok
    ensures Admitted(us, key, x, y) == 0
  {
    if us == [] {
    } else {
      NoneAdmitted(us[1..], key, x, y);
    }
  }

  /** So the gap between look-up and use is harmless, over all interleavings, exactly for a limiter that never
      admits. */
  lemma GapHarmlessExactly(p: Limits)
    requires p.Valid()
    ensures (forall es, from, key, x, y :: WithinBound(p, es, from, key, x, y)) <==> p.burst < 1.0
  {
    if p.burst < 1.0 {
      forall es, from, key, x, y | x <= y
        ensures WithinBound(p, es, from, key, x, y)
      {
        TinyUses(p, NONE, map[], es);
        NoneAdmitted(Uses(p, NONE, es), key, x, y);
        GainGrows(p, y - x);
      }
    } else {
      var es := OrphanAdmits(p, "");
      assert !WithinBound(p, es, 0.0, "", LATE, LATE);
    }
  }
}

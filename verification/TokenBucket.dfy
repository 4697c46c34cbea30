/** The token bucket of the API gateway (services/api-gateway/cmd/main.go, lines 23-55).
    `Take` is what one locked call of `Allow` does; the lemmas say what a whole sequence of
    calls means: the bucket is the best decision procedure that keeps every window of time
    within burst + rate * length. */
module TokenBuckets {

  /** Tokens per second, and the most tokens a bucket holds. */
  datatype Limits = Limits(rate: real, burst: real) {
    predicate Valid() {
      rate >= 0.0 && burst >= 0.0
    }
  }

  /** The tokens a span of time brings. The lemmas below hide this product from the solver and
      work from GainAdds and GainGrows alone. */
  function Gain(p: Limits, span: real): real {
    span * p.rate
  }

  lemma GainAdds(p: Limits, a: real, b: real)
    ensures Gain(p, a + b) == Gain(p, a) + Gain(p, b)
  {
  }

  lemma GainGrows(p: Limits, span: real)
    requires p.Valid() && span >= 0.0
    ensures Gain(p, span) >= 0.0
  {
  }

  /** A bucket's two changing fields. */
  datatype Level = Level(tokens: real, lastFill: real)

  function New(p: Limits, now: real): Level {
    Level(p.burst, now)
  }

  /** The tokens available at time `now`, before a call spends one. */
  function Refilled(p: Limits, b: Level, now: real): real {
    var tokens := b.tokens + Gain(p, now - b.lastFill);
    if tokens > p.burst then p.burst else tokens
  }

  /** One call of Allow: the bucket it leaves and its answer. */
  function Take(p: Limits, b: Level, now: real): (Level, bool) {
    var tokens := Refilled(p, b, now);
    if tokens >= 1.0 then (Level(tokens - 1.0, now), true) else (Level(tokens, now), false)
  }

  class TokenBucket {
    var tokens: real
    var lastFill: real
    const maxBurst: real
    const rate: real

    constructor (rate: real, burst: real, now: real)
      ensures Params() == Limits(rate, burst)
      ensures View() == New(Limits(rate, burst), now)
    {
      this.rate, maxBurst := rate, burst;
      tokens, lastFill := burst, now;
    }

    function Params(): Limits {
      Limits(rate, maxBurst)
    }

    function View(): Level
      reads this
    {
      Level(tokens, lastFill)
    }

    method Allow(now: real) returns (ok: bool)
      modifies this`tokens, this`lastFill
      ensures (View(), ok) == Take(Params(), old(View()), now)
    {
      var elapsed := now - lastFill;
      tokens := tokens + elapsed * rate;
      assert tokens == old(View()).tokens + Gain(Params(), now - old(View()).lastFill);
      if tokens > maxBurst {
        tokens := maxBurst;
      }
      lastFill := now;
      if tokens >= 1.0 {
        tokens := tokens - 1.0;
        return true;
      }
      return false;
    }
  }

  // ---- Sequences of calls on one bucket ----

  ghost predicate Sorted(times: seq<real>) {
    forall i, j | 0 <= i <= j < |times| :: times[i] <= times[j]
  }

  /** The bucket after the first n calls. */
  function After(p: Limits, b: Level, times: seq<real>, n: nat): Level
    requires n <= |times|
  {
    if n == 0 then b else Take(p, After(p, b, times, n - 1), times[n - 1]).0
  }

  /** The tokens call n finds. */
  function LevelAt(p: Limits, b: Level, times: seq<real>, n: nat): real
    requires n < |times|
  {
    Refilled(p, After(p, b, times, n), times[n])
  }

  function Answers(p: Limits, b: Level, times: seq<real>): (d: seq<bool>)
    ensures |d| == |times|
    ensures forall n | 0 <= n < |d| :: d[n] <==> LevelAt(p, b, times, n) >= 1.0
  {
    seq(|times|, n requires 0 <= n < |times| => Take(p, After(p, b, times, n), times[n]).1)
  }

  /** How many of the decisions j, .., n-1 were admissions. */
  function Count(d: seq<bool>, j: nat, n: nat): nat
    requires j <= n <= |d|
    decreases n
  {
    if j == n then 0 else Count(d, j, n - 1) + (if d[n - 1] then 1 else 0)
  }

  lemma {:induction false} CountSplit(d: seq<bool>, i: nat, j: nat, n: nat)
    requires i <= j <= n <= |d|
    ensures Count(d, i, n) == Count(d, i, j) + Count(d, j, n)
    decreases n
  {
    if j == n {
    } else {
      CountSplit(d, i, j, n - 1);
    }
  }

  /** The room left, just before call n, in the window that starts with call j. */
  function Room(p: Limits, times: seq<real>, d: seq<bool>, j: nat, n: nat): real
    requires j <= n < |times| && |d| == |times|
  {
    p.burst + Gain(p, times[n] - times[j]) - Count(d, j, n) as real
  }

  /** A decision sequence that keeps every window within burst + rate * length. */
  ghost predicate Conforms(p: Limits, times: seq<real>, d: seq<bool>)
    requires |d| == |times|
  {
    forall j, n | 0 <= j <= n < |times| :: Room(p, times, d, j, n) >= (if d[n] then 1.0 else 0.0)
  }

  /** A bucket as it is created, before or at its first call. */
  ghost predicate FreshFor(p: Limits, b: Level, times: seq<real>) {
    b.tokens == p.burst && (times != [] ==> b.lastFill <= times[0])
  }

  lemma FirstLevel(p: Limits, b: Level, times: seq<real>)
    requires p.Valid() && times != [] && FreshFor(p, b, times)
    ensures LevelAt(p, b, times, 0) == p.burst
  {
    hide Gain;
    GainGrows(p, times[0] - b.lastFill);
  }

  lemma {:induction false} RefillStep(p: Limits, b: Level, times: seq<real>, n: nat)
    requires 0 < n < |times|
    ensures var d := Answers(p, b, times);
            var refill := LevelAt(p, b, times, n - 1) - (if d[n - 1] then 1.0 else 0.0)
                          + Gain(p, times[n] - times[n - 1]);
            LevelAt(p, b, times, n) == if refill > p.burst then p.burst else refill
  {
    hide Gain;
  }

  lemma {:induction false} RoomStep(p: Limits, times: seq<real>, d: seq<bool>, j: nat, n: nat)
    requires j < n < |times| && |d| == |times|
    ensures Room(p, times, d, j, n)
         == Room(p, times, d, j, n - 1) - (if d[n - 1] then 1.0 else 0.0) + Gain(p, times[n] - times[n - 1])
  {
    hide Gain;
    GainAdds(p, times[n - 1] - times[j], times[n] - times[n - 1]);
    assert times[n - 1] - times[j] + (times[n] - times[n - 1]) == times[n] - times[j];
  }

  lemma RoomNow(p: Limits, times: seq<real>, d: seq<bool>, n: nat)
    requires n < |times| == |d|
    ensures Room(p, times, d, n, n) == p.burst
  {
    hide Gain;
    assert Gain(p, 0.0) == 0.0 by {
      GainAdds(p, 0.0, 0.0);
    }
  }

  /** The level a call finds is exactly the least room over all windows ending at it. */
  lemma {:induction false} LevelIsLeastRoom(p: Limits, b: Level, times: seq<real>, n: nat) returns (least: nat)
    requires p.Valid() && Sorted(times) && n < |times| && FreshFor(p, b, times)
    ensures least <= n
    ensures var d := Answers(p, b, times);
            LevelAt(p, b, times, n) == Room(p, times, d, least, n)
            && forall j | 0 <= j <= n :: LevelAt(p, b, times, n) <= Room(p, times, d, j, n)
  {
    hide *;
    var d := Answers(p, b, times);
    least := n;
    RoomNow(p, times, d, n);
    if n == 0 {
      FirstLevel(p, b, times);
    } else {
      var before := LevelIsLeastRoom(p, b, times, n - 1);
      RefillStep(p, b, times, n);
      forall j | 0 <= j < n
        ensures LevelAt(p, b, times, n) <= Room(p, times, d, j, n)
      {
        RoomStep(p, times, d, j, n);
      }
      RoomStep(p, times, d, before, n);
      if LevelAt(p, b, times, n) < p.burst {
        least := before;
      }
    }
  }

  /** A call is refused exactly when admitting it would push some window past its bound. */
  lemma {:induction false} RefusesOnlyWhenFull(p: Limits, b: Level, times: seq<real>, n: nat)
    requires p.Valid() && Sorted(times) && n < |times| && FreshFor(p, b, times)
    ensures var d := Answers(p, b, times);
            d[n] <==> forall j | 0 <= j <= n ::
              Count(d, j, n) as real + 1.0 <= p.burst + Gain(p, times[n] - times[j])
  {
    hide Gain;
    var d := Answers(p, b, times);
    var least := LevelIsLeastRoom(p, b, times, n);
    assert forall j | 0 <= j <= n ::
        (Count(d, j, n) as real + 1.0 <= p.burst + Gain(p, times[n] - times[j])) == (Room(p, times, d, j, n) >= 1.0);
  }

  lemma {:induction false} TokensNeverNegative(p: Limits, b: Level, times: seq<real>, n: nat)
    requires p.Valid() && Sorted(times) && n < |times| && FreshFor(p, b, times)
    ensures LevelAt(p, b, times, n) >= 0.0
  {
    assert p.burst >= 0.0 && (n > 0 ==> times[n - 1] <= times[n]);
    hide *;
    if n == 0 {
      FirstLevel(p, b, times);
    } else {
      TokensNeverNegative(p, b, times, n - 1);
      RefillStep(p, b, times, n);
      GainGrows(p, times[n] - times[n - 1]);
    }
  }

  /** No window is ever pushed past burst + rate * length. */
  lemma {:induction false} BucketConforms(p: Limits, b: Level, times: seq<real>)
    requires p.Valid() && Sorted(times) && FreshFor(p, b, times)
    ensures Conforms(p, times, Answers(p, b, times))
  {
    hide Gain, LevelAt, Room, Sorted, Limits.Valid, FreshFor;
    var d := Answers(p, b, times);
    forall j, n | 0 <= j <= n < |times|
      ensures Room(p, times, d, j, n) >= (if d[n] then 1.0 else 0.0)
    {
      var _ := LevelIsLeastRoom(p, b, times, n);
      TokensNeverNegative(p, b, times, n);
    }
  }

  /** A bucket that refuses while d admits is ahead of d in the window it found full. */
  lemma AheadInFullWindow(p: Limits, times: seq<real>, mine: seq<bool>, d: seq<bool>, j: nat, n: nat)
    requires |d| == |mine| == |times| && j <= n < |times|
    requires Conforms(p, times, d) && d[n]
    requires Room(p, times, mine, j, n) < 1.0
    ensures Count(d, j, n) < Count(mine, j, n)
  {
    hide Gain, Count;
    assert Room(p, times, d, j, n) >= 1.0;
  }

  /** The bucket never refuses needlessly: no decision procedure that keeps every window within
      its bound has admitted more calls at any point, not even one that knows the future. */
  lemma {:induction false} BucketIsOptimal(p: Limits, b: Level, times: seq<real>, d: seq<bool>, n: nat)
    requires p.Valid() && Sorted(times) && FreshFor(p, b, times)
    requires |d| == |times| && Conforms(p, times, d) && n <= |times|
    ensures Count(d, 0, n) <= Count(Answers(p, b, times), 0, n)
    decreases n
  {
    var mine := Answers(p, b, times);
    if n == 0 {
    } else {
      BucketIsOptimal(p, b, times, d, n - 1);
      if d[n - 1] && !mine[n - 1] {
        hide LevelAt, Room, Conforms, Sorted, FreshFor, Limits.Valid;
        var j := LevelIsLeastRoom(p, b, times, n - 1);
        AheadInFullWindow(p, times, mine, d, j, n - 1);
        CountSplit(d, 0, j, n - 1);
        CountSplit(mine, 0, j, n - 1);
        BucketIsOptimal(p, b, times, d, j);
      }
    }
  }

  // ---- Windows of time ----

  /** How many of the first n calls were admitted at a time from x to y. */
  function AdmittedIn(times: seq<real>, d: seq<bool>, n: nat, x: real, y: real): nat
    requires n <= |times| == |d|
  {
    if n == 0 then 0
    else AdmittedIn(times, d, n - 1, x, y) + (if d[n - 1] && x <= times[n - 1] <= y then 1 else 0)
  }

  lemma {:induction false} NoneAdmittedBefore(times: seq<real>, d: seq<bool>, n: nat, x: real, y: real)
    requires n <= |times| == |d| && Sorted(times) && (n > 0 ==> times[n - 1] < x)
    ensures AdmittedIn(times, d, n, x, y) == 0
  {
    if n == 0 {
    } else {
      assert n > 1 ==> times[n - 2] <= times[n - 1];
      NoneAdmittedBefore(times, d, n - 1, x, y);
    }
  }

  lemma {:induction false} AdmittedFrom(times: seq<real>, d: seq<bool>, n: nat, x: real, y: real) returns (j: nat)
    requires 0 < n <= |times| == |d| && Sorted(times) && x <= times[n - 1]
    ensures j < n && x <= times[j] && AdmittedIn(times, d, n, x, y) <= Count(d, j, n)
  {
    if n == 1 || times[n - 2] < x {
      j := n - 1;
      NoneAdmittedBefore(times, d, n - 1, x, y);
    } else {
      j := AdmittedFrom(times, d, n - 1, x, y);
    }
  }

  /** Decisions that conform admit at most burst + rate * (y - x) calls from time x to time y, whatever x and y. */
  lemma {:induction false} WindowBound(p: Limits, times: seq<real>, d: seq<bool>, n: nat, x: real, y: real)
    requires p.Valid() && n <= |times| == |d| && Sorted(times) && Conforms(p, times, d) && x <= y
    ensures AdmittedIn(times, d, n, x, y) as real <= p.burst + Gain(p, y - x)
  {
    if n == 0 {
      GainGrows(p, y - x);
    } else if x <= times[n - 1] <= y {
      var j := AdmittedFrom(times, d, n, x, y);
      assert Room(p, times, d, j, n - 1) >= (if d[n - 1] then 1.0 else 0.0);
      hide Gain;
      assert times[j] <= times[n - 1];
      GainAdds(p, times[n - 1] - times[j], y - x - (times[n - 1] - times[j]));
      GainGrows(p, y - x - (times[n - 1] - times[j]));
    } else {
      WindowBound(p, times, d, n - 1, x, y);
    }
  }

  lemma {:induction false} AdmittedFirst(times: seq<real>, d: seq<bool>, n: nat, x: real, y: real)
    requires 0 < n <= |times| == |d|
    ensures AdmittedIn(times, d, n, x, y)
         == (if d[0] && x <= times[0] <= y then 1 else 0) + AdmittedIn(times[1..], d[1..], n - 1, x, y)
  {
    if n == 1 {
      assert AdmittedIn(times, d, 0, x, y) == 0;
    } else {
      AdmittedFirst(times, d, n - 1, x, y);
    }
  }

  /** After a first call the bucket goes on like one started from what that call left. */
  lemma {:induction false} AfterFirst(p: Limits, b: Level, times: seq<real>, n: nat)
    requires 0 < n <= |times|
    ensures After(p, b, times, n) == After(p, Take(p, b, times[0]).0, times[1..], n - 1)
  {
    if n == 1 {
      assert After(p, b, times, 0) == b;
    } else {
      AfterFirst(p, b, times, n - 1);
    }
  }

  lemma {:induction false} AnswersFirst(p: Limits, b: Level, times: seq<real>)
    requires times != []
    ensures var first := Take(p, b, times[0]);
            Answers(p, b, times) == [first.1] + Answers(p, first.0, times[1..])
  {
    var first := Take(p, b, times[0]);
    var d, tail := Answers(p, b, times), Answers(p, first.0, times[1..]);
    forall n | 0 <= n < |times|
      ensures d[n] == ([first.1] + tail)[n]
    {
      if n > 0 {
        AfterFirst(p, b, times, n);
      }
    }
  }
}

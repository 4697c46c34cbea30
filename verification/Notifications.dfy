/** Delivery with bounded retries in the notification service
    (services/notification-service/cmd/main.go, lines 30-124, 200-229 and 256-272).
    As written, `deliver` calls MoveToDLQ from inside Update, which already holds the same mutex, and Go's
    mutexes are not reentrant. Deliver below is the intended effect, with the inner lock left out;
    DeliverAsWritten takes every lock the code takes, and the two are compared at the end. */
module Notifications {
  import opened Counting
  import opened Sums
  import opened Windows

  datatype Status = Pending | Sent | Failed | Retrying | Dead

  datatype Notification = Notification(status: Status, attempts: int, maxAttempts: int)

  datatype Store = Store(notifications: map<string, Notification>, dlq: seq<string>)

  const MAX_ATTEMPTS := 5
  const MAX_DLQ := 1000
  const EMPTY := Store(map[], [])

  predicate IsPending(n: Notification) {
    n.status == Pending || n.status == Retrying
  }

  /** Does a failed delivery use up the last attempt? */
  predicate LastAttempt(n: Notification) {
    n.attempts + 1 >= n.maxAttempts
  }

  function Delivered(n: Notification, ok: bool): Notification {
    n.(attempts := n.attempts + 1, status := if ok then Sent else if LastAttempt(n) then Dead else Retrying)
  }

  /** One delivery, with the provider's answer. */
  function Deliver(s: Store, id: string, ok: bool): Store {
    if id !in s.notifications then s
    else
      var n := s.notifications[id];
      Store(s.notifications[id := Delivered(n, ok)],
        if !ok && LastAttempt(n) then Last(s.dlq + [id], MAX_DLQ) else s.dlq)
  }

  function Create(s: Store, id: string): Store {
    s.(notifications := s.notifications[id := Notification(Pending, 0, MAX_ATTEMPTS)])
  }

  /** Send: stored, then delivered at once. */
  function Send(s: Store, id: string, ok: bool): Store {
    Deliver(Create(s, id), id, ok)
  }

  // ---- Sequential runs ----

  datatype Op =
    | CreateOp(id: string)
    | DeliverOp(id: string, ok: bool)

  function Step(s: Store, op: Op): Store {
    match op
    case CreateOp(id) => Create(s, id)
    case DeliverOp(id, ok) => Deliver(s, id, ok)
  }

  function Run(ops: seq<Op>): Store {
    if ops == [] then EMPTY else Step(Run(ops[..|ops| - 1]), ops[|ops| - 1])
  }

  predicate Kills(s: Store, op: Op) {
    op.DeliverOp? && !op.ok && op.id in s.notifications && LastAttempt(s.notifications[op.id])
  }

  /** Every notification moved to the dead letter queue, in order. */
  function DeadLog(ops: seq<Op>): seq<string> {
    if ops == [] then []
    else
      var before, last := ops[..|ops| - 1], ops[|ops| - 1];
      if Kills(Run(before), last) then DeadLog(before) + [last.id] else DeadLog(before)
  }

  /** New ids only, and only notifications that are still pending are delivered: what one delivery at a time means. */
  ghost predicate Allowed(s: Store, op: Op) {
    if op.CreateOp? then op.id !in s.notifications
    else op.id in s.notifications && IsPending(s.notifications[op.id])
  }

  ghost predicate Sequential(ops: seq<Op>) {
    forall n | 0 <= n < |ops| :: Allowed(Run(ops[..n]), ops[n])
  }

  ghost predicate Fine(n: Notification) {
    && n.maxAttempts == MAX_ATTEMPTS && 0 <= n.attempts <= n.maxAttempts
    && n.status != Failed
    && (IsPending(n) ==> n.attempts < n.maxAttempts)
    && (n.status == Dead ==> n.attempts == n.maxAttempts)
  }

  ghost predicate AllFine(s: Store) {
    forall id | id in s.notifications :: Fine(s.notifications[id])
  }

  ghost predicate IsDead(s: Store, id: string) {
    id in s.notifications && s.notifications[id].status == Dead
  }

  ghost predicate QueueMatches(s: Store, log: seq<string>) {
    && s.dlq == Last(log, 1000)
    && NoDuplicates(log)
    && forall id :: id in log <==> IsDead(s, id)
  }

  lemma StepFine(s: Store, op: Op)
    requires AllFine(s) && Allowed(s, op)
    ensures AllFine(Step(s, op))
  {
  }

  lemma StepQueueMatches(s: Store, log: seq<string>, op: Op)
    requires AllFine(s) && Allowed(s, op) && QueueMatches(s, log)
    ensures QueueMatches(Step(s, op), if Kills(s, op) then log + [op.id] else log)
  {
    var t, log' := Step(s, op), if Kills(s, op) then log + [op.id] else log;
    assert !IsDead(s, op.id);
    assert forall id :: IsDead(t, id) <==> IsDead(s, id) || (Kills(s, op) && id == op.id);
    LastAppend(log, op.id, MAX_DLQ);
    hide Last, IsDead, AllFine, Allowed;
    assert forall id :: id in log' <==> id in log || (Kills(s, op) && id == op.id);
  }

  /** The queue is the last MAX_DLQ notifications that died, in the order they died; each died once, and those
      that died are exactly those marked dead. */
  lemma {:induction false} QueueIsLastDead(ops: seq<Op>)
    requires Sequential(ops)
    ensures AllFine(Run(ops)) && QueueMatches(Run(ops), DeadLog(ops))
  {
    if ops == [] {
    } else {
      var before, last := ops[..|ops| - 1], ops[|ops| - 1];
      assert forall n | 0 <= n <= |before| :: before[..n] == ops[..n];
      assert ops[..|before|] == before;
      QueueIsLastDead(before);
      assert Allowed(Run(before), last);
      StepFine(Run(before), last);
      StepQueueMatches(Run(before), DeadLog(before), last);
      hide AllFine, QueueMatches, Allowed, Step, Kills;
    }
  }

  // ---- Deliveries that overlap ----

  /** New ids only; deliveries of one notification may otherwise overlap in any way, each taking effect when it
      updates the store. */
  ghost predicate FreshCreates(ops: seq<Op>) {
    forall n | 0 <= n < |ops| :: ops[n].CreateOp? ==> ops[n].id !in Run(ops[..n]).notifications
  }

  function NextOutcomes(s: Store, outcomes: seq<bool>, op: Op, id: string): seq<bool> {
    if op.id != id then outcomes
    else if op.CreateOp? then []
    else if id in s.notifications then outcomes + [op.ok]
    else outcomes
  }

  /** The outcomes of the deliveries of one notification, in the order they took effect. */
  function Outcomes(ops: seq<Op>, id: string): seq<bool> {
    if ops == [] then []
    else
      var before, last := ops[..|ops| - 1], ops[|ops| - 1];
      NextOutcomes(Run(before), Outcomes(before, id), last, id)
  }

  /** What a notification's outcomes make of it. */
  function After(outcomes: seq<bool>): Notification {
    var n := |outcomes|;
    var status :=
      if n == 0 then Pending else if outcomes[n - 1] then Sent else if n >= MAX_ATTEMPTS then Dead else Retrying;
    Notification(status, n, MAX_ATTEMPTS)
  }

  /** Failures from the MAX_ATTEMPTS-th delivery on. */
  function LateFailures(outcomes: seq<bool>): nat {
    var n := |outcomes|;
    if n == 0 then 0
    else LateFailures(outcomes[..n - 1]) + (if n >= MAX_ATTEMPTS && !outcomes[n - 1] then 1 else 0)
  }

  lemma LateFailuresNext(outcomes: seq<bool>, ok: bool)
    ensures LateFailures(outcomes + [ok])
         == LateFailures(outcomes) + (if |outcomes| + 1 >= MAX_ATTEMPTS && !ok then 1 else 0)
  {
    assert (outcomes + [ok])[..|outcomes|] == outcomes;
  }

  lemma {:induction false} RunQueue(ops: seq<Op>)
    ensures Run(ops).dlq == Last(DeadLog(ops), MAX_DLQ)
  {
    if ops == [] {
    } else {
      RunQueue(ops[..|ops| - 1]);
      LastAppend(DeadLog(ops[..|ops| - 1]), ops[|ops| - 1].id, MAX_DLQ);
    }
  }

  ghost predicate Decided(s: Store, log: seq<string>, outcomes: seq<bool>, id: string) {
    && (id in s.notifications ==> s.notifications[id] == After(outcomes))
    && (id !in s.notifications ==> outcomes == [])
    && Occurrences(log, id) == LateFailures(outcomes)
  }

  lemma StepDecides(s: Store, log: seq<string>, outcomes: seq<bool>, op: Op, id: string)
    requires Decided(s, log, outcomes, id) && (op.CreateOp? ==> op.id !in s.notifications)
    ensures Decided(Step(s, op), if Kills(s, op) then log + [op.id] else log, NextOutcomes(s, outcomes, op, id), id)
  {
    OccurrencesNext(log, op.id);
    if op.DeliverOp? {
      LateFailuresNext(outcomes, op.ok);
    }
    hide Occurrences, LateFailures, Last;
  }

  /** However deliveries overlap, a notification is what its own outcomes make of it: the last one decides its
      status, so a straggler can bring a sent one back; and it is moved to the queue once for every failure from
      its fifth delivery on. */
  lemma {:induction false} OutcomesDecide(ops: seq<Op>, id: string)
    requires FreshCreates(ops)
    ensures Decided(Run(ops), DeadLog(ops), Outcomes(ops, id), id)
    ensures Run(ops).dlq == Last(DeadLog(ops), 1000)
  {
    RunQueue(ops);
    if ops == [] {
    } else {
      var before, last := ops[..|ops| - 1], ops[|ops| - 1];
      assert forall n | 0 <= n <= |before| :: before[..n] == ops[..n];
      assert ops[..|before|] == before;
      OutcomesDecide(before, id);
      StepDecides(Run(before), DeadLog(before), Outcomes(before, id), last, id);
      hide Decided, Step, NextOutcomes, Kills;
    }
  }

  /** However deliveries overlap, the log holds each notification that failed from its fifth delivery on, and
      holds none twice exactly if none failed so more than once. */
  lemma QueuedOnceExactly(ops: seq<Op>)
    requires FreshCreates(ops)
    ensures forall id :: id in DeadLog(ops) <==> LateFailures(Outcomes(ops, id)) > 0
    ensures NoDuplicates(DeadLog(ops)) <==> forall id :: LateFailures(Outcomes(ops, id)) <= 1
  {
    var log := DeadLog(ops);
    forall id
      ensures Occurrences(log, id) == LateFailures(Outcomes(ops, id))
      ensures id in log <==> Occurrences(log, id) > 0
      ensures AtMostOnce(log, id) <==> LateFailures(Outcomes(ops, id)) <= 1
    {
      OutcomesDecide(ops, id);
      InMeansOccurs(log, id);
    }
    DuplicatesOccurTwice(log);
  }

  /** A notification that is sent under a new id has been tried once: it is sent, or waits for another try, and
      nothing else in the store changes. */
  lemma SendTriesOnce(s: Store, id: string, ok: bool)
    requires id !in s.notifications
    ensures var t := Send(s, id, ok);
            && t.notifications == s.notifications[id := Notification(if ok then Sent else Retrying, 1, 5)]
            && t.dlq == s.dlq
  {
    var t := Send(s, id, ok);
    assert t.notifications == s.notifications[id := Notification(if ok then Sent else Retrying, 1, 5)];
  }

  /** Sending is a creation and a delivery, one after the other. */
  lemma SendIsARun(ops: seq<Op>, id: string, ok: bool)
    ensures Send(Run(ops), id, ok) == Run(ops + [CreateOp(id), DeliverOp(id, ok)])
  {
    var created := ops + [CreateOp(id)];
    assert created[..|ops|] == ops;
    assert ops + [CreateOp(id), DeliverOp(id, ok)] == created + [DeliverOp(id, ok)];
    assert (created + [DeliverOp(id, ok)])[..|created|] == created;
  }

  // ---- The budget of attempts ----

  /** A pending notification has attempts left. */
  ghost predicate Ready(n: Notification) {
    n.status != Failed && (IsPending(n) ==> 0 <= n.attempts < n.maxAttempts == MAX_ATTEMPTS)
  }

  ghost predicate AllReady(s: Store) {
    forall id | id in s.notifications :: Ready(s.notifications[id])
  }

  /** It holds in every run, however deliveries overlap. */
  lemma RunsAreReady(ops: seq<Op>)
    requires FreshCreates(ops)
    ensures AllReady(Run(ops))
  {
    forall id | id in Run(ops).notifications
      ensures Ready(Run(ops).notifications[id])
    {
      OutcomesDecide(ops, id);
    }
  }

  ghost function AttemptsLeft(): Notification -> int {
    (n: Notification) => if IsPending(n) then n.maxAttempts - n.attempts else 0
  }

  /** Attempts that pending notifications still have, all together. */
  ghost function Budget(s: Store): int {
    Sum(s.notifications, AttemptsLeft())
  }

  /** Every delivery of a pending notification uses up some of the budget, which is never negative. */
  lemma DeliverySpendsBudget(s: Store, id: string, ok: bool)
    requires AllReady(s) && id in s.notifications && IsPending(s.notifications[id])
    ensures 0 <= Budget(Deliver(s, id, ok)) < Budget(s) && AllReady(Deliver(s, id, ok))
  {
    var t := Deliver(s, id, ok);
    SumPut(s.notifications, AttemptsLeft(), id, t.notifications[id]);
    assert AllReady(t);
    SumAtLeast(t.notifications, AttemptsLeft(), id);
  }

  // ---- Rounds of processPending ----

  function PendingIds(s: Store): set<string> {
    set id | id in s.notifications && IsPending(s.notifications[id])
  }

  /** A snapshot of the pending notifications, in whatever order the map gave them. */
  ghost predicate IsSnapshot(s: Store, order: seq<string>) {
    NoDuplicates(order) && forall id :: id in order <==> id in PendingIds(s)
  }

  /** Deliver a snapshot in order; up says how the provider answers for each notification. */
  function Round(s: Store, order: seq<string>, up: string -> bool): Store {
    if order == [] then s
    else Deliver(Round(s, order[..|order| - 1], up), order[|order| - 1], up(order[|order| - 1]))
  }

  /** A round delivers each notification of its snapshot once, still pending when its turn comes. */
  lemma {:induction false} RoundDeliversEach(s: Store, order: seq<string>, up: string -> bool)
    requires NoDuplicates(order) && forall id | id in order :: id in s.notifications
    ensures Round(s, order, up).notifications
         == map id | id in s.notifications ::
              if id in order then Delivered(s.notifications[id], up(id)) else s.notifications[id]
  {
    if order == [] {
      assert Round(s, order, up).notifications == s.notifications;
    } else {
      var before, last := order[..|order| - 1], order[|order| - 1];
      assert order == before + [last];
      RoundDeliversEach(s, before, up);
    }
  }

  /** So a round is a sequential run of deliveries. */
  lemma RoundIsSequential(s: Store, order: seq<string>, up: string -> bool, n: nat)
    requires IsSnapshot(s, order) && n < |order|
    ensures Allowed(Round(s, order[..n], up), DeliverOp(order[n], up(order[n])))
    ensures Round(s, order[..n + 1], up) == Step(Round(s, order[..n], up), DeliverOp(order[n], up(order[n])))
  {
    assert order[n] in order;
    assert forall id | id in order[..n] :: id in order;
    RoundDeliversEach(s, order[..n], up);
    assert order[..n + 1][..n] == order[..n];
  }

  datatype Turn = Turn(order: seq<string>, up: string -> bool)

  function Rounds(s: Store, turns: seq<Turn>): Store {
    if turns == [] then s
    else Round(Rounds(s, turns[..|turns| - 1]), turns[|turns| - 1].order, turns[|turns| - 1].up)
  }

  ghost predicate TakeSnapshots(s: Store, turns: seq<Turn>) {
    forall n | 0 <= n < |turns| :: IsSnapshot(Rounds(s, turns[..n]), turns[n].order)
  }

  ghost predicate PendingTried(s: Store, keys: set<string>, n: int) {
    && AllReady(s) && s.notifications.Keys == keys
    && forall id | id in PendingIds(s) :: s.notifications[id].attempts >= n
  }

  lemma RoundTriesEach(s: Store, keys: set<string>, n: int, order: seq<string>, up: string -> bool)
    requires PendingTried(s, keys, n) && IsSnapshot(s, order)
    ensures PendingTried(Round(s, order, up), keys, n + 1)
  {
    var t := Round(s, order, up);
    RoundDeliversEach(s, order, up);
    hide Round;
    forall id | id in t.notifications
      ensures Ready(t.notifications[id]) && (IsPending(t.notifications[id]) ==> t.notifications[id].attempts >= n + 1)
    {
      assert Ready(s.notifications[id]);
      assert id in order <==> id in PendingIds(s);
    }
  }

  lemma {:induction false} RoundsRaiseAttempts(s: Store, turns: seq<Turn>)
    requires AllReady(s) && TakeSnapshots(s, turns)
    ensures PendingTried(Rounds(s, turns), s.notifications.Keys, |turns|)
  {
    if turns == [] {
    } else {
      var before, last := turns[..|turns| - 1], turns[|turns| - 1];
      assert forall n | 0 <= n <= |before| :: before[..n] == turns[..n];
      assert turns[..|before|] == before;
      RoundsRaiseAttempts(s, before);
      RoundTriesEach(Rounds(s, before), s.notifications.Keys, |before|, last.order, last.up);
    }
  }

  /** With no new sends, MAX_ATTEMPTS rounds leave nothing pending: every notification is sent or dead, whatever
      the provider answers, and whatever overlapping deliveries did before. */
  lemma RoundsFinish(s: Store, turns: seq<Turn>)
    requires AllReady(s) && TakeSnapshots(s, turns) && |turns| >= 5
    ensures var t := Rounds(s, turns);
            && PendingIds(t) == {}
            && t.notifications.Keys == s.notifications.Keys
            && forall id | id in t.notifications ::
                 t.notifications[id].status == Sent || t.notifications[id].status == Dead
  {
    RoundsRaiseAttempts(s, turns);
    var t := Rounds(s, turns);
    forall id | id in t.notifications
      ensures !IsPending(t.notifications[id])
    {
      assert Ready(t.notifications[id]) && (IsPending(t.notifications[id]) ==> id in PendingIds(t));
    }
  }

  // ---- The locks the code takes ----

  /** What a piece of locking code comes to. */
  datatype Ran<T> = Finished(value: T) | Deadlocked

  datatype Locked = Locked(store: Store, held: bool)

  /** Locking a mutex one already holds waits for ever. */
  function Lock(l: Locked): Ran<Locked> {
    if l.held then Deadlocked else Finished(l.(held := true))
  }

  function MoveToDLQ(l: Locked, id: string): Ran<Locked>
    requires id in l.store.notifications
  {
    match Lock(l)
    case Deadlocked => Deadlocked
    case Finished(l') =>
      var n := l'.store.notifications[id].(status := Dead);
      Finished(Locked(Store(l'.store.notifications[id := n], Last(l'.store.dlq + [id], MAX_DLQ)), false))
  }

  /** The function that deliver passes to Update. */
  function Applied(l: Locked, id: string, ok: bool): Ran<Locked>
    requires id in l.store.notifications
  {
    var n := l.store.notifications[id];
    var n' := n.(attempts := n.attempts + 1);
    if ok then Finished(l.(store := l.store.(notifications := l.store.notifications[id := n'.(status := Sent)])))
    else if n'.attempts >= n'.maxAttempts then
      MoveToDLQ(l.(store := l.store.(notifications := l.store.notifications[id := n'])), id)
    else Finished(l.(store := l.store.(notifications := l.store.notifications[id := n'.(status := Retrying)])))
  }

  function DeliverAsWritten(l: Locked, id: string, ok: bool): Ran<Locked> {
    match Lock(l)
    case Deadlocked => Deadlocked
    case Finished(l') =>
      if id !in l'.store.notifications then Finished(l'.(held := false))
      else
        match Applied(l', id, ok)
        case Deadlocked => Deadlocked
        case Finished(l'') => Finished(l''.(held := false))
  }

  function RunAsWritten(ops: seq<Op>): Ran<Store> {
    if ops == [] then Finished(EMPTY)
    else
      match RunAsWritten(ops[..|ops| - 1])
      case Deadlocked => Deadlocked
      case Finished(s) =>
        match ops[|ops| - 1]
        case CreateOp(id) => Finished(Create(s, id))
        case DeliverOp(id, ok) =>
          match DeliverAsWritten(Locked(s, false), id, ok)
          case Deadlocked => Deadlocked
          case Finished(l) => Finished(l.store)
  }

  /** The code as written deadlocks on exactly the deliveries that should have moved a notification to the dead
      letter queue; every other delivery does what is intended. */
  lemma DeadlocksExactlyOnLastFailure(s: Store, id: string, ok: bool)
    ensures DeliverAsWritten(Locked(s, false), id, ok)
         == if Kills(s, DeliverOp(id, ok)) then Deadlocked else Finished(Locked(Deliver(s, id, ok), false))
  {
  }

  /** So a run of the code as written gets to its end exactly when nothing was to be moved, and then its queue is
      empty: no notification ever reaches the dead letter queue. */
  lemma {:induction false} QueueNeverFills(ops: seq<Op>)
    ensures RunAsWritten(ops) == if DeadLog(ops) == [] then Finished(Run(ops)) else Deadlocked
    ensures RunAsWritten(ops).Finished? ==> RunAsWritten(ops).value.dlq == []
  {
    if ops == [] {
    } else {
      QueueNeverFills(ops[..|ops| - 1]);
      if ops[|ops| - 1].DeliverOp? {
        DeadlocksExactlyOnLastFailure(Run(ops[..|ops| - 1]), ops[|ops| - 1].id, ops[|ops| - 1].ok);
      }
    }
  }

  /** One notification that the provider keeps turning down. */
  function FailingRun(id: string, failures: nat): seq<Op> {
    if failures == 0 then [CreateOp(id)] else FailingRun(id, failures - 1) + [DeliverOp(id, false)]
  }

  function AfterFailures(id: string, failures: nat): Store {
    Store(map[id := Notification(if failures == 0 then Pending else Retrying, failures, MAX_ATTEMPTS)], [])
  }

  lemma OneMoreFailure(id: string, failures: nat)
    requires failures < MAX_ATTEMPTS
    ensures DeliverAsWritten(Locked(AfterFailures(id, failures), false), id, false)
         == if failures == MAX_ATTEMPTS - 1 then Deadlocked
            else Finished(Locked(AfterFailures(id, failures + 1), false))
  {
    var s := AfterFailures(id, failures);
    DeadlocksExactlyOnLastFailure(s, id, false);
    hide DeliverAsWritten;
    assert s.notifications[id := Delivered(s.notifications[id], false)]
        == map[id := Delivered(s.notifications[id], false)];
  }

  /** The fifth failure deadlocks, and none before it. */
  lemma {:induction false} FifthFailureDeadlocks(id: string, failures: nat)
    requires failures <= MAX_ATTEMPTS
    ensures RunAsWritten(FailingRun(id, failures))
         == if failures == MAX_ATTEMPTS then Deadlocked else Finished(AfterFailures(id, failures))
  {
    hide DeliverAsWritten;
    var run := FailingRun(id, failures);
    if failures == 0 {
      assert run[..0] == [];
    } else {
      hide AfterFailures;
      assert run[..|run| - 1] == FailingRun(id, failures - 1);
      FifthFailureDeadlocks(id, failures - 1);
      OneMoreFailure(id, failures - 1);
    }
  }
}

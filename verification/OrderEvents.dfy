/** What the published events say about an order, and when a cancellation lasts
    (services/order-service/cmd/main.go, lines 227-240 and 313-380). */
module OrderEvents {
  import opened Orders
  import opened OrderIdempotency

  /** The events of one order, in order; with or without its cancellations. */
  function EventsOf(log: seq<Event>, id: string, cancels: bool): seq<Kind> {
    if log == [] then []
    else
      var before, last := EventsOf(log[..|log| - 1], id, cancels), log[|log| - 1];
      if last.orderID == id && (cancels || last.kind != OrderCancelled) then before + [last.kind] else before
  }

  lemma EventsOfNext(log: seq<Event>, e: Event, id: string, cancels: bool)
    ensures EventsOf(log + [e], id, cancels)
         == if e.orderID == id && (cancels || e.kind != OrderCancelled) then EventsOf(log, id, cancels) + [e.kind]
            else EventsOf(log, id, cancels)
  {
    assert (log + [e])[..|log|] == log;
  }

  function ReasonFor(e: Ending): string {
    match e
    case NoStock => NO_STOCK
    case Unpaid => NO_PAYMENT
    case Paid => ""
  }

  /** An order is degraded, for the reason that fits, exactly when its call did not end paid. */
  predicate Shows(o: Order, e: Ending) {
    o.degraded == (e != Paid) && o.reason == ReasonFor(e)
  }

  function StatusAfter(e: Ending): Status {
    if e == Paid then Confirmed else PendingPayment
  }

  // ---- A call run on its own is a run of the machine ----

  lemma FromNext(reqs: Requests, s: System, a: Action, more: seq<Action>)
    ensures From(reqs, s, [a] + more) == From(reqs, Step(reqs, s, a), more)
    decreases |more|
  {
    var all := [a] + more;
    if more == [] {
      assert all[..0] == [];
    } else {
      FromNext(reqs, s, a, more[..|more| - 1]);
      assert all[..|all| - 1] == [a] + more[..|more| - 1];
    }
  }

  /** What Serve computes is what the machine does when it advances one call only, until it replies. */
  lemma {:induction false} ServeIsARun(reqs: Requests, s: System, id: string, stockUp: bool, paymentUp: bool)
    returns (run: seq<Action>)
    requires id in reqs && id in s.calls
    ensures forall a | a in run :: a.Advance? && a.id == id
    ensures var t, served := From(reqs, s, run), Serve(s.shared, reqs[id], id, s.calls[id], stockUp, paymentUp);
            t.shared == served.0 && t.calls == s.calls[id := served.1] && served.1.Replied?
    decreases Remaining(s.calls[id])
  {
    if s.calls[id].Replied? {
      run := [];
      assert s.calls == s.calls[id := s.calls[id]];
    } else {
      var a := Advance(id, if s.calls[id] == Reserving then stockUp else paymentUp);
      var t := Step(reqs, s, a);
      run := ServeIsARun(reqs, t, id, stockUp, paymentUp);
      FromNext(reqs, s, a, run);
      var final := Serve(t.shared, reqs[id], id, t.calls[id], stockUp, paymentUp).1;
      assert t.calls[id := final] == s.calls[id := final];
      run := [a] + run;
    }
  }

  // ---- Every interleaving ----

  /** Events and fields of the order of the call with id `id`, while the call is at pc. */
  ghost predicate Story(s: Shared, id: string, pc: Pc) {
    var told := EventsOf(s.log, id, false);
    match pc
    case Announcing => id in s.orders && told == [] && Shows(s.orders[id], Paid)
    case Reserving => id in s.orders && told == [OrderCreated] && Shows(s.orders[id], Paid)
    case ConfirmingStock => id in s.orders && told == [OrderCreated] && Shows(s.orders[id], Paid)
    case Charging => id in s.orders && told == [OrderCreated] && Shows(s.orders[id], Paid)
    case Marking(_) => id in s.orders && told == [OrderCreated] && Shows(s.orders[id], Paid)
    case Publishing(e) => id in s.orders && told == [OrderCreated] && Shows(s.orders[id], e)
    case Replied(_, false) =>
      id in s.orders && exists e :: told == [OrderCreated, KindOf(e)] && Shows(s.orders[id], e)
    case _ => told == []
  }

  lemma ActTells(s: Shared, r: Request, id: string, pc: Pc, up: bool)
    requires Story(s, id, pc)
    ensures var (t, pc') := Act(s, r, id, pc, up); Story(t, id, pc')
  {
    match pc
    case Announcing => EventsOfNext(s.log, Event(OrderCreated, id), id, false);
    case Publishing(e) => EventsOfNext(s.log, Event(KindOf(e), id), id, false);
    case _ =>
  }

  lemma ActTellsOther(s: Shared, r: Request, id: string, pc: Pc, up: bool, other: string, pc': Pc)
    requires other != id && Story(s, other, pc')
    ensures Story(Act(s, r, id, pc, up).0, other, pc')
  {
    match pc
    case Announcing => EventsOfNext(s.log, Event(OrderCreated, id), other, false);
    case Publishing(e) => EventsOfNext(s.log, Event(KindOf(e), id), other, false);
    case _ =>
  }

  lemma CancelTells(s: Shared, cancelled: string, id: string, pc: Pc)
    requires Story(s, id, pc)
    ensures Story(Cancel(s, cancelled).0, id, pc)
  {
    EventsOfNext(s.log, Event(OrderCancelled, cancelled), id, false);
  }

  ghost predicate Stories(reqs: Requests, s: System) {
    s.calls.Keys == reqs.Keys && forall id | id in reqs :: Story(s.shared, id, s.calls[id])
  }

  lemma StepTells(reqs: Requests, s: System, a: Action)
    requires Stories(reqs, s)
    ensures Stories(reqs, Step(reqs, s, a))
  {
    hide Story, Act, Cancel;
    var t := Step(reqs, s, a);
    forall id | id in reqs
      ensures Story(t.shared, id, t.calls[id])
    {
      match a
      case CancelOrder(cancelled) => CancelTells(s.shared, cancelled, id, s.calls[id]);
      case Advance(x, up) =>
        if x == id {
          ActTells(s.shared, reqs[id], id, s.calls[id], up);
        } else if x in reqs {
          ActTellsOther(s.shared, reqs[x], x, s.calls[x], up, id, s.calls[id]);
        }
    }
  }

  lemma {:induction false} RunTells(reqs: Requests, run: seq<Action>)
    ensures Stories(reqs, Run(reqs, run))
  {
    if run == [] {
    } else {
      RunTells(reqs, run[..|run| - 1]);
      StepTells(reqs, Run(reqs, run[..|run| - 1]), run[|run| - 1]);
    }
  }

  /** However calls and cancellations interleave, the call that created an order has published, cancellations
      aside, that it was created and then the one ending that the order's fields show. */
  lemma EventsMatchFields(reqs: Requests, run: seq<Action>, id: string) returns (e: Ending)
    requires id in reqs && id in Run(reqs, run).calls && Run(reqs, run).calls[id] == Replied(id, false)
    ensures var s := Run(reqs, run).shared;
            && id in s.orders
            && EventsOf(s.log, id, false) == [OrderCreated, KindOf(e)]
            && Shows(s.orders[id], e)
  {
    RunTells(reqs, run);
    var s := Run(reqs, run).shared;
    assert Story(s, id, Replied(id, false));
    e :| EventsOf(s.log, id, false) == [OrderCreated, KindOf(e)] && Shows(s.orders[id], e);
  }

  // ---- Cancellations ----

  /** Only an order that is there can be cancelled. If it was not shipped or delivered it is cancelled, which is
      published once; nothing else about it, or about any other order, changes. */
  lemma CancelAnswers(s: Shared, id: string)
    ensures var (t, found) := Cancel(s, id);
            && (found <==> id in s.orders)
            && t.records == s.records && t.orders.Keys == s.orders.Keys
            && (forall x | x in s.orders && x != id :: t.orders[x] == s.orders[x])
            && (!found || s.orders[id].status in {Shipped, Delivered} ==> t == s)
            && (found && s.orders[id].status !in {Shipped, Delivered} ==>
                 && t.orders[id] == s.orders[id].(status := Cancelled)
                 && EventsOf(t.log, id, true) == EventsOf(s.log, id, true) + [OrderCancelled]
                 && (forall x | x != id :: EventsOf(t.log, x, true) == EventsOf(s.log, x, true)))
  {
    forall x
      ensures EventsOf(s.log + [Event(OrderCancelled, id)], x, true)
           == EventsOf(s.log, x, true) + (if x == id then [OrderCancelled] else [])
    {
      EventsOfNext(s.log, Event(OrderCancelled, id), x, true);
    }
  }

  /** The call that made the order will not write to it again. */
  predicate PastLastUpdate(pc: Pc) {
    pc.Publishing? || (pc.Replied? && !pc.idempotent)
  }

  predicate IsCancelled(s: Shared, id: string) {
    id in s.orders && s.orders[id].status == Cancelled
  }

  /** No step ships or delivers an order, so a cancellation is never turned down. */
  ghost predicate Undelivered(s: Shared) {
    forall id | id in s.orders :: s.orders[id].status != Shipped && s.orders[id].status != Delivered
  }

  lemma StepUndelivered(reqs: Requests, s: System, a: Action)
    requires Undelivered(s.shared)
    ensures Undelivered(Step(reqs, s, a).shared)
  {
  }

  lemma {:induction false} RunUndelivered(reqs: Requests, run: seq<Action>)
    ensures Undelivered(Run(reqs, run).shared)
  {
    if run == [] {
    } else {
      RunUndelivered(reqs, run[..|run| - 1]);
      StepUndelivered(reqs, Run(reqs, run[..|run| - 1]), run[|run| - 1]);
      hide Undelivered, Step;
    }
  }

  lemma StepStaysCancelled(reqs: Requests, s: System, a: Action, id: string)
    requires id in s.calls && PastLastUpdate(s.calls[id]) && IsCancelled(s.shared, id)
    ensures var t := Step(reqs, s, a); id in t.calls && PastLastUpdate(t.calls[id]) && IsCancelled(t.shared, id)
  {
  }

  lemma {:induction false} StaysCancelled(reqs: Requests, s: System, more: seq<Action>, id: string)
    requires id in s.calls && PastLastUpdate(s.calls[id]) && IsCancelled(s.shared, id)
    ensures var t := From(reqs, s, more); id in t.calls && PastLastUpdate(t.calls[id]) && IsCancelled(t.shared, id)
  {
    if more == [] {
    } else {
      StaysCancelled(reqs, s, more[..|more| - 1], id);
      StepStaysCancelled(reqs, From(reqs, s, more[..|more| - 1]), more[|more| - 1], id);
    }
  }

  /** The status that the next updates of a call leave when every downstream answers. */
  function OverwrittenWith(pc: Pc): Status {
    if pc.Marking? then StatusAfter(pc.ending) else Confirmed
  }

  /** Before its last update, a call left alone overwrites a cancellation: steps of that call alone, with every
      downstream up, make the order Confirmed, or PendingPayment if it had already failed. */
  lemma {:induction false} OverwritesCancel(reqs: Requests, s: System, id: string) returns (more: seq<Action>)
    requires id in reqs && id in s.calls && id in s.shared.orders
    requires s.calls[id] in {Announcing, Reserving, ConfirmingStock, Charging} || s.calls[id].Marking?
    ensures forall a | a in more :: a == Advance(id, true)
    ensures var t := From(reqs, s, more).shared; id in t.orders && t.orders[id].status == OverwrittenWith(s.calls[id])
    ensures !IsCancelled(From(reqs, s, more).shared, id)
    decreases Remaining(s.calls[id])
  {
    var a := Advance(id, true);
    var t := Step(reqs, s, a);
    if s.calls[id] == ConfirmingStock || s.calls[id].Marking? {
      more := [];
      assert From(reqs, t, more) == t;
    } else {
      more := OverwritesCancel(reqs, t, id);
    }
    FromNext(reqs, s, a, more);
    more := [a] + more;
  }

  /** Where a run leaves one call, its order and the log. */
  ghost predicate Reached(reqs: Requests, run: seq<Action>, id: string, pc: Pc, status: Status, log: seq<Event>) {
    var s := Run(reqs, run);
    && id in s.calls && s.calls[id] == pc
    && id in s.shared.orders && s.shared.orders[id].status == status
    && s.shared.log == log
  }

  /** The call stores its order, and the order is cancelled before the call has announced it. */
  lemma UntilCancelled(reqs: Requests, id: string) returns (run: seq<Action>)
    requires id in reqs && reqs[id].key == ""
    ensures Reached(reqs, run, id, Announcing, Cancelled, [Event(OrderCancelled, id)])
  {
    var a := Advance(id, true);
    run := [];
    assert Run(reqs, run) == Init(reqs);
    hide Run, From;
    OneMore(reqs, run, a);
    run := run + [a];
    OneMore(reqs, run, a);
    run := run + [a];
    OneMore(reqs, run, CancelOrder(id));
    run := run + [CancelOrder(id)];
  }

  /** One more step of the call, with its downstream up. */
  lemma Advanced(reqs: Requests, run: seq<Action>, id: string, pc: Pc, status: Status, log: seq<Event>)
    returns (longer: seq<Action>)
    requires id in reqs && Reached(reqs, run, id, pc, status, log)
    ensures longer == run + [Advance(id, true)]
    ensures pc == Announcing ==> Reached(reqs, longer, id, Reserving, status, log + [Event(OrderCreated, id)])
    ensures pc == Reserving ==> Reached(reqs, longer, id, ConfirmingStock, status, log)
    ensures pc == ConfirmingStock ==> Reached(reqs, longer, id, Charging, Confirmed, log)
    ensures pc == Charging ==> Reached(reqs, longer, id, Marking(Paid), status, log)
    ensures pc == Marking(Paid) ==> Reached(reqs, longer, id, Publishing(Paid), Confirmed, log)
    ensures pc == Publishing(Paid) ==>
      Reached(reqs, longer, id, Replied(id, false), status, log + [Event(OrderConfirmed, id)])
  {
    longer := run + [Advance(id, true)];
    OneMore(reqs, run, Advance(id, true));
    hide Run, From;
  }

  /** A run from the start, of any call without a key: the order is stored, its cancellation is accepted and
      published, and the call goes on to confirm it and to reply. */
  lemma CancelledThenConfirmed(reqs: Requests, id: string) returns (run: seq<Action>, n: nat)
    requires id in reqs && reqs[id].key == ""
    ensures n <= |run| && IsCancelled(Run(reqs, run[..n]).shared, id)
    ensures Reached(reqs, run, id, Replied(id, false), Confirmed,
              [Event(OrderCancelled, id), Event(OrderCreated, id), Event(OrderConfirmed, id)])
  {
    var told, created := [Event(OrderCancelled, id)], [Event(OrderCancelled, id), Event(OrderCreated, id)];
    var cancelled := UntilCancelled(reqs, id);
    assert IsCancelled(Run(reqs, cancelled).shared, id);
    hide Run, Reached;
    run := Advanced(reqs, cancelled, id, Announcing, Cancelled, told);
    assert told + [Event(OrderCreated, id)] == created;
    run := Advanced(reqs, run, id, Reserving, Cancelled, created);
    run := Advanced(reqs, run, id, ConfirmingStock, Cancelled, created);
    run := Advanced(reqs, run, id, Charging, Confirmed, created);
    run := Advanced(reqs, run, id, Marking(Paid), Confirmed, created);
    run := Advanced(reqs, run, id, Publishing(Paid), Confirmed, created);
    n := |cancelled|;
    assert run[..n] == cancelled;
  }

  /** The order is cancelled after this run. */
  ghost predicate CancelledAfter(reqs: Requests, run: seq<Action>, id: string) {
    IsCancelled(Run(reqs, run).shared, id)
  }

  /** A cancellation of a stored order lasts, whatever happens next, exactly when the call that created the
      order has made its last update; before that the call can still overwrite it. */
  lemma CancelLastsExactly(reqs: Requests, run: seq<Action>, id: string)
    requires id in Run(reqs, run).shared.orders
    ensures id in Run(reqs, run).calls
    ensures (forall more :: CancelledAfter(reqs, run + [CancelOrder(id)] + more, id))
       <==> PastLastUpdate(Run(reqs, run).calls[id])
  {
    var s, cancelled := Run(reqs, run), run + [CancelOrder(id)];
    RunKeepsInv(reqs, run);
    assert Fits(s.shared, Misses(reqs, run), reqs[id], id, s.calls[id]);
    RunUndelivered(reqs, run);
    OneMore(reqs, run, CancelOrder(id));
    var t := Run(reqs, cancelled);
    assert IsCancelled(t.shared, id) && t.calls == s.calls;
    if PastLastUpdate(s.calls[id]) {
      forall more
        ensures CancelledAfter(reqs, cancelled + more, id)
      {
        RunOn(reqs, cancelled, more);
        StaysCancelled(reqs, t, more, id);
      }
    } else {
      var more := OverwritesCancel(reqs, t, id);
      RunOn(reqs, cancelled, more);
      assert !CancelledAfter(reqs, cancelled + more, id);
    }
  }

  // ---- Serial runs ----

  ghost predicate BetweenCalls(s: System, a: Action) {
    a.CancelOrder? || (a.id in s.calls && s.calls[a.id] == Start) ==> forall id | id in s.calls :: !Busy(s.calls[id])
  }

  /** Calls do not overlap, and orders are cancelled only between calls. */
  ghost predicate Serial(reqs: Requests, run: seq<Action>) {
    forall n | 0 <= n < |run| :: BetweenCalls(Run(reqs, run[..n]), run[n])
  }

  /** Events of a finished call: created, its ending, then only cancellations; the status is that of the last. */
  ghost predicate Finished(s: Shared, id: string, e: Ending) {
    var told := EventsOf(s.log, id, true);
    && id in s.orders
    && |told| >= 2 && told[0] == OrderCreated && told[1] == KindOf(e)
    && (forall i | 2 <= i < |told| :: told[i] == OrderCancelled)
    && s.orders[id].status == (if |told| > 2 then Cancelled else StatusAfter(e))
    && Shows(s.orders[id], e)
  }

  /** The order of a call that has stored it and not ended yet. */
  ghost predicate UnderWay(s: Shared, id: string, told: seq<Kind>, status: Status) {
    && id in s.orders && s.orders[id].status == status && Shows(s.orders[id], Paid)
    && EventsOf(s.log, id, true) == told
  }

  ghost predicate SerialStory(s: Shared, id: string, pc: Pc) {
    var told := EventsOf(s.log, id, true);
    match pc
    case Announcing => UnderWay(s, id, [], Pending)
    case Reserving => UnderWay(s, id, [OrderCreated], Pending)
    case ConfirmingStock => UnderWay(s, id, [OrderCreated], Pending)
    case Charging => UnderWay(s, id, [OrderCreated], Confirmed)
    case Marking(e) => UnderWay(s, id, [OrderCreated], if e == NoStock then Pending else Confirmed)
    case Publishing(e) =>
      id in s.orders && told == [OrderCreated] && Shows(s.orders[id], e) && s.orders[id].status == StatusAfter(e)
    case Replied(_, false) => exists e :: Finished(s, id, e)
    case _ => id !in s.orders && told == []
  }

  lemma ActTellsSerially(s: Shared, r: Request, id: string, pc: Pc, up: bool)
    requires SerialStory(s, id, pc)
    ensures var (t, pc') := Act(s, r, id, pc, up); SerialStory(t, id, pc')
  {
    match pc
    case Announcing => EventsOfNext(s.log, Event(OrderCreated, id), id, true);
    case Publishing(e) =>
      EventsOfNext(s.log, Event(KindOf(e), id), id, true);
      assert Finished(Act(s, r, id, pc, up).0, id, e);
    case _ =>
  }

  lemma ActTellsOtherSerially(s: Shared, r: Request, id: string, pc: Pc, up: bool, other: string, pc': Pc)
    requires other != id && SerialStory(s, other, pc')
    ensures SerialStory(Act(s, r, id, pc, up).0, other, pc')
  {
    var t := Act(s, r, id, pc, up).0;
    assert EventsOf(t.log, other, true) == EventsOf(s.log, other, true) by {
      match pc
      case Announcing => EventsOfNext(s.log, Event(OrderCreated, id), other, true);
      case Publishing(e) => EventsOfNext(s.log, Event(KindOf(e), id), other, true);
      case _ =>
    }
    if e :| Finished(s, other, e) {
      assert Finished(t, other, e);
    }
  }

  lemma CancelTellsSerially(s: Shared, cancelled: string, id: string, pc: Pc)
    requires SerialStory(s, id, pc) && Undelivered(s) && !Busy(pc)
    ensures SerialStory(Cancel(s, cancelled).0, id, pc)
  {
    var t := Cancel(s, cancelled).0;
    EventsOfNext(s.log, Event(OrderCancelled, cancelled), id, true);
    if e :| Finished(s, id, e) {
      assert Finished(t, id, e);
    }
  }

  lemma {:induction false} SerialTells(reqs: Requests, run: seq<Action>)
    requires Serial(reqs, run)
    ensures var s := Run(reqs, run);
            s.calls.Keys == reqs.Keys && forall id | id in reqs :: SerialStory(s.shared, id, s.calls[id])
  {
    if run == [] {
    } else {
      var before, a := run[..|run| - 1], run[|run| - 1];
      assert forall n | 0 <= n <= |before| :: before[..n] == run[..n];
      SerialTells(reqs, before);
      RunUndelivered(reqs, before);
      var s, t := Run(reqs, before), Run(reqs, run);
      assert BetweenCalls(s, a);
      hide SerialStory, Act, Cancel, Undelivered;
      forall id | id in reqs
        ensures SerialStory(t.shared, id, t.calls[id])
      {
        match a
        case CancelOrder(cancelled) => CancelTellsSerially(s.shared, cancelled, id, s.calls[id]);
        case Advance(x, up) =>
          if x == id {
            ActTellsSerially(s.shared, reqs[id], id, s.calls[id], up);
          } else if x in reqs {
            ActTellsOtherSerially(s.shared, reqs[x], x, s.calls[x], up, id, s.calls[id]);
          }
      }
    }
  }

  /** In a serial run the events of an order tell everything: created, one ending, then only cancellations; its
      status, whether it is degraded and why are those of that sequence. */
  lemma SerialEventsTellAll(reqs: Requests, run: seq<Action>, id: string) returns (e: Ending)
    requires Serial(reqs, run) && id in reqs
    requires id in Run(reqs, run).calls && Run(reqs, run).calls[id] == Replied(id, false)
    ensures Finished(Run(reqs, run).shared, id, e)
  {
    SerialTells(reqs, run);
    var s := Run(reqs, run).shared;
    assert SerialStory(s, id, Replied(id, false));
    e :| Finished(s, id, e);
  }

  /** While its call is under way, an order is pending until its stock is reserved; it is then marked confirmed,
      although it has not been paid for. */
  lemma StatusUnderWay(reqs: Requests, run: seq<Action>, id: string)
    requires Serial(reqs, run) && id in reqs && id in Run(reqs, run).calls && id in Run(reqs, run).shared.orders
    ensures var pc, o := Run(reqs, run).calls[id], Run(reqs, run).shared.orders[id];
            && (pc in {Announcing, Reserving, ConfirmingStock} ==> o.status == Pending && !o.degraded && o.reason == "")
            && (pc == Charging ==> o.status == Confirmed && !o.degraded && o.reason == "")
  {
    SerialTells(reqs, run);
    assert SerialStory(Run(reqs, run).shared, id, Run(reqs, run).calls[id]);
  }
}

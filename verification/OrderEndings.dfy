/** How an order ends, told by what the downstream services answered
    (services/order-service/cmd/main.go, lines 313-361 and 372-380). */
module OrderEndings {
  import opened Orders
  import opened OrderIdempotency
  import opened OrderEvents

  function NextAnswers(s: System, answers: seq<bool>, a: Action, id: string, at: Pc): seq<bool> {
    if a.Advance? && a.id == id && id in s.calls && s.calls[id] == at then answers + [a.up] else answers
  }

  /** The answers a call got whenever it moved on from one place: at Reserving from the inventory service, at
      Charging from the payment service. */
  function Answers(reqs: Requests, run: seq<Action>, id: string, at: Pc): seq<bool> {
    if run == [] then []
    else
      var before, last := run[..|run| - 1], run[|run| - 1];
      NextAnswers(Run(reqs, before), Answers(reqs, before, id, at), last, id, at)
  }

  /** What each ending stands for. */
  function AnswersFor(e: Ending): (seq<bool>, seq<bool>) {
    match e
    case NoStock => ([false], [])
    case Unpaid => ([true], [false])
    case Paid => ([true], [true])
  }

  ghost predicate Heard(s: Shared, id: string, pc: Pc, heard: (seq<bool>, seq<bool>)) {
    match pc
    case ConfirmingStock => heard == ([true], [])
    case Charging => heard == ([true], [])
    case Marking(e) => heard == AnswersFor(e)
    case Publishing(e) => heard == AnswersFor(e)
    case Replied(_, false) =>
      exists e :: EventsOf(s.log, id, false) == [OrderCreated, KindOf(e)] && heard == AnswersFor(e)
    case _ => heard == ([], [])
  }

  lemma PublishingHears(s: Shared, r: Request, id: string, e: Ending, up: bool, heard: (seq<bool>, seq<bool>))
    requires Story(s, id, Publishing(e)) && heard == AnswersFor(e)
    ensures Heard(Act(s, r, id, Publishing(e), up).0, id, Replied(id, false), heard)
  {
    var t := Act(s, r, id, Publishing(e), up).0;
    EventsOfNext(s.log, Event(KindOf(e), id), id, false);
    hide EventsOf, AnswersFor;
    assert EventsOf(t.log, id, false) == [OrderCreated, KindOf(e)];
  }

  /** The answers after one more step. */
  function Hearing(heard: (seq<bool>, seq<bool>), pc: Pc, up: bool): (seq<bool>, seq<bool>) {
    (if pc == Reserving then heard.0 + [up] else heard.0, if pc == Charging then heard.1 + [up] else heard.1)
  }

  lemma ActHears(s: Shared, r: Request, id: string, pc: Pc, up: bool, heard: (seq<bool>, seq<bool>))
    requires Story(s, id, pc) && Heard(s, id, pc, heard)
    ensures var (t, pc') := Act(s, r, id, pc, up); Heard(t, id, pc', Hearing(heard, pc, up))
  {
    match pc
    case Publishing(e) => PublishingHears(s, r, id, e, up, heard);
    case Reserving =>
      assert heard.0 + [up] == [up];
      hide Story, EventsOf;
    case Charging =>
      assert heard.1 + [up] == [up];
      hide Story, EventsOf;
    case _ =>
      hide Story, EventsOf;
  }

  lemma HeardSame(s: Shared, t: Shared, id: string, pc: Pc, heard: (seq<bool>, seq<bool>))
    requires Heard(s, id, pc, heard) && EventsOf(t.log, id, false) == EventsOf(s.log, id, false)
    ensures Heard(t, id, pc, heard)
  {
  }

  /** What another call, or a cancellation, publishes is not about this order's ending. */
  lemma OthersSilent(reqs: Requests, s: System, a: Action, id: string)
    requires a.Advance? ==> a.id != id
    ensures EventsOf(Step(reqs, s, a).shared.log, id, false) == EventsOf(s.shared.log, id, false)
  {
    match a
    case CancelOrder(cancelled) => EventsOfNext(s.shared.log, Event(OrderCancelled, cancelled), id, false);
    case Advance(x, up) =>
      if x in reqs && x in s.calls {
        match s.calls[x]
        case Announcing => EventsOfNext(s.shared.log, Event(OrderCreated, x), id, false);
        case Publishing(e) => EventsOfNext(s.shared.log, Event(KindOf(e), x), id, false);
        case _ =>
      }
  }

  lemma {:induction false} RunHears(reqs: Requests, run: seq<Action>, id: string)
    requires id in reqs
    ensures var s := Run(reqs, run);
            id in s.calls && Heard(s.shared, id, s.calls[id],
              (Answers(reqs, run, id, Reserving), Answers(reqs, run, id, Charging)))
  {
    if run == [] {
    } else {
      var before, a := run[..|run| - 1], run[|run| - 1];
      RunHears(reqs, before, id);
      RunTells(reqs, before);
      var s := Run(reqs, before);
      var heard := (Answers(reqs, before, id, Reserving), Answers(reqs, before, id, Charging));
      hide Heard, Story, Act, Cancel;
      if a.Advance? && a.id == id {
        ActHears(s.shared, reqs[id], id, s.calls[id], a.up, heard);
      } else {
        OthersSilent(reqs, s, a, id);
        HeardSame(s.shared, Step(reqs, s, a).shared, id, s.calls[id], heard);
      }
    }
  }

  /** An order's events, cancellations aside, and its marks are exactly those of one ending. */
  ghost predicate Ends(s: Shared, id: string, kind: Kind, degraded: bool, reason: string) {
    && id in s.orders
    && EventsOf(s.log, id, false) == [OrderCreated, kind]
    && s.orders[id].degraded == degraded && s.orders[id].reason == reason
  }

  /** However calls and cancellations interleave: a finished call that created an order published order.degraded
      exactly if the inventory service was down; order.payment_pending exactly if it was up and the payment service
      down; and order.confirmed exactly if both were up. The order is marked accordingly. */
  lemma EndingFollowsAnswers(reqs: Requests, run: seq<Action>, id: string)
    requires id in reqs && id in Run(reqs, run).calls && Run(reqs, run).calls[id] == Replied(id, false)
    ensures var s := Run(reqs, run).shared;
            var stock, payment := Answers(reqs, run, id, Reserving), Answers(reqs, run, id, Charging);
            && (Ends(s, id, OrderDegraded, true, "inventory service unavailable") <==> stock == [false])
            && (Ends(s, id, OrderPaymentPending, true, "payment service unavailable") <==>
                 stock == [true] && payment == [false])
            && (Ends(s, id, OrderConfirmed, false, "") <==> stock == [true] && payment == [true])
            && (stock == [false] || (stock == [true] && (payment == [false] || payment == [true])))
  {
    RunHears(reqs, run, id);
    var e := EventsMatchFields(reqs, run, id);
  }

  /** In a serial run the status follows as well, unless the order was cancelled afterwards. */
  lemma StatusFollowsAnswers(reqs: Requests, run: seq<Action>, id: string)
    requires Serial(reqs, run)
    requires id in reqs && id in Run(reqs, run).calls && Run(reqs, run).calls[id] == Replied(id, false)
    ensures var s := Run(reqs, run).shared;
            var stock, payment := Answers(reqs, run, id, Reserving), Answers(reqs, run, id, Charging);
            && id in s.orders
            && s.orders[id].status ==
                 if OrderCancelled in EventsOf(s.log, id, true) then Cancelled
                 else if stock == [true] && payment == [true] then Confirmed
                 else PendingPayment
  {
    hide Run, Serial, EventsOf, Answers;
    EndingFollowsAnswers(reqs, run, id);
    var e := SerialEventsTellAll(reqs, run, id);
    var told := EventsOf(Run(reqs, run).shared.log, id, true);
    if |told| > 2 {
      assert told[2] == OrderCancelled;
    }
  }
}

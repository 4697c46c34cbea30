/** The order service (services/order-service/cmd/main.go, lines 22-137 and 227-380) as a state machine.
    A call of CreateOrder is a little program whose every locked section, and every call of a downstream
    service, is one step; steps of any number of calls interleave with cancellations. */
module Orders {

  datatype Status =
    | Pending
    | PendingPayment
    | Confirmed
    | PaymentFailed
    | InventoryFailed
    | Shipped
    | Delivered
    | Cancelled

  datatype Order = Order(
    userID: string,
    total: real,
    key: string,
    status: Status,
    degraded: bool,
    reason: string)

  datatype Kind = OrderCreated | OrderDegraded | OrderPaymentPending | OrderConfirmed | OrderCancelled

  datatype Event = Event(kind: Kind, orderID: string)

  /** A call of CreateOrder that has passed its input checks. */
  datatype Request = Request(userID: string, total: real, key: string)

  /** What the service's calls share. `log` is every event published. */
  datatype Shared = Shared(records: map<string, string>, orders: map<string, Order>, log: seq<Event>)

  /** How a call that creates an order may end. */
  datatype Ending = NoStock | Unpaid | Paid

  /** Where a call is: the next thing it will do. */
  datatype Pc =
    | Start
    | Looking(owner: string)
    | Creating
    | Announcing
    | Reserving
    | ConfirmingStock
    | Charging
    | Marking(ending: Ending)
    | Publishing(ending: Ending)
    | Replied(orderID: string, idempotent: bool)

  const NO_STOCK := "inventory service unavailable"
  const NO_PAYMENT := "payment service unavailable"

  function KindOf(e: Ending): Kind {
    match e
    case NoStock => OrderDegraded
    case Unpaid => OrderPaymentPending
    case Paid => OrderConfirmed
  }

  function Marked(o: Order, e: Ending): Order {
    match e
    case NoStock => o.(status := PendingPayment, degraded := true, reason := NO_STOCK)
    case Unpaid => o.(status := PendingPayment, degraded := true, reason := NO_PAYMENT)
    case Paid => o.(status := Confirmed)
  }

  function NewOrder(r: Request): Order {
    Order(r.userID, r.total, r.key, Pending, false, "")
  }

  function Updated(s: Shared, id: string, o: Order): Shared {
    s.(orders := s.orders[id := o])
  }

  function Published(s: Shared, kind: Kind, id: string): Shared {
    s.(log := s.log + [Event(kind, id)])
  }

  /** One step of the call that drew the id `id`; `up` is the downstream's answer, if the step asks one. */
  function Act(s: Shared, r: Request, id: string, pc: Pc, up: bool): (Shared, Pc) {
    match pc
    case Start =>
      if r.key == "" then (s, Creating)
      else if r.key in s.records then (s, Looking(s.records[r.key]))
      else (s.(records := s.records[r.key := id]), Creating)
    case Looking(owner) => (s, if owner in s.orders then Replied(owner, true) else Creating)
    case Creating => (Updated(s, id, NewOrder(r)), Announcing)
    case Announcing => (Published(s, OrderCreated, id), Reserving)
    case Reserving => (s, if up then ConfirmingStock else Marking(NoStock))
    case ConfirmingStock =>
      (if id in s.orders then Updated(s, id, s.orders[id].(status := Confirmed)) else s, Charging)
    case Charging => (s, Marking(if up then Paid else Unpaid))
    case Marking(e) => (if id in s.orders then Updated(s, id, Marked(s.orders[id], e)) else s, Publishing(e))
    case Publishing(e) => (Published(s, KindOf(e), id), Replied(id, false))
    case Replied(_, _) => (s, pc)
  }

  /** CancelOrder: one locked update, which publishes from inside. */
  function Cancel(s: Shared, id: string): (Shared, bool) {
    if id !in s.orders then (s, false)
    else
      var o := s.orders[id];
      if o.status == Delivered || o.status == Shipped then (s, true)
      else (Published(Updated(s, id, o.(status := Cancelled)), OrderCancelled, id), true)
  }

  function Remaining(pc: Pc): nat {
    match pc
    case Start => 9
    case Looking(_) => 8
    case Creating => 7
    case Announcing => 6
    case Reserving => 5
    case ConfirmingStock => 4
    case Charging => 3
    case Marking(_) => 2
    case Publishing(_) => 1
    case Replied(_, _) => 0
  }

  /** A call run to its reply with nothing in between. */
  function Serve(s: Shared, r: Request, id: string, pc: Pc, stockUp: bool, paymentUp: bool): (Shared, Pc)
    decreases Remaining(pc)
  {
    if pc.Replied? then (s, pc)
    else
      var (s', pc') := Act(s, r, id, pc, if pc == Reserving then stockUp else paymentUp);
      Serve(s', r, id, pc', stockUp, paymentUp)
  }

  // ---- Interleavings ----

  type Requests = map<string, Request>

  datatype Action =
    | Advance(id: string, up: bool)
    | CancelOrder(id: string)

  datatype System = System(shared: Shared, calls: map<string, Pc>)

  function Init(reqs: Requests): System {
    System(Shared(map[], map[], []), map id | id in reqs :: Start)
  }

  function Step(reqs: Requests, s: System, a: Action): System {
    match a
    case Advance(id, up) =>
      if id in reqs && id in s.calls then
        var (shared, pc) := Act(s.shared, reqs[id], id, s.calls[id], up);
        System(shared, s.calls[id := pc])
      else s
    case CancelOrder(id) => s.(shared := Cancel(s.shared, id).0)
  }

  function From(reqs: Requests, s: System, run: seq<Action>): System {
    if run == [] then s else Step(reqs, From(reqs, s, run[..|run| - 1]), run[|run| - 1])
  }

  function Run(reqs: Requests, run: seq<Action>): System {
    From(reqs, Init(reqs), run)
  }

  /** The caller, if its lookup of the recorded owner's order comes before that order is stored. */
  function Missed(s: Shared, id: string, pc: Pc): set<string> {
    if pc.Looking? && pc.owner !in s.orders then {id} else {}
  }

  function MissedBy(reqs: Requests, s: System, a: Action): set<string> {
    if a.Advance? && a.id in reqs && a.id in s.calls then Missed(s.shared, a.id, s.calls[a.id]) else {}
  }

  /** The calls whose lookup of the recorded owner's order came before that order was stored. */
  function Misses(reqs: Requests, run: seq<Action>): set<string> {
    if run == [] then {}
    else
      var before, last := run[..|run| - 1], run[|run| - 1];
      Misses(reqs, before) + MissedBy(reqs, Run(reqs, before), last)
  }

  function MissesOf(reqs: Requests, run: seq<Action>, key: string): set<string> {
    set id | id in Misses(reqs, run) && id in reqs && reqs[id].key == key
  }

  function OrdersWith(s: Shared, key: string): set<string> {
    set id | id in s.orders && s.orders[id].key == key
  }

  // ---- The invariant: who may create an order ----

  ghost predicate Owns(s: Shared, key: string, id: string) {
    key in s.records && s.records[key] == id
  }

  /** A call with a key creates an order only as the key's owner or after a miss, never both. */
  ghost predicate Entitled(s: Shared, misses: set<string>, key: string, id: string) {
    if key == "" then id !in misses
    else key in s.records && (Owns(s, key, id) <==> id !in misses)
  }

  ghost predicate Fits(s: Shared, misses: set<string>, r: Request, id: string, pc: Pc) {
    match pc
    case Start => id !in s.orders && id !in misses && !Owns(s, r.key, id)
    case Looking(owner) =>
      r.key != "" && Owns(s, r.key, owner) && owner != id && id !in s.orders && id !in misses
    case Creating => id !in s.orders && Entitled(s, misses, r.key, id)
    case Replied(orderID, true) =>
      && r.key != "" && Owns(s, r.key, orderID) && orderID != id && orderID in s.orders
      && id !in s.orders && id !in misses
    case Replied(orderID, false) => orderID == id && id in s.orders && Entitled(s, misses, r.key, id)
    case _ => id in s.orders && Entitled(s, misses, r.key, id)
  }

  predicate Carries(o: Order, r: Request) {
    o.userID == r.userID && o.total == r.total && o.key == r.key
  }

  /** Records lead to calls with the recorded key, and orders carry what the calls that created them asked for. */
  ghost predicate Shaped(reqs: Requests, s: Shared) {
    && (forall k | k in s.records :: k != "" && s.records[k] in reqs && reqs[s.records[k]].key == k)
    && (forall id | id in s.orders :: id in reqs && Carries(s.orders[id], reqs[id]))
  }

  ghost predicate Inv(reqs: Requests, s: System, misses: set<string>) {
    && s.calls.Keys == reqs.Keys
    && misses <= reqs.Keys
    && Shaped(reqs, s.shared)
    && (forall id | id in reqs :: Fits(s.shared, misses, reqs[id], id, s.calls[id]))
  }

  lemma ActShaped(reqs: Requests, s: Shared, id: string, pc: Pc, up: bool)
    requires Shaped(reqs, s) && id in reqs
    ensures Shaped(reqs, Act(s, reqs[id], id, pc, up).0)
  {
  }

  lemma ActFits(s: Shared, misses: set<string>, r: Request, id: string, pc: Pc, up: bool)
    requires Fits(s, misses, r, id, pc)
    ensures var (t, pc') := Act(s, r, id, pc, up); Fits(t, misses + Missed(s, id, pc), r, id, pc')
  {
  }

  /** What one call does leaves every other call where it fits. */
  lemma ActFitsOther(s: Shared, misses: set<string>, r: Request, id: string, pc: Pc, up: bool,
                     q: Request, other: string, pc': Pc)
    requires other != id && Fits(s, misses, r, id, pc) && Fits(s, misses, q, other, pc')
    ensures Fits(Act(s, r, id, pc, up).0, misses + Missed(s, id, pc), q, other, pc')
  {
  }

  lemma AdvanceKeeps(reqs: Requests, s: System, misses: set<string>, id: string, up: bool)
    requires Inv(reqs, s, misses) && id in reqs
    ensures Inv(reqs, Step(reqs, s, Advance(id, up)), misses + Missed(s.shared, id, s.calls[id]))
  {
    hide Fits, Shaped, Act;
    var t := Step(reqs, s, Advance(id, up));
    var now := misses + Missed(s.shared, id, s.calls[id]);
    ActShaped(reqs, s.shared, id, s.calls[id], up);
    ActFits(s.shared, misses, reqs[id], id, s.calls[id], up);
    forall other | other in reqs
      ensures Fits(t.shared, now, reqs[other], other, t.calls[other])
    {
      if other != id {
        ActFitsOther(s.shared, misses, reqs[id], id, s.calls[id], up, reqs[other], other, s.calls[other]);
      }
    }
  }

  lemma CancelFits(s: Shared, misses: set<string>, r: Request, id: string, pc: Pc, cancelled: string)
    requires Fits(s, misses, r, id, pc)
    ensures Fits(Cancel(s, cancelled).0, misses, r, id, pc)
  {
  }

  lemma CancelKeeps(reqs: Requests, s: System, misses: set<string>, id: string)
    requires Inv(reqs, s, misses)
    ensures Inv(reqs, Step(reqs, s, CancelOrder(id)), misses)
  {
    var t := Step(reqs, s, CancelOrder(id));
    assert Shaped(reqs, t.shared);
    hide Fits, Shaped, Cancel;
    forall other | other in reqs
      ensures Fits(t.shared, misses, reqs[other], other, t.calls[other])
    {
      CancelFits(s.shared, misses, reqs[other], other, s.calls[other], id);
    }
  }

  lemma InitFits(reqs: Requests)
    ensures Inv(reqs, Init(reqs), {})
  {
  }

  lemma StepKeeps(reqs: Requests, s: System, misses: set<string>, a: Action)
    requires Inv(reqs, s, misses)
    ensures Inv(reqs, Step(reqs, s, a), misses + MissedBy(reqs, s, a))
  {
    assert s.calls.Keys == reqs.Keys;
    hide Inv, Act, Cancel;
    match a
    case CancelOrder(id) =>
      CancelKeeps(reqs, s, misses, id);
      assert misses + {} == misses;
    case Advance(id, up) =>
      if id in reqs {
        AdvanceKeeps(reqs, s, misses, id, up);
      } else {
        assert misses + {} == misses;
      }
  }

  lemma {:induction false} RunKeepsInv(reqs: Requests, run: seq<Action>)
    ensures Inv(reqs, Run(reqs, run), Misses(reqs, run))
  {
    hide Inv, Step, Init, MissedBy;
    if run == [] {
      InitFits(reqs);
    } else {
      var before := run[..|run| - 1];
      RunKeepsInv(reqs, before);
      StepKeeps(reqs, Run(reqs, before), Misses(reqs, before), run[|run| - 1]);
    }
  }
}

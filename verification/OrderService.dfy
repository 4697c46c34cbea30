/** The order service as it keeps its state: maps and records changed in place
    (services/order-service/cmd/main.go, lines 57-137, 216-240 and 281-380). A call of CreateOrder run on its own
    is proved to do what the steps of Orders do, one after another. */
module OrderServices {
  import opened Orders
  import opened Windows

  class IdempotencyStore {
    var records: map<string, string>

    constructor ()
      ensures records == map[]
    {
      records := map[];
    }

    method GetOrSet(key: string, orderID: string) returns (owner: string, found: bool)
      modifies this
      ensures found == (key in old(records))
      ensures if found then owner == old(records)[key] && records == old(records)
              else owner == orderID && records == old(records)[key := orderID]
    {
      if key in records {
        return records[key], true;
      }
      records := records[key := orderID];
      return orderID, false;
    }
  }

  class OrderRecord {
    const id: string
    const userID: string
    const total: real
    const key: string
    var status: Status
    var degraded: bool
    var reason: string

    constructor (id: string, r: Request)
      ensures this.id == id && View() == NewOrder(r)
    {
      this.id, userID, total, key := id, r.userID, r.total, r.key;
      status, degraded, reason := Pending, false, "";
    }

    function View(): Order
      reads this
    {
      Order(userID, total, key, status, degraded, reason)
    }
  }

  class OrderStore {
    var orders: map<string, OrderRecord>

    constructor ()
      ensures Valid() && View() == map[]
    {
      orders := map[];
    }

    ghost predicate Valid()
      reads this
    {
      forall id | id in orders :: orders[id].id == id
    }

    ghost function View(): map<string, Order>
      reads this, orders.Values
    {
      map id | id in orders :: orders[id].View()
    }

    method Create(order: OrderRecord)
      requires Valid()
      modifies this
      ensures Valid() && orders == old(orders)[order.id := order]
      ensures View() == old(View())[order.id := order.View()]
    {
      orders := orders[order.id := order];
    }

    /** Update with a function that sets these fields. */
    method Set(id: string, status: Status, degraded: bool, reason: string) returns (found: bool)
      requires Valid()
      modifies orders.Values
      ensures Valid() && found == (id in orders)
      ensures View() == if found
                        then old(View())[id :=
                          old(View())[id].(status := status, degraded := degraded, reason := reason)]
                        else old(View())
    {
      found := id in orders;
      if found {
        var o := orders[id];
        o.status := status;
        o.degraded := degraded;
        o.reason := reason;
      }
    }

    method SetStatus(id: string, status: Status) returns (found: bool)
      requires Valid()
      modifies orders.Values
      ensures Valid() && found == (id in orders)
      ensures View() == if found then old(View())[id := old(View())[id].(status := status)] else old(View())
    {
      found := id in orders;
      if found {
        orders[id].status := status;
      }
    }
  }

  class EventPublisher {
    var outbox: seq<Event>
    const maxSize: nat
    /** Everything ever published. */
    ghost var log: seq<Event>

    constructor ()
      ensures Valid() && log == [] && maxSize == 10000
    {
      outbox, log, maxSize := [], [], 10000;
    }

    /** The outbox is always the last maxSize events of the log. */
    ghost predicate Valid()
      reads this
    {
      outbox == Last(log, maxSize)
    }

    method Publish(kind: Kind, orderID: string)
      requires Valid()
      modifies this
      ensures Valid() && log == old(log) + [Event(kind, orderID)]
    {
      LastAppend(log, Event(kind, orderID), maxSize);
      outbox := outbox + [Event(kind, orderID)];
      if |outbox| > maxSize {
        outbox := outbox[|outbox| - maxSize..];
      }
      log := log + [Event(kind, orderID)];
    }
  }

  datatype Item = Item(productID: string, quantity: int, unitPrice: real)

  function TotalOf(items: seq<Item>): real {
    if items == [] then 0.0
    else TotalOf(items[..|items| - 1]) + items[|items| - 1].quantity as real * items[|items| - 1].unitPrice
  }

  lemma TotalNext(items: seq<Item>, i: Item)
    ensures TotalOf(items + [i]) == TotalOf(items) + TotalOf([i])
  {
    assert (items + [i])[..|items|] == items && [i][..0] == [];
  }

  /** Totals add up over any split of the items, so that their order does not matter. */
  lemma {:induction false} TotalAdds(a: seq<Item>, b: seq<Item>)
    ensures TotalOf(a + b) == TotalOf(a) + TotalOf(b)
  {
    if b == [] {
      assert a + b == a;
    } else {
      var before, last := b[..|b| - 1], b[|b| - 1];
      assert a + b == (a + before) + [last] && b == before + [last];
      hide TotalOf;
      TotalNext(a + before, last);
      TotalNext(before, last);
      TotalAdds(a, before);
    }
  }

  function UnitsIn(items: seq<Item>): int {
    if items == [] then 0 else UnitsIn(items[..|items| - 1]) + items[|items| - 1].quantity
  }

  /** One item costs its quantity times its price, and a list of units of price p costs their number times p,
      however they are split into items. */
  lemma {:induction false} TotalOfUnits(items: seq<Item>, p: real)
    requires forall i | i in items :: i.unitPrice == p
    ensures TotalOf(items) == UnitsIn(items) as real * p
  {
    if items == [] {
    } else {
      var before, last := items[..|items| - 1], items[|items| - 1];
      TotalOfUnits(before, p);
      assert last in items;
      assert UnitsIn(items) as real * p == UnitsIn(before) as real * p + last.quantity as real * p;
    }
  }

  datatype Result =
    | UserIdRequired
    | NoItems
    | BadQuantity(productID: string)
    | BadPrice(productID: string)
    | Replies(orderID: string, idempotent: bool)

  /** Nothing is wrong with a request: there is a user, there are items, each of them of at least one unit and of a
      price that is not negative. */
  predicate Acceptable(userID: string, items: seq<Item>) {
    userID != "" && items != [] && forall i | i in items :: i.quantity >= 1 && !(i.unitPrice < 0.0)
  }

  /** Item i is the first bad one. */
  predicate FirstBad(userID: string, items: seq<Item>, i: int) {
    0 <= i < |items| && (i > 0 ==> Acceptable(userID, items[..i]))
  }

  /** The first thing that is wrong with a request: its user, its lack of items, or its first bad item, whose quantity
      is looked at before its price. */
  ghost predicate Explains(result: Result, userID: string, items: seq<Item>) {
    match result
    case UserIdRequired => userID == ""
    case NoItems => userID != "" && items == []
    case BadQuantity(p) =>
      userID != "" && exists i :: FirstBad(userID, items, i) && items[i].productID == p && items[i].quantity <= 0
    case BadPrice(p) =>
      userID != "" && exists i :: FirstBad(userID, items, i) && items[i].productID == p
                                  && items[i].quantity > 0 && items[i].unitPrice < 0.0
    case Replies(_, _) => false
  }

  lemma {:induction false} FindBad(userID: string, items: seq<Item>) returns (i: int)
    requires userID != "" && items != [] && !Acceptable(userID, items)
    ensures FirstBad(userID, items, i) && (items[i].quantity <= 0 || items[i].unitPrice < 0.0)
  {
    var before := items[..|items| - 1];
    if before == [] || Acceptable(userID, before) {
      i := |items| - 1;
      assert items == before + [items[i]];
    } else {
      i := FindBad(userID, before);
      assert before[..i] == items[..i];
    }
  }

  /** A request is accepted exactly if nothing is wrong with it, and there is never more than one thing to say. */
  lemma AcceptedExactly(userID: string, items: seq<Item>)
    ensures Acceptable(userID, items) <==> !exists result :: Explains(result, userID, items)
    ensures forall a, b | Explains(a, userID, items) && Explains(b, userID, items) :: a == b
  {
    if userID == "" {
      assert Explains(UserIdRequired, userID, items);
    } else if items == [] {
      assert Explains(NoItems, userID, items);
    } else {
      forall i, j | FirstBad(userID, items, i) && FirstBad(userID, items, j) && i < j
        ensures items[i].quantity > 0 && items[i].unitPrice >= 0.0
      {
        assert items[..j][i] in items[..j];
      }
      if !Acceptable(userID, items) {
        var i := FindBad(userID, items);
        if items[i].quantity <= 0 {
          assert Explains(BadQuantity(items[i].productID), userID, items);
        } else {
          assert Explains(BadPrice(items[i].productID), userID, items);
        }
      }
    }
  }

  lemma ServeStep(s: Shared, r: Request, id: string, pc: Pc, stockUp: bool, paymentUp: bool)
    requires !pc.Replied?
    ensures var (t, pc') := Act(s, r, id, pc, if pc == Reserving then stockUp else paymentUp);
            Serve(s, r, id, pc, stockUp, paymentUp) == Serve(t, r, id, pc', stockUp, paymentUp)
  {
  }

  lemma ServeDone(s: Shared, r: Request, id: string, reply: string, idempotent: bool, stockUp: bool, paymentUp: bool)
    ensures Serve(s, r, id, Replied(reply, idempotent), stockUp, paymentUp) == (s, Replied(reply, idempotent))
  {
  }

  lemma UpdatedTwice(s: Shared, id: string, a: Order, b: Order)
    ensures Updated(Updated(s, id, a), id, b) == Updated(s, id, b)
  {
  }

  function EndingOf(stockUp: bool, paymentUp: bool): Ending {
    if !stockUp then NoStock else if !paymentUp then Unpaid else Paid
  }

  /** What a call leaves once its order is announced. */
  function Settled(s: Shared, id: string, stockUp: bool, paymentUp: bool): Shared
    requires id in s.orders
  {
    var o, e := s.orders[id], EndingOf(stockUp, paymentUp);
    Published(Updated(s, id, Marked(if stockUp then o.(status := Confirmed) else o, e)), KindOf(e), id)
  }

  lemma ServeEnd(s: Shared, r: Request, id: string, stockUp: bool, paymentUp: bool)
    requires id in s.orders
    ensures Serve(s, r, id, Reserving, stockUp, paymentUp) == (Settled(s, id, stockUp, paymentUp), Replied(id, false))
  {
    hide Serve;
    var e := EndingOf(stockUp, paymentUp);
    ServeStep(s, r, id, Reserving, stockUp, paymentUp);
    var t := s;
    if stockUp {
      ServeStep(s, r, id, ConfirmingStock, stockUp, paymentUp);
      t := Updated(s, id, s.orders[id].(status := Confirmed));
      ServeStep(t, r, id, Charging, stockUp, paymentUp);
    }
    ServeStep(t, r, id, Marking(e), stockUp, paymentUp);
    var u := Updated(t, id, Marked(t.orders[id], e));
    assert u == Updated(s, id, Marked(t.orders[id], e));
    ServeStep(u, r, id, Publishing(e), stockUp, paymentUp);
    ServeDone(Published(u, KindOf(e), id), r, id, id, false, stockUp, paymentUp);
  }

  /** The order a call leaves, and what it publishes, when it is not answered with an earlier order. */
  lemma ServeCreates(s: Shared, r: Request, id: string, stockUp: bool, paymentUp: bool)
    requires r.key == "" || r.key !in s.records || s.records[r.key] !in s.orders
    ensures var records := if r.key == "" || r.key in s.records then s.records else s.records[r.key := id];
            var paid := stockUp && paymentUp;
            var reason :=
              if !stockUp then "inventory service unavailable"
              else if !paymentUp then "payment service unavailable" else "";
            var kind := if !stockUp then OrderDegraded else if !paymentUp then OrderPaymentPending else OrderConfirmed;
            var order := Order(r.userID, r.total, r.key, if paid then Confirmed else PendingPayment, !paid, reason);
            Serve(s, r, id, Start, stockUp, paymentUp)
              == (Shared(records, s.orders[id := order], s.log + [Event(OrderCreated, id), Event(kind, id)]),
                  Replied(id, false))
  {
    hide Serve;
    ServeStep(s, r, id, Start, stockUp, paymentUp);
    var t := s.(records := if r.key == "" || r.key in s.records then s.records else s.records[r.key := id]);
    if r.key != "" && r.key in s.records {
      ServeStep(s, r, id, Looking(s.records[r.key]), stockUp, paymentUp);
    }
    ServeStep(t, r, id, Creating, stockUp, paymentUp);
    var stored := Updated(t, id, NewOrder(r));
    ServeStep(stored, r, id, Announcing, stockUp, paymentUp);
    var told := Published(stored, OrderCreated, id);
    ServeEnd(told, r, id, stockUp, paymentUp);
    var e := EndingOf(stockUp, paymentUp);
    UpdatedTwice(t, id, NewOrder(r), Settled(told, id, stockUp, paymentUp).orders[id]);
    assert s.log + [Event(OrderCreated, id)] + [Event(KindOf(e), id)]
        == s.log + [Event(OrderCreated, id), Event(KindOf(e), id)];
  }

  /** A key whose owner has stored its order is answered with that order, and nothing changes. */
  lemma ServeReplays(s: Shared, r: Request, id: string, stockUp: bool, paymentUp: bool)
    requires r.key != "" && r.key in s.records && s.records[r.key] in s.orders
    ensures Serve(s, r, id, Start, stockUp, paymentUp) == (s, Replied(s.records[r.key], true))
  {
    hide Serve;
    ServeStep(s, r, id, Start, stockUp, paymentUp);
    ServeStep(s, r, id, Looking(s.records[r.key]), stockUp, paymentUp);
    ServeDone(s, r, id, s.records[r.key], true, stockUp, paymentUp);
  }

  class OrderService {
    const idempotency: IdempotencyStore
    const store: OrderStore
    const publisher: EventPublisher

    constructor ()
      ensures Valid() && fresh(idempotency) && fresh(store) && fresh(publisher)
      ensures View() == Shared(map[], map[], [])
    {
      idempotency := new IdempotencyStore();
      store := new OrderStore();
      publisher := new EventPublisher();
    }

    ghost predicate Valid()
      reads store, publisher
    {
      store.Valid() && publisher.Valid()
    }

    ghost function View(): Shared
      reads idempotency, store, publisher, store.orders.Values
    {
      Shared(idempotency.records, store.View(), publisher.log)
    }

    /** The checks before an order is made: the first bad item decides; a good request gets its total. */
    method Check(userID: string, items: seq<Item>) returns (problem: bool, result: Result, total: real)
      ensures !problem <==> Acceptable(userID, items)
      ensures !problem ==> total == TotalOf(items)
      ensures problem ==> Explains(result, userID, items)
    {
      total, result := 0.0, UserIdRequired;
      if userID == "" {
        return true, UserIdRequired, total;
      }
      if items == [] {
        return true, NoItems, total;
      }
      for i := 0 to |items|
        invariant total == TotalOf(items[..i])
        invariant i > 0 ==> Acceptable(userID, items[..i])
      {
        var item := items[i];
        assert items[i] in items && FirstBad(userID, items, i);
        if item.quantity <= 0 {
          return true, BadQuantity(item.productID), total;
        }
        if item.unitPrice < 0.0 {
          return true, BadPrice(item.productID), total;
        }
        total := total + item.quantity as real * item.unitPrice;
        assert items[..i + 1][..i] == items[..i];
      }
      assert items[..|items|] == items;
      return false, result, total;
    }

    /** The order's failed ending: one update and one event. */
    method Degrade(id: string, e: Ending)
      requires Valid() && e != Paid && id in store.orders
      modifies store.orders.Values, publisher
      ensures Valid()
      ensures View() == Published(Updated(old(View()), id, Marked(old(View()).orders[id], e)), KindOf(e), id)
    {
      var _ := store.Set(id, PendingPayment, true, if e == NoStock then NO_STOCK else NO_PAYMENT);
      publisher.Publish(KindOf(e), id);
    }

    method SetConfirmed(id: string)
      requires Valid() && id in store.orders
      modifies store.orders.Values
      ensures Valid()
      ensures View() == Updated(old(View()), id, old(View()).orders[id].(status := Confirmed))
    {
      var _ := store.SetStatus(id, Confirmed);
    }

    method Settle(id: string, stockUp: bool, paymentUp: bool)
      requires Valid() && id in store.orders
      modifies store.orders.Values, publisher
      ensures Valid()
      ensures View() == Settled(old(View()), id, stockUp, paymentUp)
    {
      if !stockUp {
        Degrade(id, NoStock);
        return;
      }
      ghost var s := View();
      ghost var o := s.orders[id].(status := Confirmed);
      SetConfirmed(id);
      if !paymentUp {
        Degrade(id, Unpaid);
        UpdatedTwice(s, id, o, Marked(o, Unpaid));
        return;
      }
      SetConfirmed(id);
      UpdatedTwice(s, id, o, o);
      publisher.Publish(OrderConfirmed, id);
    }

    /** The rest of CreateOrder, from storing the order on. */
    method Fulfil(r: Request, id: string, stockUp: bool, paymentUp: bool)
      requires Valid()
      modifies store, store.orders.Values, publisher
      ensures Valid()
      ensures (View(), Replied(id, false)) == Serve(old(View()), r, id, Creating, stockUp, paymentUp)
    {
      hide Serve, Settled;
      ghost var s := View();
      ghost var stored := Updated(s, id, NewOrder(r));
      ServeStep(s, r, id, Creating, stockUp, paymentUp);
      ServeStep(stored, r, id, Announcing, stockUp, paymentUp);
      ServeEnd(Published(stored, OrderCreated, id), r, id, stockUp, paymentUp);
      var order := new OrderRecord(id, r);
      store.Create(order);
      publisher.Publish(OrderCreated, id);
      assert View() == Published(stored, OrderCreated, id);
      Settle(id, stockUp, paymentUp);
    }

    /** CreateOrder once the request is checked; `id` is the fresh id it drew. The downstream services' answers
        are stockUp and paymentUp. */
    method Create(r: Request, id: string, stockUp: bool, paymentUp: bool) returns (result: Result)
      requires Valid()
      modifies idempotency, store, store.orders.Values, publisher
      ensures Valid()
      ensures result.Replies?
      ensures (View(), Replied(result.orderID, result.idempotent))
           == Serve(old(View()), r, id, Start, stockUp, paymentUp)
    {
      hide Serve;
      ghost var s := View();
      ServeStep(s, r, id, Start, stockUp, paymentUp);
      if r.key != "" {
        var owner, found := idempotency.GetOrSet(r.key, id);
        if found {
          ServeStep(s, r, id, Looking(owner), stockUp, paymentUp);
          ServeDone(s, r, id, owner, true, stockUp, paymentUp);
          if owner in store.orders {
            return Replies(owner, true);
          }
        }
      }
      Fulfil(r, id, stockUp, paymentUp);
      return Replies(id, false);
    }

    method CreateOrder(userID: string, items: seq<Item>, key: string, id: string, stockUp: bool, paymentUp: bool)
      returns (result: Result)
      requires Valid()
      modifies idempotency, store, store.orders.Values, publisher
      ensures Valid()
      ensures result.Replies? <==> Acceptable(userID, items)
      ensures !result.Replies? ==> View() == old(View()) && Explains(result, userID, items)
      ensures result.Replies? ==>
        (View(), Replied(result.orderID, result.idempotent))
          == Serve(old(View()), Request(userID, TotalOf(items), key), id, Start, stockUp, paymentUp)
    {
      var problem, why, total := Check(userID, items);
      if problem {
        return why;
      }
      result := Create(Request(userID, total, key), id, stockUp, paymentUp);
    }

    method CancelOrder(id: string) returns (found: bool)
      requires Valid()
      modifies store.orders.Values, publisher
      ensures Valid()
      ensures (View(), found) == Cancel(old(View()), id)
    {
      found := id in store.orders;
      if found {
        var o := store.orders[id];
        if o.status == Delivered || o.status == Shipped {
          return;
        }
        var _ := store.SetStatus(id, Cancelled);
        publisher.Publish(OrderCancelled, id);
      }
    }
  }
}

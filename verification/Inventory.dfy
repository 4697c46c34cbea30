/** Stock and reservations of the inventory service (services/inventory-service/cmd/main.go, lines 21-187 and
    246-270) as values: what each operation does to the whole store, and what every run keeps. */
module Inventory {
  import opened Sums

  datatype Status = Active | Confirmed | Released | Expired

  datatype Product = Product(stock: int, reserved: int, available: int)

  datatype Reservation = Reservation(
    orderID: string,
    productID: string,
    quantity: int,
    status: Status,
    expiresAt: real)

  datatype Store = Store(products: map<string, Product>, reservations: map<string, Reservation>)

  datatype Outcome =
    | Done
    | OrderIdRequired
    | ProductIdRequired
    | QuantityNotPositive
    | ProductNotFound
    | InsufficientStock
    | ReservationNotFound
    | NotActive

  /** Fifteen minutes, in seconds. */
  const RESERVATION_TTL := 900.0

  const EMPTY := Store(map[], map[])

  function WithReserved(p: Product, reserved: int): Product {
    p.(reserved := reserved, available := p.stock - reserved)
  }

  /** Reserved stock after n units are given back; it is never left below zero. */
  function GivenBack(p: Product, n: int): Product {
    WithReserved(p, if p.reserved - n < 0 then 0 else p.reserved - n)
  }

  function AddProduct(s: Store, id: string, stock: int, reserved: int): Store {
    s.(products := s.products[id := Product(stock, reserved, stock - reserved)])
  }

  /** InventoryService.Reserve: the request's own checks, then the store's. */
  function Reserve(s: Store, id: string, orderID: string, productID: string, quantity: int, now: real)
    : (Store, Outcome)
  {
    if orderID == "" then (s, OrderIdRequired)
    else if productID == "" then (s, ProductIdRequired)
    else if quantity <= 0 then (s, QuantityNotPositive)
    else if productID !in s.products then (s, ProductNotFound)
    else
      var p := s.products[productID];
      if p.available < quantity then (s, InsufficientStock)
      else
        var r := Reservation(orderID, productID, quantity, Active, now + RESERVATION_TTL);
        (Store(s.products[productID := WithReserved(p, p.reserved + quantity)], s.reservations[id := r]), Done)
  }

  function Confirm(s: Store, id: string): (Store, Outcome) {
    if id !in s.reservations then (s, ReservationNotFound)
    else
      var r := s.reservations[id];
      if r.status != Active then (s, NotActive)
      else if r.productID !in s.products then (s, ProductNotFound)
      else
        var p := s.products[r.productID];
        var p' := WithReserved(p.(stock := p.stock - r.quantity), p.reserved - r.quantity);
        (Store(s.products[r.productID := p'], s.reservations[id := r.(status := Confirmed)]), Done)
  }

  /** Only a released or confirmed reservation is left alone: an expired one is given back again. */
  function Release(s: Store, id: string): (Store, Outcome) {
    if id !in s.reservations then (s, ReservationNotFound)
    else
      var r := s.reservations[id];
      if r.status == Released || r.status == Confirmed then (s, Done)
      else
        var products :=
          if r.productID in s.products
          then s.products[r.productID := GivenBack(s.products[r.productID], r.quantity)]
          else s.products;
        (Store(products, s.reservations[id := r.(status := Released)]), Done)
  }

  /** Releasing is idempotent: the second release changes nothing and answers as the first did. */
  lemma ReleaseTwiceIsOnce(s: Store, id: string)
    ensures Release(Release(s, id).0, id) == Release(s, id)
  {
  }

  // ---- Expiry ----

  predicate IsStale(r: Reservation, now: real) {
    r.status == Active && now > r.expiresAt
  }

  ghost function Stale(productID: string, now: real): Reservation -> int {
    (r: Reservation) => if r.productID == productID && IsStale(r, now) then r.quantity else 0
  }

  function Among(m: map<string, Reservation>, ids: set<string>): map<string, Reservation> {
    map id | id in m && id in ids :: m[id]
  }

  /** The units that the stale reservations among ids hold of one product. */
  ghost function StaleUnits(s: Store, ids: set<string>, productID: string, now: real): int {
    Sum(Among(s.reservations, ids), Stale(productID, now))
  }

  function StaleAmong(s: Store, ids: set<string>, now: real): set<string> {
    set id | id in s.reservations && id in ids && IsStale(s.reservations[id], now)
  }

  /** A product no stale reservation holds is not touched. */
  function Relieved(p: Product, n: int): Product {
    if n == 0 then p else GivenBack(p, n)
  }

  /** Expire the stale reservations among ids, all at once: each product gets back what they held of it. */
  ghost function ExpireAmong(s: Store, ids: set<string>, now: real): Store {
    Store(
      map p | p in s.products :: Relieved(s.products[p], StaleUnits(s, ids, p, now)),
      map id | id in s.reservations ::
        var r := s.reservations[id];
        if id in ids && IsStale(r, now) then r.(status := Expired) else r)
  }

  /** ExpireStale: the store it leaves, and how many reservations it expired. */
  ghost function ExpireStale(s: Store, now: real): (Store, nat) {
    (ExpireAmong(s, s.reservations.Keys, now), |StaleAmong(s, s.reservations.Keys, now)|)
  }

  /** Expire one more reservation, as one turn of the loop does. */
  function ExpireOne(s: Store, id: string, now: real): Store
    requires id in s.reservations
  {
    var r := s.reservations[id];
    if !IsStale(r, now) then s
    else
      var products :=
        if r.productID in s.products
        then s.products[r.productID := GivenBack(s.products[r.productID], r.quantity)]
        else s.products;
      Store(products, s.reservations[id := r.(status := Expired)])
  }

  ghost predicate PositiveQuantities(s: Store) {
    forall id | id in s.reservations :: s.reservations[id].quantity > 0
  }

  lemma AmongAll(m: map<string, Reservation>)
    ensures Among(m, m.Keys) == m
  {
  }

  lemma StaleUnitsNotNegative(s: Store, ids: set<string>, p: string, now: real)
    requires PositiveQuantities(s)
    ensures StaleUnits(s, ids, p, now) >= 0
  {
    SumAtLeast(Among(s.reservations, ids), Stale(p, now), "");
  }

  lemma StaleUnitsPut(s: Store, ids: set<string>, id: string, p: string, now: real)
    requires id in s.reservations && id !in ids
    ensures StaleUnits(s, ids + {id}, p, now) == StaleUnits(s, ids, p, now) + Stale(p, now)(s.reservations[id])
  {
    var m := Among(s.reservations, ids);
    assert Among(s.reservations, ids + {id}) == m[id := s.reservations[id]];
    SumPut(m, Stale(p, now), id, s.reservations[id]);
  }

  lemma StaleUnitsPart(s: Store, ids: set<string>, p: string, now: real)
    requires PositiveQuantities(s)
    ensures StaleUnits(s, ids, p, now) <= StaleUnits(s, s.reservations.Keys, p, now)
  {
    AmongAll(s.reservations);
    SumPart(s.reservations, Among(s.reservations, ids), Stale(p, now));
  }

  /** With everything left to visit nothing has changed; with nothing left the whole sweep is done. */
  lemma SweepEnds(s: Store, now: real)
    ensures var ids := s.reservations.Keys;
            && ExpireAmong(s, ids - ids, now) == s
            && |StaleAmong(s, ids - ids, now)| == 0
            && ExpireStale(s, now) == (ExpireAmong(s, ids - {}, now), |StaleAmong(s, ids - {}, now)|)
  {
    var ids := s.reservations.Keys;
    assert ids - {} == ids;
    var none := ids - ids;
    assert none == {} && Among(s.reservations, none) == map[];
    var after := ExpireAmong(s, none, now);
    assert after.products == s.products && after.reservations == s.reservations;
    assert StaleAmong(s, none, now) == {};
  }

  /** Giving back a part, then another, clamping each time, is giving back both. */
  lemma RelievedTwice(p: Product, a: int, b: int)
    requires a >= 0 && b >= 0
    ensures Relieved(Relieved(p, a), b) == Relieved(p, a + b)
  {
  }

  lemma ExpiredEntries(s: Store, ids: set<string>, now: real)
    ensures var after := ExpireAmong(s, ids, now);
            && after.products.Keys == s.products.Keys
            && after.reservations.Keys == s.reservations.Keys
            && (forall p | p in s.products :: after.products[p] == Relieved(s.products[p], StaleUnits(s, ids, p, now)))
            && (forall id | id in s.reservations ::
                 after.reservations[id] ==
                   if id in ids && IsStale(s.reservations[id], now) then s.reservations[id].(status := Expired)
                   else s.reservations[id])
  {
    hide Relieved, StaleUnits, IsStale;
  }

  lemma StaleNotNegative(s: Store, id: string, p: string, now: real)
    requires PositiveQuantities(s) && id in s.reservations
    ensures Stale(p, now)(s.reservations[id]) >= 0
  {
  }

  lemma ExpireOneProduct(s: Store, ids: set<string>, id: string, p: string, now: real)
    requires PositiveQuantities(s) && id in s.reservations && id !in ids && p in s.products
    ensures Relieved(s.products[p], StaleUnits(s, ids + {id}, p, now))
         == Relieved(Relieved(s.products[p], StaleUnits(s, ids, p, now)), Stale(p, now)(s.reservations[id]))
  {
    hide *;
    StaleUnitsPut(s, ids, id, p, now);
    StaleUnitsNotNegative(s, ids, p, now);
    StaleNotNegative(s, id, p, now);
    RelievedTwice(s.products[p], StaleUnits(s, ids, p, now), Stale(p, now)(s.reservations[id]));
  }

  /** One turn of the loop, whichever reservation it visits, goes from one partial sweep to the next. */
  lemma ExpireAmongNext(s: Store, ids: set<string>, id: string, now: real)
    requires PositiveQuantities(s) && id in s.reservations && id !in ids
    ensures ExpireAmong(s, ids + {id}, now) == ExpireOne(ExpireAmong(s, ids, now), id, now)
  {
    hide ExpireAmong, StaleUnits;
    var before, after := ExpireAmong(s, ids, now), ExpireAmong(s, ids + {id}, now);
    ExpiredEntries(s, ids, now);
    ExpiredEntries(s, ids + {id}, now);
    var one := ExpireOne(before, id, now);
    assert before.reservations[id] == s.reservations[id];
    assert after.products == one.products by {
      forall p | p in s.products
        ensures after.products[p] == one.products[p]
      {
        ExpireOneProduct(s, ids, id, p, now);
        assert one.products[p] == Relieved(before.products[p], Stale(p, now)(s.reservations[id]));
      }
    }
    assert after.reservations == one.reservations;
  }

  lemma StaleAmongNext(s: Store, ids: set<string>, id: string, now: real)
    requires id in s.reservations && id !in ids
    ensures |StaleAmong(s, ids + {id}, now)|
         == |StaleAmong(s, ids, now)| + (if IsStale(s.reservations[id], now) then 1 else 0)
  {
    assert StaleAmong(s, ids + {id}, now)
        == StaleAmong(s, ids, now) + (if IsStale(s.reservations[id], now) then {id} else {});
  }

  lemma SweepsComposeProduct(s: Store, s1: Store, p: string, now: real, later: real)
    requires PositiveQuantities(s) && now <= later && s1 == ExpireAmong(s, s.reservations.Keys, now)
    ensures StaleUnits(s, s.reservations.Keys, p, now) >= 0
    ensures StaleUnits(s1, s1.reservations.Keys, p, later) >= 0
    ensures StaleUnits(s, s.reservations.Keys, p, later)
         == StaleUnits(s, s.reservations.Keys, p, now) + StaleUnits(s1, s1.reservations.Keys, p, later)
  {
    hide Sum;
    var ids := s.reservations.Keys;
    ExpiredEntries(s, ids, now);
    assert PositiveQuantities(s1);
    StaleUnitsNotNegative(s, ids, p, now);
    StaleUnitsNotNegative(s1, ids, p, later);
    hide ExpireAmong;
    AmongAll(s.reservations);
    AmongAll(s1.reservations);
    SumSplit(s.reservations, Stale(p, later), s.reservations, Stale(p, now), s1.reservations, Stale(p, later));
  }

  lemma SweepsComposeStore(s: Store, s1: Store, now: real, later: real)
    requires PositiveQuantities(s) && now <= later && s1 == ExpireAmong(s, s.reservations.Keys, now)
    ensures ExpireAmong(s1, s1.reservations.Keys, later) == ExpireAmong(s, s.reservations.Keys, later)
  {
    hide ExpireAmong, StaleUnits, Relieved, PositiveQuantities;
    var s2, s3 := ExpireAmong(s1, s1.reservations.Keys, later), ExpireAmong(s, s.reservations.Keys, later);
    ExpiredEntries(s, s.reservations.Keys, now);
    ExpiredEntries(s1, s1.reservations.Keys, later);
    ExpiredEntries(s, s.reservations.Keys, later);
    forall p | p in s.products
      ensures s2.products[p] == s3.products[p]
    {
      SweepsComposeProduct(s, s1, p, now, later);
      RelievedTwice(s.products[p], StaleUnits(s, s.reservations.Keys, p, now),
        StaleUnits(s1, s1.reservations.Keys, p, later));
    }
    assert s2.products == s3.products;
    assert s2.reservations == s3.reservations;
  }

  /** Sweeping at one time and again later leaves what the later sweep alone leaves, and the counts add up. */
  lemma SweepsCompose(s: Store, now: real, later: real)
    requires PositiveQuantities(s) && now <= later
    ensures var (s1, n1) := ExpireStale(s, now);
            var (s2, n2) := ExpireStale(s1, later);
            ExpireStale(s, later) == (s2, n1 + n2)
  {
    hide ExpireAmong, PositiveQuantities;
    var s1 := ExpireStale(s, now).0;
    SweepsComposeStore(s, s1, now, later);
    ExpiredEntries(s, s.reservations.Keys, now);
    var first := StaleAmong(s, s.reservations.Keys, now);
    var second := StaleAmong(s1, s1.reservations.Keys, later);
    assert StaleAmong(s, s.reservations.Keys, later) == first + second && first !! second;
  }

  /** The answer of a sweep is the number of reservations that it changed, each from active to expired. */
  lemma SweepCounts(s: Store, now: real)
    ensures var (t, n) := ExpireStale(s, now);
            && t.reservations.Keys == s.reservations.Keys
            && (forall id | id in s.reservations && t.reservations[id] != s.reservations[id] ::
                 s.reservations[id].status == Active && t.reservations[id] == s.reservations[id].(status := Expired))
            && n == |set id | id in s.reservations && t.reservations[id] != s.reservations[id]|
  {
    ExpiredEntries(s, s.reservations.Keys, now);
    hide ExpireAmong;
    var t := ExpireStale(s, now).0;
    assert StaleAmong(s, s.reservations.Keys, now)
        == set id | id in s.reservations && t.reservations[id] != s.reservations[id];
  }

  /** Repeating a sweep at the same time changes nothing and expires nothing. */
  lemma SweepTwiceIsOnce(s: Store, now: real)
    requires PositiveQuantities(s)
    ensures var s1 := ExpireStale(s, now).0; ExpireStale(s1, now) == (s1, 0)
  {
    hide StaleUnits, Relieved;
    SweepsCompose(s, now, now);
  }
}

/** What whole runs of the inventory service keep: nothing is oversold exactly as long as no reservation that
    has expired is released while other stock of its product is reserved, and every product that is added
    comes in with exactly its actively reserved units reserved. */
module InventoryRuns {
  import opened Inventory
  import opened Sums

  datatype Op =
    | AddOp(id: string, stock: int, reserved: int)
    | ReserveOp(id: string, orderID: string, productID: string, quantity: int, at: real)
    | ConfirmOp(id: string)
    | ReleaseOp(id: string)
    | ExpireOp(at: real)

  ghost function Step(s: Store, op: Op): Store {
    match op
    case AddOp(id, stock, reserved) => AddProduct(s, id, stock, reserved)
    case ReserveOp(id, orderID, productID, quantity, at) => Reserve(s, id, orderID, productID, quantity, at).0
    case ConfirmOp(id) => Confirm(s, id).0
    case ReleaseOp(id) => Release(s, id).0
    case ExpireOp(at) => ExpireStale(s, at).0
  }

  ghost function Run(ops: seq<Op>): Store {
    if ops == [] then EMPTY else Step(Run(ops[..|ops| - 1]), ops[|ops| - 1])
  }

  /** Reservation ids are new. A product may come in any number of times, with whatever the caller gives it. */
  ghost predicate Legal(s: Store, op: Op) {
    op.ReserveOp? ==> op.id !in s.reservations
  }

  ghost predicate LegalRun(ops: seq<Op>) {
    forall n | 0 <= n < |ops| :: Legal(Run(ops[..n]), ops[n])
  }

  // ---- Units of a product by reservation status ----

  ghost function InStatus(productID: string, status: Status): Reservation -> int {
    (r: Reservation) => if r.productID == productID && r.status == status then r.quantity else 0
  }

  ghost function Units(s: Store, productID: string, status: Status): int {
    Sum(s.reservations, InStatus(productID, status))
  }

  /** What a product last came in with: its stock, counting the units that were confirmed before; and how many
      units it came in reserved beyond those of its active reservations. */
  datatype Account = Account(supplied: int, surplus: nat)

  ghost function Arrival(s: Store, id: string, stock: int, reserved: int): Account {
    var extra := reserved - Units(s, id, Active);
    Account(stock + Units(s, id, Confirmed), if extra > 0 then extra else 0)
  }

  ghost function Booked(s: Store, accounts: map<string, Account>, op: Op): map<string, Account> {
    if op.AddOp? then accounts[op.id := Arrival(s, op.id, op.stock, op.reserved)] else accounts
  }

  ghost function Accounts(ops: seq<Op>): map<string, Account> {
    if ops == [] then map[]
    else
      var before, last := ops[..|ops| - 1], ops[|ops| - 1];
      Booked(Run(before), Accounts(before), last)
  }

  ghost predicate ConservedAt(s: Store, a: Account, p: string)
    requires p in s.products
  {
    && s.products[p].stock + Units(s, p, Confirmed) == a.supplied
    && s.products[p].available == s.products[p].stock - s.products[p].reserved
    && s.products[p].reserved <= Units(s, p, Active) + a.surplus
  }

  ghost predicate SoundAt(s: Store, p: string)
    requires p in s.products
  {
    s.products[p].reserved == Units(s, p, Active) <= s.products[p].stock
  }

  /** Reservations are of products that are there, and that have a name. */
  ghost predicate ProductsKnown(s: Store) {
    forall id | id in s.reservations :: s.reservations[id].productID != "" && s.reservations[id].productID in s.products
  }

  /** Holds in every run: no unit appears or vanishes, and no more is marked reserved than is actively reserved
      or came in reserved. */
  ghost predicate Conserved(s: Store, accounts: map<string, Account>) {
    && s.products.Keys == accounts.Keys
    && PositiveQuantities(s)
    && ProductsKnown(s)
    && (forall p | p in s.products :: ConservedAt(s, accounts[p], p))
  }

  /** What the service means to keep: exactly the actively reserved units are reserved, and all are in stock. */
  ghost predicate Sound(s: Store) {
    forall p | p in s.products :: SoundAt(s, p)
  }

  /** Releasing an expired reservation gives its units back a second time, at the cost of other reservations. */
  predicate GivesBackTwice(s: Store, op: Op) {
    && op.ReleaseOp?
    && op.id in s.reservations
    && s.reservations[op.id].status == Expired
    && s.reservations[op.id].productID in s.products
    && s.products[s.reservations[op.id].productID].reserved > 0
  }

  /** A product comes in with a reserved count other than that of its active reservations, or with less stock. */
  ghost predicate AddsMiscounted(s: Store, op: Op) {
    op.AddOp? && !(op.reserved == Units(s, op.id, Active) <= op.stock)
  }

  ghost predicate Unsettles(s: Store, op: Op) {
    GivesBackTwice(s, op) || AddsMiscounted(s, op)
  }

  lemma UnitsPut(s: Store, t: Store, id: string, r: Reservation, p: string, status: Status)
    requires t.reservations == s.reservations[id := r]
    ensures Units(t, p, status)
         == Units(s, p, status) + InStatus(p, status)(r)
            - (if id in s.reservations then InStatus(p, status)(s.reservations[id]) else 0)
  {
    SumPut(s.reservations, InStatus(p, status), id, r);
  }

  lemma UnitsCover(s: Store, id: string, p: string, status: Status)
    requires PositiveQuantities(s)
    ensures Units(s, p, status) >= 0
    ensures id in s.reservations ==> Units(s, p, status) >= InStatus(p, status)(s.reservations[id])
  {
    SumAtLeast(s.reservations, InStatus(p, status), id);
  }

  lemma UnitsReservations(s: Store, t: Store, p: string, status: Status)
    requires s.reservations == t.reservations
    ensures Units(s, p, status) == Units(t, p, status)
  {
  }

  lemma UnitsExpired(s: Store, p: string, now: real)
    requires PositiveQuantities(s)
    ensures var t, n := ExpireStale(s, now).0, StaleUnits(s, s.reservations.Keys, p, now);
            && Units(t, p, Active) == Units(s, p, Active) - n
            && Units(t, p, Confirmed) == Units(s, p, Confirmed)
            && n >= 0
  {
    var ids, t := s.reservations.Keys, ExpireStale(s, now).0;
    ExpiredEntries(s, ids, now);
    AmongAll(s.reservations);
    StaleUnitsNotNegative(s, ids, p, now);
    hide ExpireAmong, Sum;
    SumSplit(s.reservations, InStatus(p, Active), t.reservations, InStatus(p, Active), s.reservations, Stale(p, now));
    var none := (r: Reservation) => 0;
    SumZero(s.reservations, none);
    SumSplit(s.reservations, InStatus(p, Confirmed), t.reservations, InStatus(p, Confirmed), s.reservations, none);
  }

  // ---- One operation at a time ----

  /** A product that is new to the store, with nothing reserved, is booked with the stock it comes in with. */
  lemma NewArrival(s: Store, accounts: map<string, Account>, id: string, stock: int)
    requires Conserved(s, accounts) && id !in s.products
    ensures Arrival(s, id, stock, 0) == Account(stock, 0)
    ensures AddsMiscounted(s, AddOp(id, stock, 0)) <==> stock < 0
  {
    hide Sum;
    SumZero(s.reservations, InStatus(id, Active));
    SumZero(s.reservations, InStatus(id, Confirmed));
  }

  lemma AddKeeps(s: Store, accounts: map<string, Account>, id: string, stock: int, reserved: int)
    requires Conserved(s, accounts)
    ensures var t := AddProduct(s, id, stock, reserved);
            && Conserved(t, accounts[id := Arrival(s, id, stock, reserved)])
            && (Sound(s) ==> (Sound(t) <==> reserved == Units(s, id, Active) <= stock))
  {
    var t := AddProduct(s, id, stock, reserved);
    forall p, status
      ensures Units(t, p, status) == Units(s, p, status)
    {
      UnitsReservations(s, t, p, status);
    }
    hide Units;
    assert id in t.products;
    if Sound(t) {
      assert SoundAt(t, id);
    }
  }

  lemma ReservationsPut(s: Store, t: Store, id: string, r: Reservation)
    requires PositiveQuantities(s) && r.quantity > 0
    requires t.reservations == s.reservations[id := r] && t.products.Keys == s.products.Keys
    requires r.productID != "" && r.productID in s.products && ProductsKnown(s)
    ensures PositiveQuantities(t) && ProductsKnown(t)
  {
  }

  lemma ReserveKeepsAt(s: Store, a: Account, id: string, o: string, product: string, q: int, now: real, p: string)
    requires Reserve(s, id, o, product, q, now).1 == Done
    requires id !in s.reservations && p in s.products && ConservedAt(s, a, p)
    ensures var t := Reserve(s, id, o, product, q, now).0; ConservedAt(t, a, p) && (SoundAt(s, p) ==> SoundAt(t, p))
  {
    var t := Reserve(s, id, o, product, q, now).0;
    UnitsPut(s, t, id, t.reservations[id], p, Active);
    UnitsPut(s, t, id, t.reservations[id], p, Confirmed);
    hide Units;
  }

  lemma ReserveKeeps(s: Store, accounts: map<string, Account>,
                     id: string, o: string, product: string, q: int, now: real)
    requires Conserved(s, accounts) && id !in s.reservations
    ensures var t := Reserve(s, id, o, product, q, now).0; Conserved(t, accounts) && (Sound(s) ==> Sound(t))
  {
    var (t, result) := Reserve(s, id, o, product, q, now);
    if result == Done {
      hide ConservedAt, SoundAt, PositiveQuantities;
      forall p | p in t.products
        ensures ConservedAt(t, accounts[p], p) && (SoundAt(s, p) ==> SoundAt(t, p))
      {
        ReserveKeepsAt(s, accounts[p], id, o, product, q, now, p);
      }
      ReservationsPut(s, t, id, t.reservations[id]);
    }
  }

  lemma QuantityPositive(s: Store, id: string)
    requires PositiveQuantities(s) && id in s.reservations
    ensures s.reservations[id].quantity > 0
  {
  }

  lemma ConfirmKeepsAt(s: Store, a: Account, id: string, p: string)
    requires Confirm(s, id).1 == Done
    requires id in s.reservations && p in s.products && ConservedAt(s, a, p)
    ensures var t := Confirm(s, id).0; ConservedAt(t, a, p) && (SoundAt(s, p) ==> SoundAt(t, p))
  {
    var t := Confirm(s, id).0;
    UnitsPut(s, t, id, t.reservations[id], p, Active);
    UnitsPut(s, t, id, t.reservations[id], p, Confirmed);
    hide Units;
  }

  lemma ConfirmKeeps(s: Store, accounts: map<string, Account>, id: string)
    requires Conserved(s, accounts)
    ensures var t := Confirm(s, id).0; Conserved(t, accounts) && (Sound(s) ==> Sound(t))
  {
    var (t, result) := Confirm(s, id);
    if result == Done {
      assert t.products.Keys == s.products.Keys;
      assert t.reservations == s.reservations[id := s.reservations[id].(status := Confirmed)];
      assert id in s.reservations;
      hide ConservedAt, SoundAt, PositiveQuantities, Confirm;
      forall p | p in t.products
        ensures ConservedAt(t, accounts[p], p) && (SoundAt(s, p) ==> SoundAt(t, p))
      {
        ConfirmKeepsAt(s, accounts[p], id, p);
      }
      QuantityPositive(s, id);
      ReservationsPut(s, t, id, t.reservations[id]);
    }
  }

  lemma ReleaseKeepsAt(s: Store, a: Account, id: string, p: string)
    requires id in s.reservations && p in s.products && PositiveQuantities(s) && ConservedAt(s, a, p)
    requires s.reservations[id].status == Active || s.reservations[id].status == Expired
    ensures var t, r := Release(s, id).0, s.reservations[id];
            && ConservedAt(t, a, p)
            && (SoundAt(s, p) ==>
                 (SoundAt(t, p) <==> !(r.productID == p && r.status == Expired && s.products[p].reserved > 0)))
  {
    var t := Release(s, id).0;
    UnitsPut(s, t, id, t.reservations[id], p, Active);
    UnitsPut(s, t, id, t.reservations[id], p, Confirmed);
    UnitsCover(s, id, p, Active);
    QuantityPositive(s, id);
    hide Units, PositiveQuantities;
  }

  lemma ReleaseKeeps(s: Store, accounts: map<string, Account>, id: string)
    requires Conserved(s, accounts)
    ensures var t := Release(s, id).0;
            Conserved(t, accounts) && (Sound(s) ==> (Sound(t) <==> !GivesBackTwice(s, ReleaseOp(id))))
  {
    if id in s.reservations && (s.reservations[id].status == Active || s.reservations[id].status == Expired) {
      var t, r := Release(s, id).0, s.reservations[id];
      assert t.products.Keys == s.products.Keys && t.reservations == s.reservations[id := r.(status := Released)];
      assert Conserved(t, accounts) by {
        QuantityPositive(s, id);
        ReservationsPut(s, t, id, r.(status := Released));
        hide ConservedAt, PositiveQuantities, Release;
        forall p | p in t.products
          ensures ConservedAt(t, accounts[p], p)
        {
          ReleaseKeepsAt(s, accounts[p], id, p);
        }
      }
      if Sound(s) {
        var twice := r.status == Expired && s.products[r.productID].reserved > 0;
        hide ConservedAt, SoundAt, PositiveQuantities, Release;
        forall p | p in t.products
          ensures SoundAt(t, p) <==> !(r.productID == p && twice)
        {
          ReleaseKeepsAt(s, accounts[p], id, p);
        }
      }
    }
  }

  lemma ExpireKeeps(s: Store, accounts: map<string, Account>, now: real)
    requires Conserved(s, accounts)
    ensures var t := ExpireStale(s, now).0; Conserved(t, accounts) && (Sound(s) ==> Sound(t))
  {
    var t := ExpireStale(s, now).0;
    ExpiredEntries(s, s.reservations.Keys, now);
    hide Units, StaleUnits, ExpireAmong;
    forall p
      ensures Units(t, p, Active) == Units(s, p, Active) - StaleUnits(s, s.reservations.Keys, p, now)
      ensures Units(t, p, Confirmed) == Units(s, p, Confirmed)
      ensures StaleUnits(s, s.reservations.Keys, p, now) >= 0 && Units(t, p, Active) >= 0
    {
      UnitsExpired(s, p, now);
      UnitsCover(t, "", p, Active);
    }
  }

  /** Every operation keeps the conserved quantities. It keeps a sound store sound exactly when it does not give
      an expired reservation back a second time, nor add a product with a reserved count that is not that of its
      active reservations. */
  lemma StepKeeps(s: Store, accounts: map<string, Account>, op: Op)
    requires Conserved(s, accounts) && Legal(s, op)
    ensures Conserved(Step(s, op), Booked(s, accounts, op))
    ensures Sound(s) ==> (Sound(Step(s, op)) <==> !Unsettles(s, op))
  {
    hide Conserved, Sound, Units;
    match op
    case AddOp(id, stock, reserved) => AddKeeps(s, accounts, id, stock, reserved);
    case ReserveOp(id, o, p, q, at) => ReserveKeeps(s, accounts, id, o, p, q, at);
    case ConfirmOp(id) => ConfirmKeeps(s, accounts, id);
    case ReleaseOp(id) => ReleaseKeeps(s, accounts, id);
    case ExpireOp(at) => ExpireKeeps(s, accounts, at);
  }

  // ---- Whole runs ----

  lemma EmptyConserved()
    ensures Conserved(EMPTY, map[]) && Sound(EMPTY)
  {
  }

  /** In every run, whatever is released or added: stock plus confirmed units is what was supplied, available is
      stock - reserved, and no more is marked reserved than is actively reserved or came in reserved. */
  lemma {:induction false} RunConserves(ops: seq<Op>)
    requires LegalRun(ops)
    ensures Conserved(Run(ops), Accounts(ops))
  {
    hide Conserved, Booked;
    if ops == [] {
      EmptyConserved();
    } else {
      var before, last := ops[..|ops| - 1], ops[|ops| - 1];
      assert forall n | 0 <= n <= |before| :: before[..n] == ops[..n];
      RunConserves(before);
      StepKeeps(Run(before), Accounts(before), last);
    }
  }

  ghost predicate SoundThroughout(ops: seq<Op>) {
    forall n | 0 <= n <= |ops| :: Sound(Run(ops[..n]))
  }

  ghost predicate NeverUnsettled(ops: seq<Op>) {
    forall n | 0 <= n < |ops| :: !Unsettles(Run(ops[..n]), ops[n])
  }

  lemma PrefixesOfLast(ops: seq<Op>)
    requires ops != []
    ensures var before, last := ops[..|ops| - 1], ops[|ops| - 1];
            && (SoundThroughout(ops) <==> SoundThroughout(before) && Sound(Run(ops)))
            && (NeverUnsettled(ops) <==> NeverUnsettled(before) && !Unsettles(Run(before), last))
            && (SoundThroughout(before) ==> Sound(Run(before)))
            && (LegalRun(ops) ==> LegalRun(before) && Legal(Run(before), last))
  {
    hide Sound, Legal, Unsettles, Run;
    var before := ops[..|ops| - 1];
    assert forall n | 0 <= n <= |before| :: before[..n] == ops[..n];
    assert ops[..|ops|] == ops && before[..|before|] == before;
  }

  /** A run is sound throughout exactly when it never gives an expired reservation back a second time and adds
      products only with the units reserved that their active reservations hold, all of them in stock. */
  lemma {:induction false} SoundExactlyWhenNeverUnsettled(ops: seq<Op>)
    requires LegalRun(ops)
    ensures SoundThroughout(ops) <==> NeverUnsettled(ops)
  {
    if ops == [] {
      EmptyConserved();
      assert ops[..0] == ops;
    } else {
      var before, last := ops[..|ops| - 1], ops[|ops| - 1];
      PrefixesOfLast(ops);
      hide Sound, Conserved, SoundThroughout, NeverUnsettled, Unsettles, LegalRun, Legal, Step, Accounts, Booked;
      SoundExactlyWhenNeverUnsettled(before);
      RunConserves(before);
      StepKeeps(Run(before), Accounts(before), last);
    }
  }

  // ---- What sound stores do ----

  /** A sound store never oversells. */
  lemma SoundNeverOversells(s: Store, accounts: map<string, Account>, p: string)
    requires Conserved(s, accounts) && Sound(s) && p in s.products
    ensures 0 <= s.products[p].reserved <= s.products[p].stock
    ensures 0 <= s.products[p].available && 0 <= Units(s, p, Confirmed) <= accounts[p].supplied
  {
    hide Units;
    UnitsCover(s, "", p, Active);
    UnitsCover(s, "", p, Confirmed);
  }

  /** A sound store takes a proper request exactly when the product has that many units that nobody actively
      holds; it then holds exactly those more. */
  lemma ReservesExactlyWhatIsFree(s: Store, accounts: map<string, Account>,
                                  id: string, o: string, p: string, q: int, now: real)
    requires Conserved(s, accounts) && Sound(s) && id !in s.reservations
    ensures var (t, result) := Reserve(s, id, o, p, q, now);
            && (result == Done <==>
                 o != "" && p != "" && q > 0 && p in s.products && Units(s, p, Active) + q <= s.products[p].stock)
            && (result != Done ==> t == s)
            && (result == Done ==> Units(t, p, Active) == Units(s, p, Active) + q)
  {
    var (t, result) := Reserve(s, id, o, p, q, now);
    hide Units;
    if p in s.products {
      assert ConservedAt(s, accounts[p], p) && SoundAt(s, p);
    }
    if result == Done {
      UnitsPut(s, t, id, t.reservations[id], p, Active);
    }
  }

  /** A reservation made at one time and swept at another expires exactly if more than fifteen minutes passed;
      then its product has back what the sweep found stale, this reservation included. */
  lemma HeldForFifteenMinutes(s: Store, id: string, o: string, p: string, q: int, at: real, now: real)
    requires PositiveQuantities(s) && id !in s.reservations && Reserve(s, id, o, p, q, at).1 == Done
    ensures var t := Reserve(s, id, o, p, q, at).0;
            var u := ExpireStale(t, now).0;
            && id in u.reservations
            && u.reservations[id].status == (if now - at > 900.0 then Expired else Active)
            && p in u.products
            && (now - at > 900.0 ==> StaleUnits(t, t.reservations.Keys, p, now) >= q)
            && u.products[p] == Relieved(t.products[p], StaleUnits(t, t.reservations.Keys, p, now))
  {
    var t := Reserve(s, id, o, p, q, at).0;
    ExpiredEntries(t, t.reservations.Keys, now);
    AmongAll(t.reservations);
    assert PositiveQuantities(t);
    hide ExpireAmong, PositiveQuantities;
    assert forall x | x in t.reservations :: Stale(p, now)(t.reservations[x]) >= 0 by {
      forall x | x in t.reservations
        ensures Stale(p, now)(t.reservations[x]) >= 0
      {
        StaleNotNegative(t, x, p, now);
      }
    }
    SumAtLeast(t.reservations, Stale(p, now), id);
  }

  // ---- A run that oversells ----

  lemma Extend(ops: seq<Op>, op: Op)
    requires LegalRun(ops) && Legal(Run(ops), op)
    ensures LegalRun(ops + [op]) && Run(ops + [op]) == Step(Run(ops), op)
    ensures (ops + [op])[..|ops|] == ops
  {
    hide Step, Legal;
    var longer := ops + [op];
    assert longer[..|ops|] == ops && longer[|longer| - 1] == op;
    assert Run(longer) == Step(Run(ops), op);
    hide Run;
    assert forall n | 0 <= n <= |ops| :: longer[..n] == ops[..n];
  }

  lemma {:induction false} AccountsStay(ops: seq<Op>, longer: seq<Op>)
    requires |ops| <= |longer| && longer[..|ops|] == ops
    requires forall i | |ops| <= i < |longer| :: !longer[i].AddOp?
    ensures Accounts(longer) == Accounts(ops)
    decreases |longer|
  {
    if |ops| == |longer| {
      assert longer == ops;
    } else {
      AccountsStay(ops, longer[..|longer| - 1]);
    }
  }

  const P := "p"

  function Holding(status: Status, at: real): Reservation {
    Reservation("o", P, 5, status, at + RESERVATION_TTL)
  }

  lemma ExpireSingle(s: Store, now: real)
    requires s == Store(map[P := Product(5, 5, 0)], map["a" := Holding(Active, 0.0)]) && now > RESERVATION_TTL
    ensures ExpireStale(s, now).0 == Store(map[P := Product(5, 0, 5)], map["a" := Holding(Expired, 0.0)])
  {
    var t := ExpireStale(s, now).0;
    AmongAll(s.reservations);
    assert StaleUnits(s, s.reservations.Keys, P, now) == 5 by {
      SumTake(s.reservations, Stale(P, now), "a");
      assert s.reservations - {"a"} == map[];
    }
    assert t.products == map[P := Product(5, 0, 5)];
    assert t.reservations == map["a" := Holding(Expired, 0.0)];
  }

  /** a's reservation has expired and b has taken its units. */
  lemma UntilBooked() returns (ops: seq<Op>)
    ensures LegalRun(ops) && Accounts(ops) == map[P := Account(5, 0)]
    ensures Run(ops)
         == Store(map[P := Product(5, 5, 0)], map["a" := Holding(Expired, 0.0), "b" := Holding(Active, 1000.0)])
  {
    var add, reserve, again := AddOp(P, 5, 0), ReserveOp("a", "o", P, 5, 0.0), ReserveOp("b", "o", P, 5, 1000.0);
    ops := [add];
    assert ops[..0] == [];
    assert Run(ops) == Store(map[P := Product(5, 0, 5)], map[]);
    AccountsStay([add], [add, reserve, ExpireOp(1000.0), again]);
    hide Run, LegalRun, Accounts, ExpireAmong;
    Extend(ops, reserve);
    ops := ops + [reserve];
    assert Run(ops) == Store(map[P := Product(5, 5, 0)], map["a" := Holding(Active, 0.0)]);
    Extend(ops, ExpireOp(1000.0));
    ExpireSingle(Run(ops), 1000.0);
    ops := ops + [ExpireOp(1000.0)];
    Extend(ops, again);
    ops := ops + [again];
    assert ops == [add, reserve, ExpireOp(1000.0), again];
  }

  /** Five units, sold twice: a's reservation expires, b takes the units, and releasing a gives them back again,
      so that c takes them too. Reserved is then below the active units, and confirming both leaves stock at -5. */
  lemma OversellingRun() returns (ops: seq<Op>, n: nat)
    ensures LegalRun(ops) && Accounts(ops) == map[P := Account(5, 0)]
    ensures n < |ops| && P in Run(ops[..n]).products
    ensures Run(ops[..n]).products[P].reserved < Units(Run(ops[..n]), P, Active)
    ensures P in Run(ops).products && Run(ops).products[P].stock == -5
  {
    var start := UntilBooked();
    var reserve := ReserveOp("c", "o", P, 5, 1000.0);
    var released := start + [ReleaseOp("a")];
    hide Run, LegalRun, Accounts, Conserved, Units;
    Extend(start, ReleaseOp("a"));
    assert Run(released)
        == Store(map[P := Product(5, 0, 5)], map["a" := Holding(Released, 0.0), "b" := Holding(Active, 1000.0)]);
    assert PositiveQuantities(Run(released));
    UnitsCover(Run(released), "b", P, Active);
    Extend(released, reserve);
    ops := released + [reserve];
    Extend(ops, ConfirmOp("b"));
    ops := ops + [ConfirmOp("b")];
    assert Run(ops).products[P] == Product(0, 0, 0) && Run(ops).reservations["c"] == Holding(Active, 1000.0);
    Extend(ops, ConfirmOp("c"));
    ops, n := ops + [ConfirmOp("c")], |released|;
    assert ops[..n] == released;
    AccountsStay(start, ops);
  }

  /** A product that is added again while units of it are reserved is sold twice as well. */
  lemma AddedAgainRun() returns (ops: seq<Op>)
    ensures LegalRun(ops) && forall n | 0 <= n < |ops| :: !ops[n].ReleaseOp?
    ensures P in Run(ops).products && Run(ops).products[P].stock == -5
  {
    var add, a, b := AddOp(P, 5, 0), ReserveOp("a", "o", P, 5, 0.0), ReserveOp("b", "o", P, 5, 0.0);
    ops := [add];
    assert ops[..0] == [];
    assert Run(ops) == Store(map[P := Product(5, 0, 5)], map[]);
    hide Run, LegalRun;
    Extend(ops, a);
    ops := ops + [a];
    Extend(ops, add);
    ops := ops + [add];
    assert Run(ops) == Store(map[P := Product(5, 0, 5)], map["a" := Holding(Active, 0.0)]);
    Extend(ops, b);
    ops := ops + [b];
    Extend(ops, ConfirmOp("a"));
    ops := ops + [ConfirmOp("a")];
    assert Run(ops).products[P] == Product(0, 0, 0);
    Extend(ops, ConfirmOp("b"));
    ops := ops + [ConfirmOp("b")];
  }
}

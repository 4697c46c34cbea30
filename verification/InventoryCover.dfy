/** When the inventory service can oversell (services/inventory-service/cmd/main.go, lines 67-187): a store is safe
    exactly as long as the active reservations of every product are covered, both by what it marks reserved and by
    its stock. */
module InventoryCover {
  import opened Inventory
  import opened InventoryRuns
  import opened Sums

  predicate Covers(p: string, stock: int, reserved: int, active: int) {
    active <= stock && (p != "" ==> active <= reserved)
  }

  /** The actively reserved units are in stock, and marked reserved so that nobody else gets them. A product without
      a name cannot be reserved, and needs no mark. */
  ghost predicate CoveredAt(s: Store, p: string)
    requires p in s.products
  {
    Covers(p, s.products[p].stock, s.products[p].reserved, Units(s, p, Active))
  }

  ghost predicate Covered(s: Store) {
    forall p | p in s.products :: CoveredAt(s, p)
  }

  predicate IsExpired(s: Store, id: string) {
    id in s.reservations && s.reservations[id].status == Expired
  }

  /** Releasing an expired reservation takes the mark off units that active reservations hold. */
  ghost predicate ReleaseUncovers(s: Store, op: Op) {
    && op.ReleaseOp? && IsExpired(s, op.id)
    && var r := s.reservations[op.id];
       r.productID in s.products
       && GivenBack(s.products[r.productID], r.quantity).reserved < Units(s, r.productID, Active)
  }

  /** A product comes in with less stock, or fewer units marked reserved, than its active reservations hold. */
  ghost predicate AddUncovers(s: Store, op: Op) {
    op.AddOp? && !Covers(op.id, op.stock, op.reserved, Units(s, op.id, Active))
  }

  ghost predicate Uncovers(s: Store, op: Op) {
    ReleaseUncovers(s, op) || AddUncovers(s, op)
  }

  // ---- One operation at a time ----

  lemma AddCovers(s: Store, op: Op)
    requires op.AddOp? && Covered(s)
    ensures Covered(Step(s, op)) <==> !AddUncovers(s, op)
  {
    var t := Step(s, op);
    forall p
      ensures Units(t, p, Active) == Units(s, p, Active)
    {
      UnitsReservations(s, t, p, Active);
    }
    hide Units;
    assert op.id in t.products;
    assert CoveredAt(t, op.id) <==> !AddUncovers(s, op);
    assert forall p | p in t.products && p != op.id :: CoveredAt(s, p) ==> CoveredAt(t, p);
  }

  lemma ReserveCoversAt(s: Store, a: Account, id: string, o: string, product: string, q: int, now: real, p: string)
    requires Reserve(s, id, o, product, q, now).1 == Done && id !in s.reservations
    requires p in s.products && ConservedAt(s, a, p) && CoveredAt(s, p)
    ensures CoveredAt(Reserve(s, id, o, product, q, now).0, p)
  {
    var t := Reserve(s, id, o, product, q, now).0;
    UnitsPut(s, t, id, t.reservations[id], p, Active);
    hide Units;
  }

  lemma ConfirmCoversAt(s: Store, id: string, p: string)
    requires Confirm(s, id).1 == Done && p in s.products && CoveredAt(s, p) && PositiveQuantities(s)
    ensures CoveredAt(Confirm(s, id).0, p)
  {
    var t := Confirm(s, id).0;
    UnitsPut(s, t, id, t.reservations[id], p, Active);
    QuantityPositive(s, id);
    hide Units, PositiveQuantities;
  }

  lemma ReleaseCoversAt(s: Store, id: string, p: string)
    requires id in s.reservations && p in s.products && CoveredAt(s, p) && PositiveQuantities(s) && ProductsKnown(s)
    requires s.reservations[id].status == Active || s.reservations[id].status == Expired
    ensures CoveredAt(Release(s, id).0, p) <==>
      !(s.reservations[id].productID == p && ReleaseUncovers(s, ReleaseOp(id)))
  {
    var t := Release(s, id).0;
    UnitsPut(s, t, id, t.reservations[id], p, Active);
    UnitsCover(t, "", p, Active) by {
      QuantityPositive(s, id);
      assert PositiveQuantities(t);
    }
    QuantityPositive(s, id);
    hide Units, PositiveQuantities;
  }

  lemma ExpireCovers(s: Store, now: real)
    requires PositiveQuantities(s) && Covered(s)
    ensures Covered(ExpireStale(s, now).0)
  {
    var t := ExpireStale(s, now).0;
    ExpiredEntries(s, s.reservations.Keys, now);
    hide Units, StaleUnits, ExpireAmong;
    forall p | p in t.products
      ensures CoveredAt(t, p)
    {
      UnitsExpired(s, p, now);
      UnitsCover(t, "", p, Active);
      assert CoveredAt(s, p);
    }
  }

  /** An operation keeps a covered store covered exactly when it does not uncover active reservations itself. */
  lemma StepCovers(s: Store, accounts: map<string, Account>, op: Op)
    requires Conserved(s, accounts) && Legal(s, op) && Covered(s)
    ensures Covered(Step(s, op)) <==> !Uncovers(s, op)
  {
    var t := Step(s, op);
    hide Units, CoveredAt, PositiveQuantities;
    match op
    case AddOp(id, stock, reserved) => AddCovers(s, op);
    case ReserveOp(id, o, product, q, at) =>
      if Reserve(s, id, o, product, q, at).1 == Done {
        forall p | p in t.products
          ensures CoveredAt(t, p)
        {
          ReserveCoversAt(s, accounts[p], id, o, product, q, at, p);
        }
      }
    case ConfirmOp(id) =>
      if Confirm(s, id).1 == Done {
        forall p | p in t.products
          ensures CoveredAt(t, p)
        {
          ConfirmCoversAt(s, id, p);
        }
      }
    case ReleaseOp(id) =>
      if id in s.reservations && (s.reservations[id].status == Active || s.reservations[id].status == Expired) {
        hide ReleaseUncovers;
        forall p | p in t.products
          ensures CoveredAt(t, p) <==> !(s.reservations[id].productID == p && ReleaseUncovers(s, op))
        {
          ReleaseCoversAt(s, id, p);
        }
        assert s.reservations[id].productID in t.products;
      }
    case ExpireOp(at) => ExpireCovers(s, at);
  }

  // ---- Why cover is what matters: what customers can do to a store ----

  /** What customers and the sweep do: reserve, confirm, release what is active, expire. */
  ghost predicate Ordinary(s: Store, op: Op) {
    Legal(s, op) && !op.AddOp? && !(op.ReleaseOp? && IsExpired(s, op.id))
  }

  ghost function Continue(s: Store, more: seq<Op>): Store
    decreases more
  {
    if more == [] then s else Continue(Step(s, more[0]), more[1..])
  }

  ghost predicate AllOrdinary(s: Store, more: seq<Op>)
    decreases more
  {
    more == [] || (Ordinary(s, more[0]) && AllOrdinary(Step(s, more[0]), more[1..]))
  }

  ghost predicate Oversold(s: Store) {
    exists p | p in s.products :: s.products[p].stock < 0
  }

  ghost predicate OversoldBy(s: Store, more: seq<Op>) {
    AllOrdinary(s, more) && Oversold(Continue(s, more))
  }

  /** Whatever ordinary operations follow, no product is ever sold more often than it was in stock. */
  ghost predicate Safe(s: Store) {
    forall more :: !OversoldBy(s, more)
  }

  lemma CoveredStock(s: Store)
    requires PositiveQuantities(s) && Covered(s)
    ensures !Oversold(s)
  {
    forall p | p in s.products
      ensures s.products[p].stock >= 0
    {
      assert CoveredAt(s, p);
      UnitsCover(s, "", p, Active);
    }
  }

  lemma OrdinaryCovers(s: Store, op: Op)
    requires Ordinary(s, op)
    ensures !Uncovers(s, op)
  {
  }

  lemma {:induction false} CoveredStays(s: Store, accounts: map<string, Account>, more: seq<Op>)
    requires Conserved(s, accounts) && Covered(s)
    ensures !OversoldBy(s, more)
    decreases more
  {
    if more == [] {
      CoveredStock(s);
    } else if AllOrdinary(s, more) {
      var op := more[0];
      OrdinaryCovers(s, op);
      assert Legal(s, op) && Booked(s, accounts, op) == accounts;
      hide Conserved, Covered, Step, Uncovers, Ordinary;
      StepKeeps(s, accounts, op);
      StepCovers(s, accounts, op);
      CoveredStays(Step(s, op), accounts, more[1..]);
    }
  }

  lemma OneBefore(s: Store, op: Op, more: seq<Op>)
    requires Ordinary(s, op) && AllOrdinary(Step(s, op), more)
    ensures AllOrdinary(s, [op] + more) && Continue(s, [op] + more) == Continue(Step(s, op), more)
  {
    hide Ordinary, Step;
    assert ([op] + more)[1..] == more;
  }

  lemma ConfirmOne(s: Store, accounts: map<string, Account>, id: string)
    requires Conserved(s, accounts) && id in s.reservations && s.reservations[id].status == Active
    ensures var (t, p, q) := (Step(s, ConfirmOp(id)), s.reservations[id].productID, s.reservations[id].quantity);
            && Ordinary(s, ConfirmOp(id))
            && Conserved(t, accounts)
            && p in s.products && p in t.products && q > 0
            && t.products[p].stock == s.products[p].stock - q
            && Units(t, p, Active) == Units(s, p, Active) - q
  {
    var t := Step(s, ConfirmOp(id));
    QuantityPositive(s, id);
    StepKeeps(s, accounts, ConfirmOp(id));
    UnitsPut(s, t, id, t.reservations[id], s.reservations[id].productID, Active);
    hide Units, Conserved, PositiveQuantities;
  }

  /** Confirming every active reservation of a product takes all their units out of its stock. */
  lemma {:induction false} ConfirmAll(s: Store, accounts: map<string, Account>, p: string) returns (more: seq<Op>)
    requires Conserved(s, accounts) && p in s.products
    ensures AllOrdinary(s, more)
    ensures var t := Continue(s, more);
            p in t.products && t.products[p].stock == s.products[p].stock - Units(s, p, Active)
    decreases Units(s, p, Active)
  {
    UnitsCover(s, "", p, Active);
    if id :| id in s.reservations && s.reservations[id].productID == p && s.reservations[id].status == Active {
      ConfirmOne(s, accounts, id);
      var t := Step(s, ConfirmOp(id));
      UnitsCover(t, "", p, Active) by {
        assert PositiveQuantities(t);
      }
      hide Units, Conserved, Step, Ordinary;
      more := ConfirmAll(t, accounts, p);
      OneBefore(s, ConfirmOp(id), more);
      more := [ConfirmOp(id)] + more;
    } else {
      more := [];
      SumZero(s.reservations, InStatus(p, Active));
    }
  }

  /** Some id is longer than all those in use. */
  lemma {:induction false} FreshId(ids: set<string>) returns (id: string)
    ensures id !in ids && forall x | x in ids :: |x| < |id|
    decreases ids
  {
    if x :| x in ids {
      var other := FreshId(ids - {x});
      id := if |other| > |x| then other else x + "+";
    } else {
      id := "+";
    }
  }

  /** All that is available is reserved at once. */
  lemma ReserveRest(s: Store, accounts: map<string, Account>, id: string, p: string)
    requires Conserved(s, accounts) && id !in s.reservations && p in s.products && p != ""
    requires s.products[p].reserved < s.products[p].stock
    ensures var q := s.products[p].stock - s.products[p].reserved;
            var op := ReserveOp(id, "o", p, q, 0.0);
            && Ordinary(s, op)
            && Conserved(Step(s, op), accounts)
            && p in Step(s, op).products && Step(s, op).products[p].stock == s.products[p].stock
            && Units(Step(s, op), p, Active) == Units(s, p, Active) + q
  {
    var op := ReserveOp(id, "o", p, s.products[p].stock - s.products[p].reserved, 0.0);
    assert ConservedAt(s, accounts[p], p);
    StepKeeps(s, accounts, op);
    UnitsPut(s, Step(s, op), id, Step(s, op).reservations[id], p, Active);
    hide Units, Conserved, PositiveQuantities;
  }

  /** A product that is not covered can be oversold: whoever reserves all that is still available, and confirms,
      takes stock that active reservations hold. */
  lemma UncoveredOversells(s: Store, accounts: map<string, Account>, p: string) returns (more: seq<Op>)
    requires Conserved(s, accounts) && p in s.products && !CoveredAt(s, p)
    ensures OversoldBy(s, more)
  {
    var active, stock, reserved := Units(s, p, Active), s.products[p].stock, s.products[p].reserved;
    hide Units, Conserved;
    if active > stock {
      more := ConfirmAll(s, accounts, p);
    } else {
      var id := FreshId(s.reservations.Keys);
      var op := ReserveOp(id, "o", p, stock - reserved, 0.0);
      ReserveRest(s, accounts, id, p);
      hide Step, Ordinary;
      more := ConfirmAll(Step(s, op), accounts, p);
      OneBefore(s, op, more);
      more := [op] + more;
    }
  }

  /** A store can be oversold by ordinary operations exactly when some active reservation is not covered. */
  lemma SafeExactlyWhenCovered(s: Store, accounts: map<string, Account>)
    requires Conserved(s, accounts)
    ensures Safe(s) <==> Covered(s)
  {
    hide Conserved, CoveredAt, OversoldBy;
    if Covered(s) {
      forall more
        ensures !OversoldBy(s, more)
      {
        CoveredStays(s, accounts, more);
      }
    } else {
      var p :| p in s.products && !CoveredAt(s, p);
      var more := UncoveredOversells(s, accounts, p);
    }
  }

  // ---- Whole runs ----

  ghost predicate SafeThroughout(ops: seq<Op>) {
    forall n | 0 <= n <= |ops| :: Safe(Run(ops[..n]))
  }

  ghost predicate NeverUncovered(ops: seq<Op>) {
    forall n | 0 <= n < |ops| :: !Uncovers(Run(ops[..n]), ops[n])
  }

  lemma EmptySafe()
    ensures Safe(EMPTY)
  {
    EmptyConserved();
    assert Covered(EMPTY);
    SafeExactlyWhenCovered(EMPTY, map[]);
  }

  lemma PrefixesOfLastSafe(ops: seq<Op>)
    requires ops != []
    ensures var before, last := ops[..|ops| - 1], ops[|ops| - 1];
            && (SafeThroughout(ops) <==> SafeThroughout(before) && Safe(Run(ops)))
            && (NeverUncovered(ops) <==> NeverUncovered(before) && !Uncovers(Run(before), last))
            && (SafeThroughout(before) ==> Safe(Run(before)))
  {
    hide Safe, Uncovers, Run;
    var before := ops[..|ops| - 1];
    assert forall n | 0 <= n <= |before| :: before[..n] == ops[..n];
    assert ops[..|ops|] == ops && before[..|before|] == before;
  }

  lemma LastIsSafe(ops: seq<Op>)
    requires LegalRun(ops) && ops != []
    ensures var before, last := ops[..|ops| - 1], ops[|ops| - 1];
            LegalRun(before) && (Safe(Run(before)) ==> (Safe(Run(ops)) <==> !Uncovers(Run(before), last)))
  {
    var before, last := ops[..|ops| - 1], ops[|ops| - 1];
    assert Run(ops) == Step(Run(before), last);
    PrefixesOfLast(ops);
    hide *;
    RunConserves(ops);
    RunConserves(before);
    SafeExactlyWhenCovered(Run(ops), Accounts(ops));
    SafeExactlyWhenCovered(Run(before), Accounts(before));
    if Safe(Run(before)) {
      StepCovers(Run(before), Accounts(before), last);
    }
  }

  /** Nothing can be oversold at any point of a run exactly when the run never takes the mark, or the stock, away
      from units that active reservations hold: neither by releasing what has expired nor by adding a product. */
  lemma {:induction false} SafeExactlyWhenNeverUncovered(ops: seq<Op>)
    requires LegalRun(ops)
    ensures SafeThroughout(ops) <==> NeverUncovered(ops)
  {
    if ops == [] {
      EmptySafe();
      assert ops[..0] == ops;
    } else {
      PrefixesOfLastSafe(ops);
      LastIsSafe(ops);
      hide *;
      SafeExactlyWhenNeverUncovered(ops[..|ops| - 1]);
    }
  }

  // ---- Clamps ----

  /** This turn of a sweep that has visited ids would take a product below zero, and so is clamped. */
  ghost predicate ClampsAtTurn(s: Store, ids: set<string>, id: string, now: real) {
    && id in s.reservations && id !in ids && IsStale(s.reservations[id], now)
    && var r := s.reservations[id];
       r.productID in s.products && ExpireAmong(s, ids, now).products[r.productID].reserved < r.quantity
  }

  /** More is given back than the product has reserved: by a release, or by a sweep in some order of its turns. */
  ghost predicate Clamps(s: Store, op: Op) {
    match op
    case ReleaseOp(id) =>
      && id in s.reservations
      && (s.reservations[id].status == Active || s.reservations[id].status == Expired)
      && s.reservations[id].productID in s.products
      && s.products[s.reservations[id].productID].reserved < s.reservations[id].quantity
    case ExpireOp(at) => exists ids, id :: ClampsAtTurn(s, ids, id, at)
    case _ => false
  }

  /** A covered store has reserved whatever a sweep gives back. */
  lemma StaleIsReserved(s: Store, ids: set<string>, p: string, now: real)
    requires Covered(s) && PositiveQuantities(s) && p in s.products && p != ""
    ensures StaleUnits(s, ids, p, now) <= s.products[p].reserved
  {
    StaleUnitsPart(s, ids, p, now);
    UnitsExpired(s, p, now);
    var t := ExpireStale(s, now).0;
    assert PositiveQuantities(t) by {
      ExpiredEntries(s, s.reservations.Keys, now);
    }
    UnitsCover(t, "", p, Active);
    hide Units, StaleUnits, ExpireAmong;
    assert CoveredAt(s, p);
  }

  lemma SweepNeverClamps(s: Store, ids: set<string>, id: string, now: real)
    requires Covered(s) && PositiveQuantities(s) && ProductsKnown(s)
    ensures !ClampsAtTurn(s, ids, id, now)
  {
    if ClampsAtTurn(s, ids, id, now) {
      var p, q := s.reservations[id].productID, s.reservations[id].quantity;
      ExpiredEntries(s, ids, now);
      assert Stale(p, now)(s.reservations[id]) == q;
      hide StaleUnits, ExpireAmong, Covered, PositiveQuantities, ClampsAtTurn;
      StaleUnitsPut(s, ids, id, p, now);
      StaleUnitsNotNegative(s, ids, p, now);
      StaleIsReserved(s, ids + {id}, p, now);
      assert false;
    }
  }

  /** In a covered store a clamp fires in one case only: an expired reservation is released whose product has
      fewer units reserved than it held. */
  lemma ClampsExactly(s: Store, accounts: map<string, Account>, op: Op)
    requires Conserved(s, accounts) && Covered(s)
    ensures Clamps(s, op) <==>
      op.ReleaseOp? && IsExpired(s, op.id)
        && s.products[s.reservations[op.id].productID].reserved < s.reservations[op.id].quantity
  {
    match op
    case ReleaseOp(id) =>
      if id in s.reservations {
        UnitsCover(s, id, s.reservations[id].productID, Active);
        assert CoveredAt(s, s.reservations[id].productID);
        hide Units;
      }
    case ExpireOp(at) =>
      forall ids, id
        ensures !ClampsAtTurn(s, ids, id, at)
      {
        SweepNeverClamps(s, ids, id, at);
      }
    case _ =>
  }

  // ---- What callers should do ----

  /** Add products with their active reservations covered, and never release what has expired. */
  ghost predicate Careful(s: Store, op: Op) {
    !AddUncovers(s, op) && !(op.ReleaseOp? && IsExpired(s, op.id))
  }

  ghost predicate CarefulRun(ops: seq<Op>) {
    forall n | 0 <= n < |ops| :: Careful(Run(ops[..n]), ops[n])
  }

  lemma CarefulIsNeverUncovered(ops: seq<Op>)
    requires CarefulRun(ops)
    ensures NeverUncovered(ops)
  {
    hide Run, AddUncovers;
    assert forall m | 0 <= m < |ops| :: Careful(Run(ops[..m]), ops[m]);
  }

  /** In a careful run, at every point nothing can be oversold, active reservations are in stock and marked
      reserved, and no operation is ever clamped. */
  lemma CarefulNeverOversells(ops: seq<Op>, n: nat)
    requires LegalRun(ops) && CarefulRun(ops) && n <= |ops|
    ensures var s := Run(ops[..n]);
            && Safe(s)
            && Covered(s)
            && (forall p | p in s.products ::
                 s.products[p].stock >= 0 && s.products[p].available == s.products[p].stock - s.products[p].reserved)
            && (n < |ops| ==> !Clamps(s, ops[n]))
  {
    var s, accounts := Run(ops[..n]), Accounts(ops[..n]);
    assert forall m | 0 <= m <= n :: ops[..n][..m] == ops[..m];
    CarefulIsNeverUncovered(ops);
    SafeExactlyWhenNeverUncovered(ops);
    RunConserves(ops[..n]);
    SafeExactlyWhenCovered(s, accounts);
    CoveredStock(s);
    assert n < |ops| ==> Careful(s, ops[n]);
    assert forall p | p in s.products :: ConservedAt(s, accounts[p], p);
    hide Run, Clamps, Covered, Safe, Units;
    if n < |ops| {
      ClampsExactly(s, accounts, ops[n]);
    }
  }

  /** If besides every product is added with the right count, the marks are exact, and never more than the stock. */
  lemma CarefulAndCountedIsSound(ops: seq<Op>, n: nat)
    requires LegalRun(ops) && CarefulRun(ops) && n <= |ops|
    requires forall m | 0 <= m < |ops| :: !AddsMiscounted(Run(ops[..m]), ops[m])
    ensures var s := Run(ops[..n]);
            && Sound(s)
            && forall p | p in s.products ::
                 0 <= s.products[p].reserved <= s.products[p].stock && 0 <= s.products[p].available
  {
    var s, accounts := Run(ops[..n]), Accounts(ops[..n]);
    assert forall m | 0 <= m <= n :: ops[..n][..m] == ops[..m];
    assert NeverUnsettled(ops) by {
      hide Run, AddsMiscounted;
      assert forall m | 0 <= m < |ops| :: Careful(Run(ops[..m]), ops[m]);
    }
    SoundExactlyWhenNeverUnsettled(ops);
    RunConserves(ops[..n]);
    hide Run, Sound;
    forall p | p in s.products
      ensures 0 <= s.products[p].reserved <= s.products[p].stock && 0 <= s.products[p].available
    {
      SoundNeverOversells(s, accounts, p);
    }
  }
}

/** What becomes of a reservation, and how requests about it are answered, told by the operations of a run
    (services/inventory-service/cmd/main.go, lines 81-187 and 246-264). */
module InventoryFates {
  import opened Inventory
  import opened InventoryRuns
  import opened Sums

  /** Operation n made the reservation. */
  ghost predicate Made(ops: seq<Op>, n: nat, id: string) {
    && n < |ops| && ops[n].ReserveOp? && ops[n].id == id
    && var op := ops[n];
       Reserve(Run(ops[..n]), id, op.orderID, op.productID, op.quantity, op.at).1 == Done
  }

  /** This operation would end a reservation made at the given time: more than fifteen minutes later a sweep does. */
  predicate WouldEnd(op: Op, id: string, made: real) {
    op == ConfirmOp(id) || op == ReleaseOp(id) || (op.ExpireOp? && op.at - made > 900.0)
  }

  ghost predicate Untouched(ops: seq<Op>, n: nat, k: nat, id: string, made: real) {
    forall j | n < j < k && j < |ops| :: !WouldEnd(ops[j], id, made)
  }

  /** Operation k was the first that would end the reservation made by operation n. */
  ghost predicate EndedAt(ops: seq<Op>, n: nat, k: nat, id: string, made: real) {
    n < k < |ops| && WouldEnd(ops[k], id, made) && Untouched(ops, n, k, id, made)
  }

  ghost predicate ReleasedAfter(ops: seq<Op>, k: nat, id: string) {
    exists j | k < j < |ops| :: ops[j] == ReleaseOp(id)
  }

  /** What the operations since n make of the reservation: the first that would end it decides, but a release also
      takes over one that has expired. */
  ghost predicate Fate(ops: seq<Op>, n: nat, id: string, made: real, status: Status) {
    match status
    case Active => Untouched(ops, n, |ops|, id, made)
    case Confirmed => exists k: nat :: EndedAt(ops, n, k, id, made) && ops[k].ConfirmOp?
    case Expired => exists k: nat :: EndedAt(ops, n, k, id, made) && ops[k].ExpireOp? && !ReleasedAfter(ops, k, id)
    case Released =>
      exists k: nat :: EndedAt(ops, n, k, id, made)
        && (ops[k].ReleaseOp? || (ops[k].ExpireOp? && ReleasedAfter(ops, k, id)))
  }

  /** The reservation that an operation asks for. */
  ghost predicate AsAsked(r: Reservation, op: Op)
    requires op.ReserveOp?
  {
    && r.orderID == op.orderID && r.productID == op.productID && r.quantity == op.quantity
    && r.expiresAt == op.at + 900.0
  }

  lemma StepStatus(s: Store, op: Op, id: string)
    requires id in s.reservations && s.reservations[id].productID in s.products && Legal(s, op)
    ensures var t, r := Step(s, op), s.reservations[id];
            && id in t.reservations
            && t.reservations[id].(status := r.status) == r
            && t.reservations[id].status ==
                 if r.status == Active then
                   if op == ConfirmOp(id) then Confirmed
                   else if op == ReleaseOp(id) then Released
                   else if op.ExpireOp? && op.at > r.expiresAt then Expired
                   else Active
                 else if r.status == Expired && op == ReleaseOp(id) then Released
                 else r.status
  {
    if op.ExpireOp? {
      ExpiredEntries(s, s.reservations.Keys, op.at);
      hide StaleUnits, Relieved, ExpireAmong;
    }
  }

  lemma StillEnded(before: seq<Op>, ops: seq<Op>, n: nat, k: nat, id: string, made: real, op: Op)
    requires ops == before + [op] && EndedAt(before, n, k, id, made)
    ensures EndedAt(ops, n, k, id, made) && ops[k] == before[k]
    ensures ReleasedAfter(ops, k, id) <==> ReleasedAfter(before, k, id) || op == ReleaseOp(id)
  {
    assert ops[|before|] == op && forall j | 0 <= j < |before| :: ops[j] == before[j];
  }

  lemma FateNext(before: seq<Op>, ops: seq<Op>, n: nat, id: string, made: real, status: Status, op: Op)
    requires ops == before + [op] && n < |before| && Fate(before, n, id, made, status)
    ensures Fate(ops, n, id, made,
              if status == Active then
                if op == ConfirmOp(id) then Confirmed
                else if op == ReleaseOp(id) then Released
                else if op.ExpireOp? && op.at - made > 900.0 then Expired
                else Active
              else if status == Expired && op == ReleaseOp(id) then Released
              else status)
  {
    match status
    case Active =>
      if WouldEnd(op, id, made) {
        assert EndedAt(ops, n, |before|, id, made);
      }
    case Confirmed =>
      var k: nat :| EndedAt(before, n, k, id, made) && before[k].ConfirmOp?;
      StillEnded(before, ops, n, k, id, made, op);
    case Expired =>
      var k: nat :| EndedAt(before, n, k, id, made) && before[k].ExpireOp? && !ReleasedAfter(before, k, id);
      StillEnded(before, ops, n, k, id, made, op);
    case Released =>
      var k: nat :| EndedAt(before, n, k, id, made)
        && (before[k].ReleaseOp? || (before[k].ExpireOp? && ReleasedAfter(before, k, id)));
      StillEnded(before, ops, n, k, id, made, op);
  }

  lemma EndedOnce(ops: seq<Op>, n: nat, j: nat, k: nat, id: string, made: real)
    requires EndedAt(ops, n, j, id, made) && EndedAt(ops, n, k, id, made)
    ensures j == k
  {
  }

  /** The operations decide on one status only. */
  lemma OneFate(ops: seq<Op>, n: nat, id: string, made: real, a: Status, b: Status)
    requires Fate(ops, n, id, made, a) && Fate(ops, n, id, made, b)
    ensures a == b
  {
    if a != Active && b != Active {
      var j: nat :| EndedAt(ops, n, j, id, made);
      forall k: nat | EndedAt(ops, n, k, id, made)
        ensures k == j
      {
        EndedOnce(ops, n, j, k, id, made);
      }
    }
  }

  lemma MadeNow(ops: seq<Op>, id: string)
    requires ops != [] && Made(ops, |ops| - 1, id)
    ensures var last := ops[|ops| - 1];
            && id in Run(ops).reservations
            && AsAsked(Run(ops).reservations[id], last)
            && Fate(ops, |ops| - 1, id, last.at, Run(ops).reservations[id].status)
  {
  }

  lemma MadeBefore(ops: seq<Op>, n: nat, id: string)
    requires LegalRun(ops) && Made(ops, n, id) && n < |ops| - 1
    ensures var before, last := ops[..|ops| - 1], ops[|ops| - 1];
            LegalRun(before) && Made(before, n, id) && before[n] == ops[n] && Legal(Run(before), last)
  {
    hide Legal, Run;
    var before := ops[..|ops| - 1];
    assert forall m | 0 <= m <= |before| :: before[..m] == ops[..m];
  }

  ghost predicate Told(s: Store, ops: seq<Op>, n: nat, id: string)
    requires n < |ops| && ops[n].ReserveOp?
  {
    && id in s.reservations
    && AsAsked(s.reservations[id], ops[n])
    && Fate(ops, n, id, ops[n].at, s.reservations[id].status)
  }

  lemma ToldNext(s: Store, before: seq<Op>, ops: seq<Op>, n: nat, id: string, op: Op)
    requires ops == before + [op] && n < |before| && before[n].ReserveOp? && Told(s, before, n, id)
    requires s.reservations[id].productID in s.products && Legal(s, op)
    ensures Told(Step(s, op), ops, n, id)
  {
    hide Fate, Step, Legal;
    StepStatus(s, op, id);
    FateNext(before, ops, n, id, before[n].at, s.reservations[id].status, op);
    assert ops[n] == before[n];
  }

  lemma ProductKnown(ops: seq<Op>, id: string)
    requires LegalRun(ops) && id in Run(ops).reservations
    ensures Run(ops).reservations[id].productID in Run(ops).products
  {
    RunConserves(ops);
  }

  lemma {:induction false} RunTold(ops: seq<Op>, n: nat, id: string)
    requires LegalRun(ops) && Made(ops, n, id)
    ensures Told(Run(ops), ops, n, id)
  {
    if n == |ops| - 1 {
      MadeNow(ops, id);
    } else {
      var before, last := ops[..|ops| - 1], ops[|ops| - 1];
      assert Run(ops) == Step(Run(before), last) && ops == before + [last];
      MadeBefore(ops, n, id);
      hide Made, LegalRun, Fate, Step, Legal, Run, AsAsked;
      RunTold(before, n, id);
      ProductKnown(before, id);
      ToldNext(Run(before), before, ops, n, id, last);
    }
  }

  /** In every run a reservation that some operation made is there, says what that operation asked for, and has the
      status that the operations since then decide. */
  lemma FateDecides(ops: seq<Op>, n: nat, id: string)
    requires LegalRun(ops) && Made(ops, n, id)
    ensures id in Run(ops).reservations
    ensures var r := Run(ops).reservations[id];
            AsAsked(r, ops[n]) && forall status :: Fate(ops, n, id, ops[n].at, status) <==> r.status == status
  {
    RunTold(ops, n, id);
    var r := Run(ops).reservations[id];
    hide Fate, Run, Made, LegalRun;
    forall status | Fate(ops, n, id, ops[n].at, status)
      ensures r.status == status
    {
      OneFate(ops, n, id, ops[n].at, status, r.status);
    }
  }

  /** Only this product's record may differ. */
  ghost predicate OthersSame(s: Store, t: Store, p: string) {
    t.products.Keys == s.products.Keys && forall x | x in s.products && x != p :: t.products[x] == s.products[x]
  }

  lemma {:induction false} KnownWasMade(ops: seq<Op>, id: string) returns (n: nat)
    requires LegalRun(ops) && id in Run(ops).reservations
    ensures Made(ops, n, id)
  {
    var before, last := ops[..|ops| - 1], ops[|ops| - 1];
    assert forall m | 0 <= m <= |before| :: before[..m] == ops[..m];
    if id in Run(before).reservations {
      n := KnownWasMade(before, id);
    } else {
      n := |before|;
      if last.ExpireOp? {
        ExpiredEntries(Run(before), Run(before).reservations.Keys, last.at);
      }
      assert ops[..n] == before;
    }
  }

  // ---- How requests are answered ----

  ghost predicate WasMade(ops: seq<Op>, id: string) {
    exists n: nat :: Made(ops, n, id)
  }

  /** The reservation was made, and nothing has ended it. */
  ghost predicate Holds(ops: seq<Op>, id: string) {
    exists n: nat :: Made(ops, n, id) && Untouched(ops, n, |ops|, id, ops[n].at)
  }

  lemma MadeOnce(ops: seq<Op>, m: nat, n: nat, id: string)
    requires LegalRun(ops) && Made(ops, m, id) && Made(ops, n, id)
    ensures m == n
  {
    if m < n {
      assert forall i | 0 <= i <= n :: ops[..n][..i] == ops[..i];
      assert Made(ops[..n], m, id);
      assert Legal(Run(ops[..n]), ops[n]);
      FateDecides(ops[..n], m, id);
    } else if n < m {
      MadeOnce(ops, n, m, id);
    }
  }

  lemma KnownStatus(ops: seq<Op>, id: string)
    requires LegalRun(ops)
    ensures id in Run(ops).reservations <==> WasMade(ops, id)
    ensures Holds(ops, id) <==> id in Run(ops).reservations && Run(ops).reservations[id].status == Active
  {
    if id in Run(ops).reservations {
      var n := KnownWasMade(ops, id);
      FateDecides(ops, n, id);
      assert Fate(ops, n, id, ops[n].at, Active) <==> Untouched(ops, n, |ops|, id, ops[n].at);
      if Holds(ops, id) {
        var m: nat :| Made(ops, m, id) && Untouched(ops, m, |ops|, id, ops[m].at);
        MadeOnce(ops, m, n, id);
      }
    }
    if n: nat :| Made(ops, n, id) {
      FateDecides(ops, n, id);
    }
  }

  /** After every run a confirmation is done exactly if the reservation was made and nothing has ended it, and then
      it raises the confirmed units of its product by what it held. One that was never made is not found; one that
      was confirmed, released or expired is not active; and a refused confirmation changes nothing. */
  lemma ConfirmationsAnswered(ops: seq<Op>, id: string)
    requires LegalRun(ops)
    ensures var s := Run(ops);
            var (t, result) := Confirm(s, id);
            && (result == Done <==> Holds(ops, id))
            && (result == ReservationNotFound <==> !WasMade(ops, id))
            && (result == NotActive <==> WasMade(ops, id) && !Holds(ops, id))
            && (result != Done ==> t == s)
            && (result == Done <==>
                 id in s.reservations
                 && var r := s.reservations[id];
                    Units(t, r.productID, Confirmed) == Units(s, r.productID, Confirmed) + r.quantity)
  {
    var s := Run(ops);
    var t := Confirm(s, id).0;
    KnownStatus(ops, id);
    RunConserves(ops);
    hide Run, Holds, WasMade, LegalRun;
    if id in s.reservations {
      QuantityPositive(s, id);
      if Confirm(s, id).1 == Done {
        UnitsPut(s, t, id, t.reservations[id], s.reservations[id].productID, Confirmed);
      }
      hide Units;
    }
  }

  /** A release is answered as done exactly if the reservation was made. */
  lemma ReleasesAnswered(ops: seq<Op>, id: string)
    requires LegalRun(ops)
    ensures Release(Run(ops), id).1 == if WasMade(ops, id) then Done else ReservationNotFound
  {
    KnownStatus(ops, id);
  }

  /** How often a reservation's confirmation was answered with Done. */
  ghost function Confirmations(ops: seq<Op>, id: string): nat {
    if ops == [] then 0
    else
      var before, last := ops[..|ops| - 1], ops[|ops| - 1];
      Confirmations(before, id) + (if last == ConfirmOp(id) && Confirm(Run(before), id).1 == Done then 1 else 0)
  }

  ghost predicate IsConfirmed(s: Store, id: string) {
    id in s.reservations && s.reservations[id].status == Confirmed
  }

  lemma StepConfirms(s: Store, accounts: map<string, Account>, op: Op, id: string)
    requires Conserved(s, accounts) && Legal(s, op)
    ensures IsConfirmed(Step(s, op), id) <==> IsConfirmed(s, id) || (op == ConfirmOp(id) && Confirm(s, id).1 == Done)
    ensures IsConfirmed(s, id) ==> !(op == ConfirmOp(id) && Confirm(s, id).1 == Done)
  {
    if id in s.reservations {
      StepStatus(s, op, id);
    } else if op.ExpireOp? {
      ExpiredEntries(s, s.reservations.Keys, op.at);
    }
    hide ExpireAmong;
  }

  /** Nobody is told twice that the same units are sold: one confirmation of a reservation that ends confirmed was
      answered with Done, and none of any other. */
  lemma {:induction false} ConfirmedOnce(ops: seq<Op>, id: string)
    requires LegalRun(ops)
    ensures Confirmations(ops, id) == if IsConfirmed(Run(ops), id) then 1 else 0
  {
    if ops == [] {
    } else {
      var before, last := ops[..|ops| - 1], ops[|ops| - 1];
      assert forall m | 0 <= m <= |before| :: before[..m] == ops[..m];
      ConfirmedOnce(before, id);
      RunConserves(before);
      assert Legal(Run(before), last);
      StepConfirms(Run(before), Accounts(before), last, id);
      hide IsConfirmed, Step, Confirm, LegalRun, Conserved, Legal;
    }
  }

  ghost predicate WasAdded(ops: seq<Op>, p: string) {
    exists n | 0 <= n < |ops| :: ops[n].AddOp? && ops[n].id == p
  }

  lemma {:induction false} KnownWasAdded(ops: seq<Op>, p: string)
    ensures p in Run(ops).products <==> WasAdded(ops, p)
  {
    if ops == [] {
    } else {
      var before, last := ops[..|ops| - 1], ops[|ops| - 1];
      KnownWasAdded(before, p);
      assert ops == before + [last];
      assert WasAdded(ops, p) <==> WasAdded(before, p) || (last.AddOp? && last.id == p) by {
        assert ops[|before|] == last;
        assert forall n | 0 <= n < |before| :: ops[n] == before[n];
      }
      if last.ExpireOp? {
        ExpiredEntries(Run(before), Run(before).reservations.Keys, last.at);
      }
    }
  }

  /** After every run: what a reservation asks for decides its answer before the store is looked at; then whether its
      product was ever added; then whether stock - reserved covers it. What is refused changes nothing. */
  lemma ReservationsAnswered(ops: seq<Op>, id: string, o: string, p: string, q: int, at: real)
    requires LegalRun(ops)
    ensures var s := Run(ops);
            var (t, result) := Reserve(s, id, o, p, q, at);
            var proper := o != "" && p != "" && q > 0;
            && (result == OrderIdRequired <==> o == "")
            && (result == ProductIdRequired <==> o != "" && p == "")
            && (result == QuantityNotPositive <==> o != "" && p != "" && q <= 0)
            && (result == ProductNotFound <==> proper && !WasAdded(ops, p))
            && (result == InsufficientStock <==>
                 proper && p in s.products && s.products[p].stock - s.products[p].reserved < q)
            && (result == Done <==> proper && p in s.products && q <= s.products[p].stock - s.products[p].reserved)
            && (result != Done ==> t == s)
  {
    KnownWasAdded(ops, p);
    RunConserves(ops);
    var s := Run(ops);
    assert p in s.products ==> ConservedAt(s, Accounts(ops)[p], p);
    hide Run, WasAdded;
  }

  /** A product that has just been added offers exactly its stock less what it came in reserved. */
  lemma AddedOffers(ops: seq<Op>, p: string, stock: int, reserved: int, id: string, o: string, q: int, at: real)
    requires o != "" && p != "" && q > 0
    ensures Reserve(Run(ops + [AddOp(p, stock, reserved)]), id, o, p, q, at).1 == Done <==> q <= stock - reserved
  {
    assert (ops + [AddOp(p, stock, reserved)])[..|ops|] == ops;
  }

  // ---- What they do to products ----

  /** A reservation marks its units; nothing else about any product changes. */
  lemma ReserveMarks(s: Store, id: string, o: string, p: string, q: int, at: real)
    requires Reserve(s, id, o, p, q, at).1 == Done
    ensures var t := Reserve(s, id, o, p, q, at).0;
            && p in s.products && OthersSame(s, t, p)
            && t.products[p].stock == s.products[p].stock
            && t.products[p].reserved == s.products[p].reserved + q
  {
  }

  /** A confirmation takes the units out of the stock and out of the mark, in any store. */
  lemma ConfirmTakes(s: Store, id: string)
    requires Confirm(s, id).1 == Done
    ensures var t := Confirm(s, id).0;
            && id in s.reservations && s.reservations[id].productID in s.products
            && var r := s.reservations[id];
               && OthersSame(s, t, r.productID)
               && t.products[r.productID].stock == s.products[r.productID].stock - r.quantity
               && t.products[r.productID].reserved == s.products[r.productID].reserved - r.quantity
  {
  }

  /** A release gives back what an active or expired reservation held, but no more than is reserved; stock is not
      touched. */
  lemma ReleaseGivesBack(s: Store, id: string)
    requires id in s.reservations && s.reservations[id].productID in s.products
    ensures var t, r := Release(s, id).0, s.reservations[id];
            && OthersSame(s, t, r.productID)
            && var before, after := s.products[r.productID], t.products[r.productID];
               && after.stock == before.stock
               && (r.status in {Confirmed, Released} ==> after == before)
               && (r.status in {Active, Expired} && r.quantity <= before.reserved ==>
                    after.reserved == before.reserved - r.quantity)
               && (r.status in {Active, Expired} && before.reserved < r.quantity ==> after.reserved == 0)
  {
  }
}

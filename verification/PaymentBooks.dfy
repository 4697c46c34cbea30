/** What the gateway's takings come to when charges and refunds overlap, and two runs in which the customer, then the
    service, loses money (services/payment-service/cmd/main.go, lines 210-289). */
module PaymentBooks {
  import opened Counting
  import opened RealSums
  import opened Payments
  import opened PaymentCalls
  import opened PaymentOverlaps
  import opened PaymentMoney

  predicate IsRepeat(before: seq<GatewayCall>, c: GatewayCall) {
    c.RefundCall? && c.ok && Tally(before, RefundsOf(c.paymentID)) > 0
  }

  /** The amounts of the refunds paid out for payments that had been paid back before. */
  function Repeated(calls: seq<GatewayCall>): real {
    if calls == [] then 0.0
    else
      var before, last := calls[..|calls| - 1], calls[|calls| - 1];
      Repeated(before) + (if IsRepeat(before, last) then last.amount else 0.0)
  }

  lemma RepeatedNext(calls: seq<GatewayCall>, c: GatewayCall)
    ensures Repeated(calls + [c]) == Repeated(calls) + (if IsRepeat(calls, c) then c.amount else 0.0)
  {
    assert (calls + [c])[..|calls|] == calls;
  }

  predicate AmountsPositive(calls: seq<GatewayCall>) {
    forall c | c in calls :: c.amount > 0.0
  }

  ghost predicate RefundedOnce(calls: seq<GatewayCall>, p: string) {
    Tally(calls, RefundsOf(p)) <= 1
  }

  /** Nothing was repeated exactly if no payment was paid back twice. */
  lemma {:induction false} RepeatedExactly(calls: seq<GatewayCall>)
    requires AmountsPositive(calls)
    ensures Repeated(calls) >= 0.0
    ensures Repeated(calls) == 0.0 <==> forall p :: RefundedOnce(calls, p)
  {
    if calls == [] {
    } else {
      var before, last := calls[..|calls| - 1], calls[|calls| - 1];
      assert AmountsPositive(before) && last.amount > 0.0;
      RepeatedExactly(before);
      if IsRepeat(before, last) {
        assert !RefundedOnce(calls, last.paymentID);
      } else if p :| !RefundedOnce(before, p) {
        assert !RefundedOnce(calls, p);
      } else {
        forall p
          ensures RefundedOnce(calls, p)
        {
          assert RefundedOnce(before, p);
        }
      }
    }
  }

  // ---- The books while calls are under way ----

  /** What the gateway's calls leave of one payment, if it was paid back at most once. */
  ghost function Holding(s: Service, id: string): real
    requires id in s.payments
  {
    if Tally(s.calls, Taken(id)) > 0 && Tally(s.calls, RefundsOf(id)) == 0 then s.payments[id].amount else 0.0
  }

  ghost function Books(s: Service): map<string, real> {
    map id | id in s.payments :: Holding(s, id)
  }

  ghost function Itself(): real -> real {
    (x: real) => x
  }

  ghost predicate NetShown(s: Service) {
    Net(s.calls) + Repeated(s.calls) == Sum(Books(s), Itself()) && AmountsPositive(s.calls)
  }

  /** A call of the gateway changes the books of its own payment only. */
  lemma BooksCalled(s: Service, c: GatewayCall)
    requires c.paymentID in s.payments
    ensures var t := Called(s, c); Books(t) == Books(s)[c.paymentID := Holding(t, c.paymentID)]
  {
    var t := Called(s, c);
    forall x | x in s.payments && x != c.paymentID
      ensures Holding(t, x) == Holding(s, x)
    {
      TallyNext(s.calls, c, Taken(x));
      TallyNext(s.calls, c, RefundsOf(x));
    }
  }

  lemma CallShows(s: Service, c: GatewayCall)
    requires NetShown(s) && c.paymentID in s.payments && c.amount > 0.0
    requires var change := Holding(Called(s, c), c.paymentID) - Holding(s, c.paymentID);
             change == Net(s.calls + [c]) - Net(s.calls) + (if IsRepeat(s.calls, c) then c.amount else 0.0)
    ensures NetShown(Called(s, c))
  {
    RepeatedNext(s.calls, c);
    BooksCalled(s, c);
    SumPut(Books(s), Itself(), c.paymentID, Holding(Called(s, c), c.paymentID));
    hide Net, Sum, Repeated, Holding, IsRepeat;
  }

  /** A call of the gateway for a payment it has not taken money for. */
  lemma ChargeShows(s: Service, id: string, key: string, up: bool)
    requires NetShown(s) && id in s.payments && s.payments[id].amount > 0.0
    requires Tally(s.calls, Taken(id)) == 0 && Tally(s.calls, RefundsOf(id)) == 0
    ensures NetShown(Called(s, ChargeCall(id, key, s.payments[id].amount, up)))
  {
    hide NetShown, Net, Tally, Repeated;
    var c := ChargeCall(id, key, s.payments[id].amount, up);
    NetNext(s.calls, c);
    assert Holding(Called(s, c), id) == if up then c.amount else 0.0 by {
      TallyNext(s.calls, c, Taken(id));
      TallyNext(s.calls, c, RefundsOf(id));
    }
    assert Holding(s, id) == 0.0 && !IsRepeat(s.calls, c);
    hide Holding, IsRepeat;
    CallShows(s, c);
  }

  /** A refund of a payment the gateway took money for. */
  lemma RefundShows(s: Service, id: string, up: bool)
    requires NetShown(s) && id in s.payments && s.payments[id].amount > 0.0
    requires Tally(s.calls, Taken(id)) > 0
    ensures NetShown(Called(s, RefundCall(id, s.payments[id].amount, up)))
  {
    hide NetShown, Net, Tally, Repeated;
    var c := RefundCall(id, s.payments[id].amount, up);
    var repeat := Tally(s.calls, RefundsOf(id)) > 0;
    NetNext(s.calls, c);
    assert Holding(Called(s, c), id) == if repeat || up then 0.0 else c.amount by {
      TallyNext(s.calls, c, Taken(id));
      TallyNext(s.calls, c, RefundsOf(id));
    }
    assert Holding(s, id) == if repeat then 0.0 else c.amount;
    assert IsRepeat(s.calls, c) <==> up && repeat;
    hide Holding, IsRepeat;
    CallShows(s, c);
  }

  /** Writing a payment that keeps its amount, or a new one that the gateway has not heard of. */
  lemma WriteShows(s: Service, id: string, p: Payment)
    requires NetShown(s)
    requires if id in s.payments then p.amount == s.payments[id].amount else Tally(s.calls, Taken(id)) == 0
    ensures NetShown(Updated(s, id, p))
  {
    var t := Updated(s, id, p);
    if id in s.payments {
      assert Books(t) == Books(s);
    } else {
      assert Books(t) == Books(s)[id := 0.0];
      SumPut(Books(s), Itself(), id, 0.0);
    }
  }

  lemma SameMoney(s: Service, t: Service)
    requires NetShown(s) && t.payments == s.payments && t.calls == s.calls
    ensures NetShown(t)
  {
    assert Books(t) == Books(s);
  }

  lemma RefundersWereCharged(tasks: Tasks, s: System, misses: set<string>, t: string, id: string)
    requires Inv(tasks, s, misses) && t in Refunders(tasks, s, id)
    ensures WasCharged(s.service, id)
  {
    assert Fits(s.service, misses, tasks[t], t, s.pcs[t]);
  }

  lemma NotRefundedYet(tasks: Tasks, s: System, misses: set<string>, id: string)
    requires Inv(tasks, s, misses) && PaymentTallied(tasks, s, id) && !WasCharged(s.service, id)
    ensures Tally(s.service.calls, RefundsOf(id)) == 0
  {
    if t :| t in Refunders(tasks, s, id) {
      RefundersWereCharged(tasks, s, misses, t, id);
    }
    assert |Refunders(tasks, s, id)| == 0;
  }

  lemma ChargeKeepsNet(s: Service, misses: set<string>, r: Request, id: string, pc: Pc, up: bool)
    requires ChargeFits(s, misses, r, id, pc) && NetShown(s)
    requires !TookMoney(pc) ==> Tally(s.calls, Taken(id)) == 0
    requires !WasCharged(s, id) ==> Tally(s.calls, RefundsOf(id)) == 0
    ensures NetShown(ChargeAct(s, r, id, pc, up).0)
  {
    hide NetShown;
    if pc == Charging {
      ChargeShows(s, id, r.key, up);
    } else if pc == Creating {
      WriteShows(s, id, Opened(r));
    } else if pc.Settling? {
      WriteShows(s, id, WithAnswer(s.payments[id], pc.ok));
    } else {
      SameMoney(s, ChargeAct(s, r, id, pc, up).0);
    }
  }

  lemma RefundKeepsNet(s: Service, p: string, pc: Pc, up: bool)
    requires RefundFits(s, p, pc) && NetShown(s)
    requires WasCharged(s, p) ==> Tally(s.calls, Taken(p)) > 0 && s.payments[p].amount > 0.0
    ensures NetShown(RefundAct(s, p, pc, up).0)
  {
    hide NetShown;
    if p in s.payments && pc == Refunding {
      RefundShows(s, p, up);
    } else if p in s.payments && pc == Marking {
      WriteShows(s, p, s.payments[p].(status := Refunded));
    }
  }

  lemma ChargedWasTaken(tasks: Tasks, s: System, misses: set<string>, p: string)
    requires Inv(tasks, s, misses) && PaymentTallied(tasks, s, p) && WasCharged(s.service, p)
    ensures Tally(s.service.calls, Taken(p)) == 1 && s.service.payments[p].amount > 0.0
  {
    assert Fits(s.service, misses, tasks[p], p, s.pcs[p]);
  }

  lemma TakeKeepsNet(tasks: Tasks, s: System, misses: set<string>, turn: Turn)
    requires Inv(tasks, s, misses) && Tallied(tasks, s) && NetShown(s.service)
    ensures NetShown(Take(tasks, s, turn).service)
  {
    if turn.id in tasks && turn.id in s.pcs {
      var id, pc := turn.id, s.pcs[turn.id];
      assert Fits(s.service, misses, tasks[id], id, pc);
      match tasks[id]
      case ChargeTask(r) =>
        assert PaymentTallied(tasks, s, id);
        assert !TookMoney(pc) ==> Tally(s.service.calls, Taken(id)) == 0;
        hide NetShown, Inv, Tallied, PaymentTallied, ChargeFits, ChargeAct, TookMoney, WasCharged, Tally;
        if !WasCharged(s.service, id) {
          NotRefundedYet(tasks, s, misses, id);
        }
        ChargeKeepsNet(s.service, misses, r, id, pc, turn.up);
      case RefundTask(p) =>
        assert PaymentTallied(tasks, s, p);
        hide NetShown, Inv, Tallied, PaymentTallied, RefundFits, RefundAct, WasCharged, Tally;
        if WasCharged(s.service, p) {
          ChargedWasTaken(tasks, s, misses, p);
        }
        RefundKeepsNet(s.service, p, pc, turn.up);
    }
  }

  lemma EmptyNetShown()
    ensures NetShown(EMPTY)
  {
    assert Books(EMPTY) == map[];
  }

  lemma {:induction false} RunNetShown(tasks: Tasks, run: seq<Turn>)
    ensures NetShown(Run(tasks, run).service)
  {
    hide NetShown, Inv, Tallied, Take, Misses;
    if run == [] {
      EmptyNetShown();
    } else {
      var before := run[..|run| - 1];
      RunNetShown(tasks, before);
      RunKeepsInv(tasks, before);
      RunTallied(tasks, before);
      TakeKeepsNet(tasks, Run(tasks, before), Misses(tasks, before), run[|run| - 1]);
    }
  }

  // ---- The books when all is answered ----

  ghost predicate AllAnswered(s: System) {
    forall id | id in s.pcs :: s.pcs[id].Answered?
  }

  lemma HoldingIsHeld(tasks: Tasks, s: System, misses: set<string>, id: string)
    requires Inv(tasks, s, misses) && Tallied(tasks, s) && AllAnswered(s) && id in s.service.payments
    ensures Holding(s.service, id) == Held()(s.service.payments[id])
    ensures s.service.payments[id].status == Refunded <==> Tally(s.service.calls, RefundsOf(id)) > 0
  {
    assert PaymentTallied(tasks, s, id);
    assert Fits(s.service, misses, tasks[id], id, s.pcs[id]);
    forall t | t in Refunders(tasks, s, id)
      ensures s.service.payments[id].status == Refunded
    {
      assert Fits(s.service, misses, tasks[t], t, s.pcs[t]);
    }
    if Tally(s.service.calls, RefundsOf(id)) > 0 {
      var t :| t in Refunders(tasks, s, id);
    }
  }

  /** However charges and refunds overlapped, once all are answered the gateway's takings are the amounts of the
      succeeded payments less what was paid back more than once. So they agree with what the service believes it
      holds if and only if no payment was paid back twice, and a payment says it was refunded exactly if it was. */
  lemma TakingsWhenAllAnswered(tasks: Tasks, run: seq<Turn>)
    requires AllAnswered(Run(tasks, run))
    ensures var s := Run(tasks, run).service;
            && Net(s.calls) == Sum(s.payments, Held()) - Repeated(s.calls)
            && (Net(s.calls) == Sum(s.payments, Held()) <==> forall p :: RefundedOnce(s.calls, p))
            && forall id | id in s.payments :: s.payments[id].status == Refunded <==> Tally(s.calls, RefundsOf(id)) > 0
  {
    var s := Run(tasks, run);
    RunKeepsInv(tasks, run);
    RunTallied(tasks, run);
    RunNetShown(tasks, run);
    RepeatedExactly(s.service.calls);
    hide Inv, Tallied, Run, Misses, AllAnswered, Holding, Held, RefundedOnce, Tally, Net, Repeated;
    forall id | id in s.service.payments
      ensures Holding(s.service, id) == Held()(s.service.payments[id])
      ensures s.service.payments[id].status == Refunded <==> Tally(s.service.calls, RefundsOf(id)) > 0
    {
      HoldingIsHeld(tasks, s, Misses(tasks, run), id);
    }
    SumSame(Books(s.service), Itself(), s.service.payments, Held());
  }

  // ---- Calls that do not overlap ----

  predicate Busy(pc: Pc) {
    pc != Start && !pc.Answered?
  }

  ghost predicate StartsAlone(s: System, turn: Turn) {
    turn.id in s.pcs && s.pcs[turn.id] == Start ==> forall id | id in s.pcs :: !Busy(s.pcs[id])
  }

  /** No call starts while another is under way. */
  ghost predicate OneAtATime(tasks: Tasks, run: seq<Turn>) {
    forall n | 0 <= n < |run| :: StartsAlone(Run(tasks, run[..n]), run[n])
  }

  ghost predicate AtMostOneBusy(s: System) {
    forall a, b | a in s.pcs && b in s.pcs && Busy(s.pcs[a]) && Busy(s.pcs[b]) :: a == b
  }

  lemma AnsweredStays(s: Service, t: Task, id: string, pc: Pc, up: bool)
    ensures pc.Answered? ==> Act(s, t, id, pc, up).1 == pc
  {
  }

  lemma TakeOneBusy(tasks: Tasks, s: System, turn: Turn)
    requires AtMostOneBusy(s) && StartsAlone(s, turn)
    ensures AtMostOneBusy(Take(tasks, s, turn))
  {
    if turn.id in tasks && turn.id in s.pcs {
      AnsweredStays(s.service, tasks[turn.id], turn.id, s.pcs[turn.id], turn.up);
    }
    hide Act;
  }

  lemma LoneLookupFinds(tasks: Tasks, s: System, turn: Turn)
    requires Inv(tasks, s, {}) && AtMostOneBusy(s)
    ensures MissedBy(tasks, s, turn) == {}
  {
    if turn.id in tasks && s.pcs[turn.id].Looking? {
      var owner := s.pcs[turn.id].owner;
      assert Fits(s.service, {}, tasks[turn.id], turn.id, s.pcs[turn.id]);
      if tasks[turn.id].ChargeTask? {
        assert Fits(s.service, {}, tasks[owner], owner, s.pcs[owner]);
        assert !Busy(s.pcs[owner]);
      }
    }
  }

  lemma {:induction false} SerialNeverMisses(tasks: Tasks, run: seq<Turn>)
    requires OneAtATime(tasks, run)
    ensures AtMostOneBusy(Run(tasks, run)) && Misses(tasks, run) == {}
  {
    if run == [] {
    } else {
      var before, last := run[..|run| - 1], run[|run| - 1];
      assert forall n | 0 <= n <= |before| :: before[..n] == run[..n];
      SerialNeverMisses(tasks, before);
      RunKeepsInv(tasks, before);
      assert StartsAlone(Run(tasks, before), last);
      hide Inv, Take, MissedBy, AtMostOneBusy, StartsAlone;
      TakeOneBusy(tasks, Run(tasks, before), last);
      LoneLookupFinds(tasks, Run(tasks, before), last);
    }
  }

  lemma OneAtATimePrefix(tasks: Tasks, run: seq<Turn>, n: nat)
    requires OneAtATime(tasks, run) && n <= |run|
    ensures OneAtATime(tasks, run[..n])
  {
    hide StartsAlone, Run;
    assert forall m | 0 <= m <= n :: run[..n][..m] == run[..m];
  }

  lemma OneBusyNoOverlap(s: System, t: string, u: string)
    requires AtMostOneBusy(s) && t != u
    ensures !Overlap(s, t, u)
  {
  }

  /** Calls that do not overlap charge a key at most once and pay a payment back at most once. */
  lemma SerialKeepsPromises(tasks: Tasks, run: seq<Turn>, key: string, p: string)
    requires OneAtATime(tasks, run)
    ensures key != "" ==> Tally(Run(tasks, run).service.calls, ForKey(key)) <= 1
    ensures RefundedOnce(Run(tasks, run).service.calls, p)
  {
    hide Run, Tally, OneAtATime, AtMostOneBusy, Overlap;
    SerialNeverMisses(tasks, run);
    if key != "" {
      KeyChargedAtMost(tasks, run, key);
      assert MissesOf(tasks, run, key) == {};
    }
    if !RefundedOnce(Run(tasks, run).service.calls, p) {
      RefundedTwiceOverlaps(tasks, run, p);
      var t, u, n: nat :| OverlapAt(tasks, run, p, t, u, n);
      OneAtATimePrefix(tasks, run, n);
      SerialNeverMisses(tasks, run[..n]);
      OneBusyNoOverlap(Run(tasks, run[..n]), t, u);
    }
  }

  // ---- Two runs that lose money ----

  lemma Next(tasks: Tasks, run: seq<Turn>, s: System, turn: Turn)
    requires Run(tasks, run) == s
    ensures Run(tasks, run + [turn]) == Take(tasks, s, turn)
  {
    OneMore(tasks, run, turn);
  }

  /** Two charges for the same request. */
  function TwoCharges(a: string, b: string, r: Request): Tasks {
    map[a := ChargeTask(r), b := ChargeTask(r)]
  }

  /** A charge that is about to store its payment, left alone. */
  lemma FinishesCharge(tasks: Tasks, before: seq<Turn>, id: string, r: Request) returns (run: seq<Turn>)
    requires id in tasks && tasks[id] == ChargeTask(r)
    requires var s := Run(tasks, before); id in s.pcs && s.pcs[id] == Creating
    ensures var s := Run(tasks, before);
            Run(tasks, run) == System(
              Service(s.service.records, s.service.payments[id := Settled(r, true)],
                s.service.calls + [ChargeCall(id, r.key, r.amount, true)]),
              s.pcs[id := Answered(Charged(id))])
  {
    hide Run, Opened, WithAnswer;
    var s, turn := Run(tasks, before), Turn(id, true);
    run := before + [turn];
    Next(tasks, before, s, turn);
    var s1 := Run(tasks, run);
    assert s1 == System(s.service.(payments := s.service.payments[id := Opened(r)]), s.pcs[id := Charging]);
    Next(tasks, run, s1, turn);
    run := run + [turn];
    var s2 := Run(tasks, run);
    assert s2.service == Called(s1.service, ChargeCall(id, r.key, r.amount, true));
    assert s2.pcs == s.pcs[id := Settling(true)];
    Next(tasks, run, s2, turn);
    run := run + [turn];
    assert Run(tasks, run).service.payments == s.service.payments[id := Settled(r, true)];
    assert Run(tasks, run).pcs == s.pcs[id := Answered(Charged(id))];
  }

  /** A retry with the same key that arrives while the first charge is between recording the key and storing its
      payment charges the customer a second time. */
  lemma OverlappingChargesTakeTwice(a: string, b: string, r: Request) returns (run: seq<Turn>)
    requires a != b && Proper(r) && r.key != ""
    ensures var s := Run(TwoCharges(a, b, r), run);
            && AllAnswered(s)
            && s.service.calls == [ChargeCall(a, r.key, r.amount, true), ChargeCall(b, r.key, r.amount, true)]
            && s.service.payments == map[a := Settled(r, true), b := Settled(r, true)]
  {
    var tasks := TwoCharges(a, b, r);
    var first, second := Turn(a, true), Turn(b, true);
    run := [];
    Next(tasks, run, Init(tasks), first);
    run := run + [first];
    hide Run;
    Next(tasks, run, Run(tasks, run), second);
    run := run + [second];
    Next(tasks, run, Run(tasks, run), second);
    run := run + [second];
    assert Run(tasks, run) == System(Service(map[r.key := a], map[], []), map[a := Creating, b := Creating]);
    hide Take, Settled;
    run := FinishesCharge(tasks, run, a, r);
    run := FinishesCharge(tasks, run, b, r);
  }

  /** A charge and two refunds of its payment. */
  function TwoRefunds(c: string, t: string, u: string, r: Request): Tasks {
    map[c := ChargeTask(r), t := RefundTask(c), u := RefundTask(c)]
  }

  lemma UntilCharged(c: string, t: string, u: string, r: Request) returns (run: seq<Turn>)
    requires c != t && c != u && t != u && Proper(r)
    ensures var s := Run(TwoRefunds(c, t, u, r), run);
            && s.pcs == map[c := Answered(Charged(c)), t := Start, u := Start]
            && s.service.calls == [ChargeCall(c, r.key, r.amount, true)]
            && s.service.payments == map[c := Settled(r, true)]
  {
    var tasks := TwoRefunds(c, t, u, r);
    run := [Turn(c, true)];
    Next(tasks, [], Init(tasks), Turn(c, true));
    assert [] + run == run;
    hide Run, Settled;
    run := FinishesCharge(tasks, run, c, r);
  }

  /** Both refunds have the same payment p before them, which a charge has just settled. */
  lemma CheckedTwice(c: string, t: string, u: string, r: Request, p: Payment, before: seq<Turn>)
    returns (run: seq<Turn>)
    requires c != t && c != u && t != u && p.status == Succeeded
    requires var s := Run(TwoRefunds(c, t, u, r), before);
             s.pcs == map[c := Answered(Charged(c)), t := Start, u := Start] && s.service.payments == map[c := p]
    ensures var first, s := Run(TwoRefunds(c, t, u, r), before), Run(TwoRefunds(c, t, u, r), run);
            && s.pcs == map[c := Answered(Charged(c)), t := Marking, u := Marking]
            && s.service == first.service.(calls :=
                 first.service.calls + [RefundCall(c, p.amount, true)] + [RefundCall(c, p.amount, true)])
  {
    hide Run;
    var tasks := TwoRefunds(c, t, u, r);
    run := before;
    Next(tasks, run, Run(tasks, run), Turn(t, true));
    run := run + [Turn(t, true)];
    Next(tasks, run, Run(tasks, run), Turn(u, true));
    run := run + [Turn(u, true)];
    assert Run(tasks, run).pcs == map[c := Answered(Charged(c)), t := Refunding, u := Refunding];
    Next(tasks, run, Run(tasks, run), Turn(t, true));
    run := run + [Turn(t, true)];
    Next(tasks, run, Run(tasks, run), Turn(u, true));
    run := run + [Turn(u, true)];
  }

  lemma MarkedTwice(c: string, t: string, u: string, r: Request, p: Payment, before: seq<Turn>) returns (run: seq<Turn>)
    requires c != t && c != u && t != u
    requires var s := Run(TwoRefunds(c, t, u, r), before);
             s.pcs == map[c := Answered(Charged(c)), t := Marking, u := Marking] && s.service.payments == map[c := p]
    ensures var first, s := Run(TwoRefunds(c, t, u, r), before), Run(TwoRefunds(c, t, u, r), run);
            && s.pcs == map[c := Answered(Charged(c)), t := Answered(RefundDone), u := Answered(RefundDone)]
            && s.service == first.service.(payments := map[c := p.(status := Refunded)])
  {
    hide Run;
    var tasks := TwoRefunds(c, t, u, r);
    run := before;
    Next(tasks, run, Run(tasks, run), Turn(t, true));
    run := run + [Turn(t, true)];
    Next(tasks, run, Run(tasks, run), Turn(u, true));
    run := run + [Turn(u, true)];
  }

  /** Two refunds that both find the payment succeeded pay it back twice. */
  lemma OverlappingRefundsPayTwice(c: string, t: string, u: string, r: Request) returns (run: seq<Turn>)
    requires c != t && c != u && t != u && Proper(r)
    ensures var s := Run(TwoRefunds(c, t, u, r), run);
            && AllAnswered(s)
            && s.service.calls
                 == [ChargeCall(c, r.key, r.amount, true), RefundCall(c, r.amount, true), RefundCall(c, r.amount, true)]
            && s.service.payments == map[c := Settled(r, true).(status := Refunded)]
  {
    run := UntilCharged(c, t, u, r);
    hide Run;
    run := CheckedTwice(c, t, u, r, Settled(r, true), run);
    run := MarkedTwice(c, t, u, r, Settled(r, true), run);
  }
}

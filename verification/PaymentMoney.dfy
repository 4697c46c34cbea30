/** The external gateway's books over every interleaving of charges and refunds: how often a key is charged, how
    often a payment is refunded, and what the takings come to
    (services/payment-service/cmd/main.go, lines 210-289). */
module PaymentMoney {
  import opened Counting
  import opened RealSums
  import opened Payments
  import opened PaymentCalls
  import opened PaymentOverlaps

  /** The gateway has been called for this charge. */
  predicate PastGateway(pc: Pc) {
    pc.Settling? || (pc.Answered? && (pc.outcome.Charged? || pc.outcome.ChargeFailed?))
  }

  /** It went through. */
  predicate TookMoney(pc: Pc) {
    pc == Settling(true) || (pc.Answered? && pc.outcome.Charged?)
  }

  /** The charges with a key for which the gateway was called. */
  function Chargers(tasks: Tasks, s: System, key: string): set<string> {
    set id | id in tasks && id in s.pcs && ChargesKey(tasks, id, key) && PastGateway(s.pcs[id])
  }

  /** The refunds of a payment that the gateway has paid out. */
  function Refunders(tasks: Tasks, s: System, p: string): set<string> {
    set id | id in tasks && id in s.pcs && tasks[id] == RefundTask(p) && PaidBack(s.pcs[id])
  }

  function Taken(id: string): GatewayCall -> bool {
    (c: GatewayCall) => c.ChargeCall? && c.paymentID == id && c.ok
  }

  function TakenBy(tasks: Tasks, s: System, id: string): nat {
    if id in tasks && tasks[id].ChargeTask? && id in s.pcs && TookMoney(s.pcs[id]) then 1 else 0
  }

  ghost predicate KeyTallied(tasks: Tasks, s: System, key: string) {
    Tally(s.service.calls, ForKey(key)) == |Chargers(tasks, s, key)|
  }

  /** The gateway's calls for one payment are those of its charge and its refunds, and a payment that says it was
      refunded was. */
  ghost predicate PaymentTallied(tasks: Tasks, s: System, id: string) {
    && Tally(s.service.calls, Taken(id)) == TakenBy(tasks, s, id)
    && Tally(s.service.calls, RefundsOf(id)) == |Refunders(tasks, s, id)|
    && (id in s.service.payments && s.service.payments[id].status == Refunded ==> Refunders(tasks, s, id) != {})
  }

  ghost predicate Tallied(tasks: Tasks, s: System) {
    (forall key :: KeyTallied(tasks, s, key)) && (forall id :: PaymentTallied(tasks, s, id))
  }

  /** The gateway call that a turn makes, if it makes one. */
  function CallOf(tasks: Tasks, s: System, turn: Turn): seq<GatewayCall> {
    if turn.id !in tasks || turn.id !in s.pcs then []
    else
      match tasks[turn.id]
      case ChargeTask(r) =>
        if s.pcs[turn.id] == Charging then [ChargeCall(turn.id, r.key, r.amount, turn.up)] else []
      case RefundTask(p) =>
        if s.pcs[turn.id] == Refunding && p in s.service.payments
        then [RefundCall(p, s.service.payments[p].amount, turn.up)]
        else []
  }

  lemma TakeCalls(tasks: Tasks, s: System, turn: Turn)
    ensures Take(tasks, s, turn).service.calls == s.service.calls + CallOf(tasks, s, turn)
  {
  }

  lemma TakeTallies(calls: seq<GatewayCall>, more: seq<GatewayCall>, f: GatewayCall -> bool)
    requires |more| <= 1
    ensures Tally(calls + more, f) == Tally(calls, f) + (if more != [] && f(more[0]) then 1 else 0)
  {
    if more == [] {
      assert calls + more == calls;
    } else {
      assert more == [more[0]];
      TallyNext(calls, more[0], f);
    }
  }

  lemma ChargeMoves(s: Service, r: Request, id: string, pc: Pc, up: bool)
    ensures var pc' := ChargeAct(s, r, id, pc, up).1;
            && (PastGateway(pc') <==> PastGateway(pc) || pc == Charging)
            && (TookMoney(pc') <==> TookMoney(pc) || (pc == Charging && up))
  {
  }

  lemma RefundMoves(s: Service, p: string, pc: Pc, up: bool)
    ensures var pc' := RefundAct(s, p, pc, up).1;
            PaidBack(pc') <==> PaidBack(pc) || (pc == Refunding && p in s.payments && up)
  {
  }

  lemma TurnMoves(tasks: Tasks, s: System, turn: Turn)
    requires turn.id in tasks && turn.id in s.pcs
    ensures var pc, pc', made := s.pcs[turn.id], Take(tasks, s, turn).pcs[turn.id], CallOf(tasks, s, turn);
            && (tasks[turn.id].ChargeTask? ==>
                 && (made != [] <==> pc == Charging)
                 && (PastGateway(pc') <==> PastGateway(pc) || made != [])
                 && (TookMoney(pc') <==> TookMoney(pc) || (made != [] && turn.up)))
            && (tasks[turn.id].RefundTask? ==>
                 && (made != [] ==> pc == Refunding)
                 && (PaidBack(pc') <==> PaidBack(pc) || (made != [] && turn.up)))
  {
    match tasks[turn.id]
    case ChargeTask(r) => ChargeMoves(s.service, r, turn.id, s.pcs[turn.id], turn.up);
    case RefundTask(p) => RefundMoves(s.service, p, s.pcs[turn.id], turn.up);
  }

  lemma TurnSpares(tasks: Tasks, s: System, turn: Turn)
    ensures var t := Take(tasks, s, turn);
            t.pcs.Keys == s.pcs.Keys && forall id | id in s.pcs && id != turn.id :: t.pcs[id] == s.pcs[id]
  {
  }

  lemma ChargingIsBefore()
    ensures !PastGateway(Charging) && !TookMoney(Charging) && !PaidBack(Refunding)
  {
  }

  lemma TakeChargers(tasks: Tasks, s: System, turn: Turn, key: string)
    requires turn.id in tasks && turn.id in s.pcs
    ensures var made, now := CallOf(tasks, s, turn), Chargers(tasks, Take(tasks, s, turn), key);
            if made != [] && ForKey(key)(made[0])
            then now == Chargers(tasks, s, key) + {turn.id} && turn.id !in Chargers(tasks, s, key)
            else now == Chargers(tasks, s, key)
  {
    TurnMoves(tasks, s, turn);
    TurnSpares(tasks, s, turn);
    hide Act, Take, PastGateway;
    assert !PastGateway(Charging) by {
      ChargingIsBefore();
    }
  }

  lemma TakeRefunders(tasks: Tasks, s: System, turn: Turn, p: string)
    requires turn.id in tasks && turn.id in s.pcs
    ensures var made, now := CallOf(tasks, s, turn), Refunders(tasks, Take(tasks, s, turn), p);
            if made != [] && RefundsOf(p)(made[0])
            then now == Refunders(tasks, s, p) + {turn.id} && turn.id !in Refunders(tasks, s, p)
            else now == Refunders(tasks, s, p)
  {
    TurnMoves(tasks, s, turn);
    TurnSpares(tasks, s, turn);
    hide Act, Take, PaidBack;
    ChargingIsBefore();
  }

  lemma TakeKeepsKey(tasks: Tasks, s: System, turn: Turn, key: string)
    requires KeyTallied(tasks, s, key)
    ensures KeyTallied(tasks, Take(tasks, s, turn), key)
  {
    if turn.id in tasks && turn.id in s.pcs {
      TakeCalls(tasks, s, turn);
      TakeTallies(s.service.calls, CallOf(tasks, s, turn), ForKey(key));
      TakeChargers(tasks, s, turn, key);
      hide Tally, Take, CallOf, Chargers;
    }
  }

  /** Only the last step of a refund marks its payment. */
  lemma ActMarks(s: Service, misses: set<string>, t: Task, id: string, pc: Pc, up: bool, x: string)
    requires Fits(s, misses, t, id, pc)
    ensures var (s', pc') := Act(s, t, id, pc, up);
            x in s'.payments && s'.payments[x].status == Refunded ==>
              (x in s.payments && s.payments[x].status == Refunded) || (t == RefundTask(x) && PaidBack(pc'))
  {
  }

  lemma MarksRefunded(tasks: Tasks, s: System, misses: set<string>, turn: Turn, id: string)
    requires Inv(tasks, s, misses) && turn.id in tasks && turn.id in s.pcs
    requires id in Take(tasks, s, turn).service.payments && Take(tasks, s, turn).service.payments[id].status == Refunded
    ensures (id in s.service.payments && s.service.payments[id].status == Refunded)
         || turn.id in Refunders(tasks, Take(tasks, s, turn), id)
  {
    assert Fits(s.service, misses, tasks[turn.id], turn.id, s.pcs[turn.id]);
    ActMarks(s.service, misses, tasks[turn.id], turn.id, s.pcs[turn.id], turn.up, id);
    hide Inv, Fits, Act, PaidBack;
  }

  lemma TakeTakes(tasks: Tasks, s: System, turn: Turn, id: string)
    requires turn.id in tasks && turn.id in s.pcs
    ensures var made := CallOf(tasks, s, turn);
            TakenBy(tasks, Take(tasks, s, turn), id)
              == TakenBy(tasks, s, id) + (if made != [] && Taken(id)(made[0]) then 1 else 0)
  {
    TurnMoves(tasks, s, turn);
    TurnSpares(tasks, s, turn);
    ChargingIsBefore();
    hide Act, Take, TookMoney;
  }

  lemma TakeKeepsPayment(tasks: Tasks, s: System, misses: set<string>, turn: Turn, id: string)
    requires Inv(tasks, s, misses) && PaymentTallied(tasks, s, id)
    ensures PaymentTallied(tasks, Take(tasks, s, turn), id)
  {
    if turn.id in tasks && turn.id in s.pcs {
      var t, made := Take(tasks, s, turn), CallOf(tasks, s, turn);
      TakeCalls(tasks, s, turn);
      TakeTallies(s.service.calls, made, Taken(id));
      TakeTallies(s.service.calls, made, RefundsOf(id));
      TakeRefunders(tasks, s, turn, id);
      TakeTakes(tasks, s, turn, id);
      hide Tally, Take, CallOf, Taken, RefundsOf, Refunders, TakenBy, Inv;
      if id in t.service.payments && t.service.payments[id].status == Refunded {
        MarksRefunded(tasks, s, misses, turn, id);
      }
    }
  }

  lemma InitTallied(tasks: Tasks)
    ensures Tallied(tasks, Init(tasks))
  {
    forall key
      ensures KeyTallied(tasks, Init(tasks), key) && PaymentTallied(tasks, Init(tasks), key)
    {
      assert Chargers(tasks, Init(tasks), key) == {} && Refunders(tasks, Init(tasks), key) == {};
    }
  }

  /** Over every interleaving the gateway was called once for each charge past it, went through once for each
      charge that says so, and paid out once for each refund past it. */
  lemma {:induction false} RunTallied(tasks: Tasks, run: seq<Turn>)
    ensures Tallied(tasks, Run(tasks, run))
  {
    if run == [] {
      InitTallied(tasks);
    } else {
      var before, last := run[..|run| - 1], run[|run| - 1];
      RunTallied(tasks, before);
      RunKeepsInv(tasks, before);
      hide Inv, KeyTallied, PaymentTallied, Take, Misses;
      forall x
        ensures KeyTallied(tasks, Run(tasks, run), x) && PaymentTallied(tasks, Run(tasks, run), x)
      {
        TakeKeepsKey(tasks, Run(tasks, before), last, x);
        TakeKeepsPayment(tasks, Run(tasks, before), Misses(tasks, before), last, x);
      }
    }
  }

  // ---- How often a key is charged ----

  lemma ChargerOf(tasks: Tasks, s: System, misses: set<string>, key: string, id: string)
    requires Inv(tasks, s, misses) && key != "" && id in Chargers(tasks, s, key)
    ensures Owns(s.service, key, id) <==> id !in misses
    ensures key in s.service.records
  {
    assert Fits(s.service, misses, tasks[id], id, s.pcs[id]);
  }

  /** At every point of every interleaving a key has been charged at most once, and once more for each charge that
      looked the key's payment up before it was stored. */
  lemma KeyChargedAtMost(tasks: Tasks, run: seq<Turn>, key: string)
    requires key != ""
    ensures Tally(Run(tasks, run).service.calls, ForKey(key)) <= 1 + |MissesOf(tasks, run, key)|
  {
    RunKeepsInv(tasks, run);
    RunTallied(tasks, run);
    var s, misses := Run(tasks, run), MissesOf(tasks, run, key);
    assert KeyTallied(tasks, s, key);
    hide Inv, Run, Misses, Tally;
    var owner := if key in s.service.records then {s.service.records[key]} else {};
    forall id | id in Chargers(tasks, s, key)
      ensures id in owner + misses
    {
      ChargerOf(tasks, s, Misses(tasks, run), key, id);
    }
    SubsetSize(Chargers(tasks, s, key), owner + misses);
    assert |owner + misses| <= |owner| + |misses|;
  }

  ghost predicate KeyAnswered(tasks: Tasks, s: System, key: string) {
    forall id | ChargesKey(tasks, id, key) :: id in s.pcs && s.pcs[id].Answered?
  }

  /** Once all charges with a key are answered, its owner and every charge that missed it have charged. */
  lemma OnceAnswered(tasks: Tasks, s: System, misses: set<string>, key: string, id: string)
    requires Inv(tasks, s, misses) && key != "" && KeyAnswered(tasks, s, key)
    requires ChargesKey(tasks, id, key) && Proper(tasks[id].request)
    ensures key in s.service.records && s.service.records[key] in Chargers(tasks, s, key)
    ensures id in misses ==> id in Chargers(tasks, s, key)
  {
    assert Fits(s.service, misses, tasks[id], id, s.pcs[id]);
    var owner := s.service.records[key];
    assert ChargesKey(tasks, owner, key) && Proper(tasks[owner].request);
    assert Fits(s.service, misses, tasks[owner], owner, s.pcs[owner]);
  }

  lemma MissesAreProper(tasks: Tasks, s: System, misses: set<string>, id: string)
    requires Inv(tasks, s, misses) && id in misses && id in tasks && tasks[id].ChargeTask?
    ensures Proper(tasks[id].request)
  {
    assert Fits(s.service, misses, tasks[id], id, s.pcs[id]);
  }

  lemma ChargersHaveKey(tasks: Tasks, s: System, key: string, id: string)
    requires id in Chargers(tasks, s, key)
    ensures ChargesKey(tasks, id, key)
  {
  }

  /** When every charge with a key has been answered, and one of them was proper, the gateway was called for the key
      once, and once more for each miss: the customer is not charged twice if and only if no lookup came too early. */
  lemma ChargesWhenAllAnswered(tasks: Tasks, run: seq<Turn>, key: string, id: string)
    requires key != "" && ChargesKey(tasks, id, key) && Proper(tasks[id].request)
    requires KeyAnswered(tasks, Run(tasks, run), key)
    ensures Tally(Run(tasks, run).service.calls, ForKey(key)) == 1 + |MissesOf(tasks, run, key)|
    ensures Tally(Run(tasks, run).service.calls, ForKey(key)) == 1 <==> MissesOf(tasks, run, key) == {}
  {
    RunKeepsInv(tasks, run);
    RunTallied(tasks, run);
    var s, all, misses := Run(tasks, run), Misses(tasks, run), MissesOf(tasks, run, key);
    assert KeyTallied(tasks, s, key);
    hide Inv, Run, Misses, Tally, Chargers, KeyAnswered, Proper;
    OnceAnswered(tasks, s, all, key, id);
    var owner := s.service.records[key];
    ChargerOf(tasks, s, all, key, owner);
    forall x
      ensures x in Chargers(tasks, s, key) <==> x in {owner} + misses
    {
      if x in Chargers(tasks, s, key) {
        ChargerOf(tasks, s, all, key, x);
        assert ChargesKey(tasks, x, key) by {
          ChargersHaveKey(tasks, s, key, x);
        }
      } else if x in misses {
        MissesAreProper(tasks, s, all, x);
        OnceAnswered(tasks, s, all, key, x);
      }
    }
    assert Chargers(tasks, s, key) == {owner} + misses;
    assert owner !in misses;
  }

  // ---- How often a payment is refunded ----

  /** Both refunds have found the payment succeeded, and neither has marked it refunded yet. */
  predicate Overlap(s: System, t: string, u: string) {
    && t in s.pcs && (s.pcs[t] == Refunding || s.pcs[t] == Marking)
    && u in s.pcs && (s.pcs[u] == Refunding || s.pcs[u] == Marking)
  }

  predicate UnderWay(pc: Pc) {
    pc == Refunding || PaidBack(pc)
  }

  ghost predicate BothUnderWay(tasks: Tasks, s: System, p: string, t: string, u: string) {
    && t != u && t in tasks && u in tasks && tasks[t] == RefundTask(p) && tasks[u] == RefundTask(p)
    && t in s.pcs && u in s.pcs && UnderWay(s.pcs[t]) && UnderWay(s.pcs[u])
  }

  lemma TakeOverlaps(tasks: Tasks, s: System, misses: set<string>, turn: Turn, p: string, t: string, u: string)
    requires Inv(tasks, s, misses) && BothUnderWay(tasks, Take(tasks, s, turn), p, t, u)
    ensures BothUnderWay(tasks, s, p, t, u) || Overlap(Take(tasks, s, turn), t, u)
  {
    assert Fits(s.service, misses, tasks[t], t, s.pcs[t]) && Fits(s.service, misses, tasks[u], u, s.pcs[u]);
  }

  /** Two refunds of a payment that have both gone past its check did so before either had marked it. */
  lemma {:induction false} RefundsOverlap(tasks: Tasks, run: seq<Turn>, p: string, t: string, u: string)
    returns (n: nat)
    requires BothUnderWay(tasks, Run(tasks, run), p, t, u)
    ensures n <= |run| && Overlap(Run(tasks, run[..n]), t, u)
  {
    var before := run[..|run| - 1];
    RunKeepsInv(tasks, before);
    assert run[..|run|] == run;
    if Overlap(Run(tasks, run), t, u) {
      n := |run|;
    } else {
      TakeOverlaps(tasks, Run(tasks, before), Misses(tasks, before), run[|run| - 1], p, t, u);
      n := RefundsOverlap(tasks, before, p, t, u);
      assert before[..n] == run[..n];
    }
  }

  lemma TwoMembers(s: set<string>) returns (a: string, b: string)
    requires |s| >= 2
    ensures a in s && b in s && a != b
  {
    a :| a in s;
    assert |s - {a}| == |s| - 1;
    b :| b in s - {a};
  }

  /** Two refunds of the payment overlap after n turns. */
  ghost predicate OverlapAt(tasks: Tasks, run: seq<Turn>, p: string, t: string, u: string, n: nat) {
    && t != u && t in tasks && u in tasks && tasks[t] == RefundTask(p) && tasks[u] == RefundTask(p)
    && n <= |run| && Overlap(Run(tasks, run[..n]), t, u)
  }

  ghost predicate BothPaidBack(s: System, t: string, u: string) {
    t in s.pcs && u in s.pcs && PaidBack(s.pcs[t]) && PaidBack(s.pcs[u])
  }

  /** The gateway pays a payment back twice exactly if two refunds that it pays out both found the payment succeeded
      before either marked it. */
  lemma RefundedTwiceOverlaps(tasks: Tasks, run: seq<Turn>, p: string)
    ensures Tally(Run(tasks, run).service.calls, RefundsOf(p)) >= 2 <==>
      exists t, u, n: nat :: OverlapAt(tasks, run, p, t, u, n) && BothPaidBack(Run(tasks, run), t, u)
  {
    RunTallied(tasks, run);
    var s := Run(tasks, run);
    assert PaymentTallied(tasks, s, p);
    if |Refunders(tasks, s, p)| >= 2 {
      var t, u := TwoMembers(Refunders(tasks, s, p));
      var n := RefundsOverlap(tasks, run, p, t, u);
      assert OverlapAt(tasks, run, p, t, u, n) && BothPaidBack(s, t, u);
    } else if t, u, n: nat :| OverlapAt(tasks, run, p, t, u, n) && BothPaidBack(s, t, u) {
      SubsetSize({t, u}, Refunders(tasks, s, p));
    }
  }
}

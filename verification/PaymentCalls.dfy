/** The payment service as a state machine (services/payment-service/cmd/main.go, lines 54-62, 78-111 and 210-289).
    A call of Charge or Refund is a little program: every locked section, and every call of the external gateway,
    is one step; steps of any number of calls interleave. */
module PaymentCalls {
  import opened Payments

  datatype Task =
    | ChargeTask(request: Request)
    | RefundTask(paymentID: string)

  /** Where a call is: the next thing it will do. A charge goes through Looking, Creating, Charging and Settling, a
      refund that has found its payment succeeded through Refunding and Marking. */
  datatype Pc =
    | Start
    | Looking(owner: string)
    | Creating
    | Charging
    | Settling(ok: bool)
    | Refunding
    | Marking
    | Answered(outcome: Outcome)

  function Updated(s: Service, id: string, p: Payment): Service {
    s.(payments := s.payments[id := p])
  }

  function Called(s: Service, c: GatewayCall): Service {
    s.(calls := s.calls + [c])
  }

  /** One step of the charge that drew the id `id`; `up` is the gateway's answer, if the step calls it. */
  function ChargeAct(s: Service, r: Request, id: string, pc: Pc, up: bool): (Service, Pc) {
    match pc
    case Start =>
      if r.orderID == "" then (s, Answered(OrderIdRequired))
      else if r.amount <= 0.0 then (s, Answered(AmountNotPositive))
      else if r.key == "" then (s, Creating)
      else if r.key in s.records then (s, Looking(s.records[r.key]))
      else (s.(records := s.records[r.key := id]), Creating)
    case Looking(owner) => (s, if owner in s.payments then Answered(Replayed(owner)) else Creating)
    case Creating => (Updated(s, id, Opened(r)), Charging)
    case Charging => (Called(s, ChargeCall(id, r.key, r.amount, up)), Settling(up))
    case Settling(ok) =>
      (if id in s.payments then Updated(s, id, WithAnswer(s.payments[id], ok)) else s,
       Answered(if ok then Charged(id) else ChargeFailed(id)))
    case _ => (s, pc)
  }

  /** One step of a refund. */
  function RefundAct(s: Service, p: string, pc: Pc, up: bool): (Service, Pc) {
    if p !in s.payments then (s, if pc == Start then Answered(PaymentNotFound) else pc)
    else
      match pc
      case Start => (s, if s.payments[p].status == Succeeded then Refunding else Answered(NotRefundable))
      case Refunding =>
        (Called(s, RefundCall(p, s.payments[p].amount, up)), if up then Marking else Answered(RefundFailed))
      case Marking => (Updated(s, p, s.payments[p].(status := Refunded)), Answered(RefundDone))
      case _ => (s, pc)
  }

  function Act(s: Service, t: Task, id: string, pc: Pc, up: bool): (Service, Pc) {
    match t
    case ChargeTask(r) => ChargeAct(s, r, id, pc, up)
    case RefundTask(p) => RefundAct(s, p, pc, up)
  }

  function Remaining(pc: Pc): nat {
    match pc
    case Start => 5
    case Looking(_) => 4
    case Creating => 3
    case Charging => 2
    case Settling(_) => 1
    case Refunding => 2
    case Marking => 1
    case Answered(_) => 0
  }

  // ---- Interleavings ----

  type Tasks = map<string, Task>

  /** One step of one call. */
  datatype Turn = Turn(id: string, up: bool)

  datatype System = System(service: Service, pcs: map<string, Pc>)

  function Init(tasks: Tasks): System {
    System(EMPTY, map id | id in tasks :: Start)
  }

  function Take(tasks: Tasks, s: System, turn: Turn): System {
    if turn.id in tasks && turn.id in s.pcs then
      var (service, pc) := Act(s.service, tasks[turn.id], turn.id, s.pcs[turn.id], turn.up);
      System(service, s.pcs[turn.id := pc])
    else s
  }

  function Run(tasks: Tasks, run: seq<Turn>): System {
    if run == [] then Init(tasks) else Take(tasks, Run(tasks, run[..|run| - 1]), run[|run| - 1])
  }

  lemma OneMore(tasks: Tasks, run: seq<Turn>, turn: Turn)
    ensures Run(tasks, run + [turn]) == Take(tasks, Run(tasks, run), turn)
  {
    assert (run + [turn])[..|run|] == run;
  }

  // ---- A call on its own ----

  /** The system after n turns of one call, with nothing in between. */
  function Alone(tasks: Tasks, s: System, id: string, up: bool, n: nat): System {
    if n == 0 then s else Take(tasks, Alone(tasks, s, id, up, n - 1), Turn(id, up))
  }

  lemma {:induction false} AloneIsARun(tasks: Tasks, before: seq<Turn>, id: string, up: bool, n: nat)
    returns (run: seq<Turn>)
    ensures Run(tasks, run) == Alone(tasks, Run(tasks, before), id, up, n)
    ensures before <= run && |run| == |before| + n && forall i | |before| <= i < |run| :: run[i] == Turn(id, up)
  {
    if n == 0 {
      run := before;
    } else {
      var shorter := AloneIsARun(tasks, before, id, up, n - 1);
      OneMore(tasks, shorter, Turn(id, up));
      run := shorter + [Turn(id, up)];
    }
  }

  ghost predicate AloneAt(tasks: Tasks, s: System, id: string, up: bool, n: nat, at: (Service, Pc)) {
    Alone(tasks, s, id, up, n) == System(at.0, s.pcs[id := at.1])
  }

  lemma AloneNext(tasks: Tasks, s: System, id: string, up: bool, n: nat, at: (Service, Pc))
    returns (next: (Service, Pc))
    requires id in tasks && AloneAt(tasks, s, id, up, n, at)
    ensures next == Act(at.0, tasks[id], id, at.1, up) && AloneAt(tasks, s, id, up, n + 1, next)
  {
    hide Act;
    next := Act(at.0, tasks[id], id, at.1, up);
    assert s.pcs[id := at.1][id := next.1] == s.pcs[id := next.1];
  }

  /** What a whole request of Payments does to the service, and its answer. */
  function Whole(s: Service, t: Task, id: string, up: bool): (Service, Pc) {
    match t
    case ChargeTask(r) => var (after, outcome) := Charge(s, r, id, up); (after, Answered(outcome))
    case RefundTask(p) => var (after, outcome) := Refund(s, p, up); (after, Answered(outcome))
  }

  lemma FiveActs(s: Service, t: Task, id: string, up: bool)
    ensures var a := Act(s, t, id, Start, up);
            var b := Act(a.0, t, id, a.1, up);
            var c := Act(b.0, t, id, b.1, up);
            var d := Act(c.0, t, id, c.1, up);
            Act(d.0, t, id, d.1, up) == Whole(s, t, id, up)
  {
    if t.ChargeTask? {
      var p := Opened(t.request);
      assert s.payments[id := p][id := WithAnswer(p, up)] == s.payments[id := WithAnswer(p, up)];
      hide Opened, WithAnswer;
    }
  }

  lemma AloneStart(tasks: Tasks, s: System, id: string, up: bool)
    ensures Alone(tasks, s, id, up, 0) == s
  {
  }

  lemma FiveTurns(tasks: Tasks, s: System, id: string, up: bool)
    requires id in tasks && id in s.pcs && s.pcs[id] == Start
    ensures AloneAt(tasks, s, id, up, 5, Whole(s.service, tasks[id], id, up))
  {
    hide Act, Whole, Take, Alone;
    assert AloneAt(tasks, s, id, up, 0, (s.service, Start)) by {
      assert s.pcs == s.pcs[id := Start];
      AloneStart(tasks, s, id, up);
    }
    FiveActs(s.service, tasks[id], id, up);
    var at := AloneNext(tasks, s, id, up, 0, (s.service, Start));
    at := AloneNext(tasks, s, id, up, 1, at);
    at := AloneNext(tasks, s, id, up, 2, at);
    at := AloneNext(tasks, s, id, up, 3, at);
    at := AloneNext(tasks, s, id, up, 4, at);
  }

  /** After any run, five more steps of a call that has not started answer it and do what the whole request does. */
  lemma AloneIsWhole(tasks: Tasks, before: seq<Turn>, id: string, up: bool) returns (run: seq<Turn>)
    requires id in tasks && id in Run(tasks, before).pcs && Run(tasks, before).pcs[id] == Start
    ensures before <= run && |run| == |before| + 5 && forall i | |before| <= i < |run| :: run[i] == Turn(id, up)
    ensures var s := Run(tasks, before);
            var (after, pc) := Whole(s.service, tasks[id], id, up);
            Run(tasks, run) == System(after, s.pcs[id := pc])
  {
    run := AloneIsARun(tasks, before, id, up, 5);
    hide Run, Whole, Alone;
    FiveTurns(tasks, Run(tasks, before), id, up);
  }
}

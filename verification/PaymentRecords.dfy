/** What the stored payments and the answers say about the requests they come from, over every interleaving and in
    serial runs (services/payment-service/cmd/main.go, lines 85-94 and 210-289). */
module PaymentRecords {
  import opened Counting
  import opened Payments
  import opened PaymentCalls
  import opened PaymentOverlaps
  import opened PaymentMoney

  /** A payment says what its request asked for. */
  predicate Carries(p: Payment, r: Request) {
    && p.orderID == r.orderID && p.userID == r.userID && p.amount == r.amount && p.key == r.key
    && p.currency == (if r.currency == "" then "USD" else r.currency)
  }

  predicate HasStored(pc: Pc) {
    || pc == Charging || pc.Settling?
    || (pc.Answered? && (pc.outcome.Charged? || pc.outcome.ChargeFailed?))
  }

  /** Over every interleaving: a payment is stored exactly by a charge that got that far, and says what that charge
      asked for. Until the gateway has answered and the answer is written it is pending, never tried; then it has
      been tried once, and it failed exactly if the gateway was down. */
  lemma PaymentsCarryRequests(tasks: Tasks, run: seq<Turn>, id: string)
    ensures var s := Run(tasks, run);
            id in s.service.payments <==>
              id in tasks && tasks[id].ChargeTask? && id in s.pcs && HasStored(s.pcs[id])
    ensures var s := Run(tasks, run);
            id in s.service.payments ==>
              var p, pc := s.service.payments[id], s.pcs[id];
              && Carries(p, tasks[id].request)
              && (!pc.Answered? ==> p.status == Payments.Status.Pending && p.attempts == 0 && p.reason == "")
              && (pc.Answered? && pc.outcome.Charged? ==>
                   (p.status == Succeeded || p.status == Refunded) && p.attempts == 1 && p.reason == "")
              && (pc.Answered? && pc.outcome.ChargeFailed? ==>
                   p.status == Failed && p.attempts == 1 && p.reason == "payment gateway unavailable")
  {
    RunKeepsInv(tasks, run);
    var s := Run(tasks, run);
    hide Run, Misses;
    if id in tasks {
      assert Fits(s.service, Misses(tasks, run), tasks[id], id, s.pcs[id]);
    }
  }

  /** Is there a payment for the order? */
  ghost predicate FoundByOrder(s: Service, orderID: string) {
    exists id | id in s.payments :: s.payments[id].orderID == orderID
  }

  ghost predicate StoredForOrder(tasks: Tasks, s: System, id: string, orderID: string) {
    id in tasks && tasks[id].ChargeTask? && tasks[id].request.orderID == orderID && id in s.pcs && HasStored(s.pcs[id])
  }

  /** A look-up by order id finds a payment exactly if a charge for that order has stored one. */
  lemma LookUpByOrder(tasks: Tasks, run: seq<Turn>, orderID: string)
    ensures FoundByOrder(Run(tasks, run).service, orderID) <==>
      exists id :: StoredForOrder(tasks, Run(tasks, run), id, orderID)
  {
    var s := Run(tasks, run);
    forall id
      ensures id in s.service.payments && s.service.payments[id].orderID == orderID <==>
        StoredForOrder(tasks, s, id, orderID)
    {
      PaymentsCarryRequests(tasks, run, id);
    }
  }

  /** How a charge is answered, over every interleaving: the checks decide by the request alone; otherwise with an
      earlier payment of the key, or with its own, which went through exactly if the gateway said so. */
  lemma ChargesAnswered(tasks: Tasks, run: seq<Turn>, id: string)
    requires id in tasks && tasks[id].ChargeTask? && id in Run(tasks, run).pcs && Run(tasks, run).pcs[id].Answered?
    ensures var s, r := Run(tasks, run), tasks[id].request;
            var answer := s.pcs[id].outcome;
            && (answer == OrderIdRequired <==> r.orderID == "")
            && (answer == AmountNotPositive <==> r.orderID != "" && r.amount <= 0.0)
            && (answer.Replayed? <==> r.orderID != "" && r.amount > 0.0 && id !in s.service.payments)
            && (answer.Replayed? ==>
                 answer.paymentID != id && answer.paymentID in s.service.payments
                 && s.service.payments[answer.paymentID].key == r.key != "")
            && (answer == Charged(id) <==> Tally(s.service.calls, Taken(id)) == 1)
            && (answer == ChargeFailed(id) <==> id in s.service.payments && Tally(s.service.calls, Taken(id)) == 0)
  {
    RunKeepsInv(tasks, run);
    RunTallied(tasks, run);
    var s, misses := Run(tasks, run), Misses(tasks, run);
    hide Run, Misses, Tally;
    assert PaymentTallied(tasks, s, id);
    assert Fits(s.service, misses, tasks[id], id, s.pcs[id]);
    if s.pcs[id].outcome.Replayed? {
      var owner := s.pcs[id].outcome.paymentID;
      assert Fits(s.service, misses, tasks[owner], owner, s.pcs[owner]);
    }
  }

  // ---- How refunds are answered ----

  ghost predicate RefundedBy(tasks: Tasks, s: System, t: string, p: string) {
    t in tasks && tasks[t] == RefundTask(p) && t in s.pcs && s.pcs[t] == Answered(RefundDone)
  }

  lemma ActRefunds(s: Service, misses: set<string>, t: Task, id: string, pc: Pc, up: bool, p: string)
    requires Fits(s, misses, t, id, pc)
    ensures var (s', pc') := Act(s, t, id, pc, up);
            && (p in s'.payments && s'.payments[p].status == Refunded ==>
                 (p in s.payments && s.payments[p].status == Refunded)
                 || (t == RefundTask(p) && pc' == Answered(RefundDone)))
            && (pc == Answered(RefundDone) ==> pc' == pc)
  {
  }

  lemma {:induction false} RefundedExactly(tasks: Tasks, run: seq<Turn>, p: string)
    ensures var s := Run(tasks, run);
            p in s.service.payments && s.service.payments[p].status == Refunded <==>
              exists t :: RefundedBy(tasks, s, t, p)
  {
    var s := Run(tasks, run);
    RunKeepsInv(tasks, run);
    if t :| RefundedBy(tasks, s, t, p) {
      assert Fits(s.service, Misses(tasks, run), tasks[t], t, s.pcs[t]);
    }
    if run == [] {
    } else {
      var before, turn := run[..|run| - 1], run[|run| - 1];
      RefundedExactly(tasks, before, p);
      RunKeepsInv(tasks, before);
      var was := Run(tasks, before);
      if turn.id in tasks {
        assert Fits(was.service, Misses(tasks, before), tasks[turn.id], turn.id, was.pcs[turn.id]);
        hide Fits, Act;
        ActRefunds(was.service, Misses(tasks, before), tasks[turn.id], turn.id, was.pcs[turn.id], turn.up, p);
        if t :| RefundedBy(tasks, was, t, p) {
          assert RefundedBy(tasks, s, t, p);
        }
        if tasks[turn.id] == RefundTask(p) && s.pcs[turn.id] == Answered(RefundDone) {
          assert RefundedBy(tasks, s, turn.id, p);
        }
      }
    }
  }

  /** A refund is turned down, as not found, exactly if no charge has stored the payment; and otherwise, as not
      refundable, exactly if that charge has not been answered with success, or a refund has already been answered
      with success. What is not turned down asks the gateway for the charge's amount, is answered with its failure,
      or marks the payment. */
  lemma RefundsAnswered(tasks: Tasks, run: seq<Turn>, turn: Turn, p: string)
    requires turn.id in tasks && tasks[turn.id] == RefundTask(p)
    requires turn.id in Run(tasks, run).pcs
    ensures var s, t := Run(tasks, run), Take(tasks, Run(tasks, run), turn);
            var pc, pc' := s.pcs[turn.id], t.pcs[turn.id];
            var stored := p in tasks && tasks[p].ChargeTask? && p in s.pcs && HasStored(s.pcs[p]);
            && (pc == Start && !stored ==> pc' == Answered(PaymentNotFound))
            && (pc == Start && stored ==>
                 pc' == if s.pcs[p] == Answered(Charged(p)) && !exists u :: RefundedBy(tasks, s, u, p)
                        then Refunding else Answered(NotRefundable))
            && (pc == Refunding ==>
                 && stored && pc' == (if turn.up then Marking else Answered(RefundFailed))
                 && t.service == s.service.(calls :=
                      s.service.calls + [RefundCall(p, tasks[p].request.amount, turn.up)]))
            && (pc == Marking ==> pc' == Answered(RefundDone) && exists u :: RefundedBy(tasks, t, u, p))
            && (pc.Answered? ==> t == s)
  {
    var s, misses := Run(tasks, run), Misses(tasks, run);
    RunKeepsInv(tasks, run);
    PaymentsCarryRequests(tasks, run, p);
    RefundedExactly(tasks, run, p);
    hide Run, Misses;
    assert Fits(s.service, misses, tasks[turn.id], turn.id, s.pcs[turn.id]);
    if p in tasks {
      assert Fits(s.service, misses, tasks[p], p, s.pcs[p]);
    }
    if s.pcs[turn.id] == Marking {
      assert RefundedBy(tasks, Take(tasks, s, turn), turn.id, p);
    }
    if s.pcs[turn.id].Answered? {
      assert s.pcs[turn.id := s.pcs[turn.id]] == s.pcs;
    }
  }

  // ---- Serial runs ----

  /** A charge that passes the checks and says what the payment says. */
  predicate Pays(op: Op, id: string, p: Payment) {
    op.ChargeOp? && op.id == id && op.request.orderID != "" && op.request.amount > 0.0 && Carries(p, op.request)
  }

  ghost predicate ChargedBy(ops: seq<Op>, id: string, p: Payment) {
    exists op :: op in ops && Pays(op, id, p)
  }

  lemma StepCarries(s: Service, op: Op, id: string)
    requires id in Step(s, op).payments
    ensures var p := Step(s, op).payments[id];
            || Pays(op, id, p)
            || (id in s.payments && forall r :: Carries(s.payments[id], r) ==> Carries(p, r))
  {
  }

  /** In every serial run, too, each payment says what a proper charge that drew its id asked for. */
  lemma {:induction false} SerialPaymentsCarry(ops: seq<Op>, id: string)
    requires id in From(EMPTY, ops).payments
    ensures ChargedBy(ops, id, From(EMPTY, ops).payments[id])
  {
    var before, last := ops[..|ops| - 1], ops[|ops| - 1];
    assert ops == before + [last];
    var s, p := From(EMPTY, before), From(EMPTY, ops).payments[id];
    StepCarries(s, last, id);
    hide Step, Carries;
    if Pays(last, id, p) {
      assert last in ops;
    } else {
      SerialPaymentsCarry(before, id);
      var op :| op in before && Pays(op, id, s.payments[id]);
      assert op in ops && Pays(op, id, p);
    }
  }
}

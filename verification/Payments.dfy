/** The payment service (services/payment-service/cmd/main.go, lines 21-129 and 186-289), one request after
    another: the money the external gateway moved always equals what the service believes it holds. */
module Payments {
  import opened Counting
  import opened RealSums

  datatype Status = Pending | Succeeded | Failed | Refunded

  datatype Payment = Payment(
    orderID: string,
    userID: string,
    amount: real,
    currency: string,
    status: Status,
    key: string,
    reason: string,
    attempts: int)

  datatype Request = Request(orderID: string, userID: string, amount: real, currency: string, key: string)

  /** A call to the external gateway, for which payment it was made, and whether it went through. */
  datatype GatewayCall =
    | ChargeCall(paymentID: string, key: string, amount: real, ok: bool)
    | RefundCall(paymentID: string, amount: real, ok: bool)

  datatype Service = Service(records: map<string, string>, payments: map<string, Payment>, calls: seq<GatewayCall>)

  datatype Outcome =
    | OrderIdRequired
    | AmountNotPositive
    | Replayed(paymentID: string)
    | Charged(paymentID: string)
    | ChargeFailed(paymentID: string)
    | PaymentNotFound
    | NotRefundable
    | RefundFailed
    | RefundDone

  const EMPTY := Service(map[], map[], [])
  const GATEWAY_DOWN := "payment gateway unavailable"

  /** The payment a charge stores before it calls the gateway. */
  function Opened(r: Request): Payment {
    Payment(r.orderID, r.userID, r.amount, if r.currency == "" then "USD" else r.currency, Pending, r.key, "", 0)
  }

  /** The payment after the gateway's answer. */
  function WithAnswer(p: Payment, up: bool): Payment {
    if up then p.(status := Succeeded, attempts := p.attempts + 1)
    else p.(status := Failed, reason := GATEWAY_DOWN, attempts := p.attempts + 1)
  }

  /** The payment a charge ends with. */
  function Settled(r: Request, up: bool): Payment {
    WithAnswer(Opened(r), up)
  }

  function Charge(s: Service, r: Request, id: string, up: bool): (Service, Outcome) {
    if r.orderID == "" then (s, OrderIdRequired)
    else if r.amount <= 0.0 then (s, AmountNotPositive)
    else if r.key != "" && r.key in s.records && s.records[r.key] in s.payments then (s, Replayed(s.records[r.key]))
    else
      var records := if r.key != "" && r.key !in s.records then s.records[r.key := id] else s.records;
      var call := ChargeCall(id, r.key, r.amount, up);
      (Service(records, s.payments[id := Settled(r, up)], s.calls + [call]),
       if up then Charged(id) else ChargeFailed(id))
  }

  function Refund(s: Service, id: string, up: bool): (Service, Outcome) {
    if id !in s.payments then (s, PaymentNotFound)
    else
      var p := s.payments[id];
      if p.status != Succeeded then (s, NotRefundable)
      else
        var called := s.(calls := s.calls + [RefundCall(id, p.amount, up)]);
        if up then (called.(payments := s.payments[id := p.(status := Refunded)]), RefundDone)
        else (called, RefundFailed)
  }

  // ---- Serial runs ----

  datatype Op =
    | ChargeOp(request: Request, id: string, up: bool)
    | RefundOp(id: string, up: bool)

  function Step(s: Service, op: Op): Service {
    match op
    case ChargeOp(r, id, up) => Charge(s, r, id, up).0
    case RefundOp(id, up) => Refund(s, id, up).0
  }

  function From(s: Service, ops: seq<Op>): Service {
    if ops == [] then s else Step(From(s, ops[..|ops| - 1]), ops[|ops| - 1])
  }

  /** Each charge draws an id no payment has. */
  ghost predicate FreshIds(s: Service, ops: seq<Op>) {
    forall n | 0 <= n < |ops| :: ops[n].ChargeOp? ==> ops[n].id !in From(s, ops[..n]).payments
  }

  /** What the gateway took in, less what it gave back. */
  function Net(calls: seq<GatewayCall>): real {
    if calls == [] then 0.0
    else
      var before, last := Net(calls[..|calls| - 1]), calls[|calls| - 1];
      if !last.ok then before else if last.ChargeCall? then before + last.amount else before - last.amount
  }

  function ForKey(key: string): GatewayCall -> bool {
    (c: GatewayCall) => c.ChargeCall? && c.key == key
  }

  function ChargesOf(id: string): GatewayCall -> bool {
    (c: GatewayCall) => c.ChargeCall? && c.paymentID == id
  }

  function RefundsOf(id: string): GatewayCall -> bool {
    (c: GatewayCall) => c.RefundCall? && c.paymentID == id && c.ok
  }

  ghost function Held(): Payment -> real {
    (p: Payment) => if p.status == Succeeded then p.amount else 0.0
  }

  /** Keys and payments point at each other, no payment is left pending, and each was attempted once. */
  ghost predicate Linked(s: Service) {
    && (forall k | k in s.records :: k != "" && s.records[k] in s.payments && s.payments[s.records[k]].key == k)
    && (forall id | id in s.payments :: var p := s.payments[id];
         && (p.key != "" ==> p.key in s.records && s.records[p.key] == id)
         && p.status != Pending && p.attempts == 1)
  }

  ghost predicate MoneyBalances(s: Service) {
    Net(s.calls) == Sum(s.payments, Held())
  }

  ghost predicate KeysChargedOnce(s: Service) {
    forall key | key != "" :: Tally(s.calls, ForKey(key)) == if key in s.records then 1 else 0
  }

  ghost predicate PaymentsChargedOnce(s: Service) {
    forall id :: Tally(s.calls, ChargesOf(id)) == if id in s.payments then 1 else 0
  }

  ghost predicate RefundsShown(s: Service) {
    forall id :: Tally(s.calls, RefundsOf(id)) == if id in s.payments && s.payments[id].status == Refunded then 1 else 0
  }

  /** The gateway's books: money balances, each key was charged once if it was used and never otherwise, each
      payment was charged once, and refunded once exactly if it says so. */
  ghost predicate Balanced(s: Service) {
    MoneyBalances(s) && KeysChargedOnce(s) && PaymentsChargedOnce(s) && RefundsShown(s)
  }

  lemma NetNext(calls: seq<GatewayCall>, c: GatewayCall)
    ensures Net(calls + [c])
         == if !c.ok then Net(calls) else if c.ChargeCall? then Net(calls) + c.amount else Net(calls) - c.amount
  {
    assert (calls + [c])[..|calls|] == calls;
  }

  lemma ChargeLinks(s: Service, r: Request, id: string, up: bool)
    requires Linked(s) && id !in s.payments
    ensures Linked(Charge(s, r, id, up).0)
  {
  }

  /** A charge that reaches the gateway. */
  ghost predicate Reaches(s: Service, r: Request, id: string, up: bool) {
    id !in s.payments && (Charge(s, r, id, up).1 == Charged(id) || Charge(s, r, id, up).1 == ChargeFailed(id))
  }

  lemma ChargeMoney(s: Service, r: Request, id: string, up: bool)
    requires MoneyBalances(s) && Reaches(s, r, id, up)
    ensures MoneyBalances(Charge(s, r, id, up).0)
  {
    NetNext(s.calls, ChargeCall(id, r.key, r.amount, up));
    SumPut(s.payments, Held(), id, Settled(r, up));
    hide Net, Sum;
  }

  lemma ChargeTallies(s: Service, r: Request, id: string, up: bool)
    requires KeysChargedOnce(s) && PaymentsChargedOnce(s) && RefundsShown(s) && Reaches(s, r, id, up)
    requires r.key != "" ==> r.key !in s.records
    ensures var t := Charge(s, r, id, up).0; KeysChargedOnce(t) && PaymentsChargedOnce(t) && RefundsShown(t)
  {
    hide Tally;
    var t, call := Charge(s, r, id, up).0, ChargeCall(id, r.key, r.amount, up);
    forall x
      ensures x != "" ==> Tally(t.calls, ForKey(x)) == if x in t.records then 1 else 0
    {
      TallyNext(s.calls, call, ForKey(x));
    }
    forall x
      ensures Tally(t.calls, ChargesOf(x)) == if x in t.payments then 1 else 0
      ensures Tally(t.calls, RefundsOf(x)) == if x in t.payments && t.payments[x].status == Refunded then 1 else 0
    {
      TallyNext(s.calls, call, ChargesOf(x));
      TallyNext(s.calls, call, RefundsOf(x));
    }
  }

  lemma BalancedParts(s: Service)
    ensures Balanced(s) <==> MoneyBalances(s) && KeysChargedOnce(s) && PaymentsChargedOnce(s) && RefundsShown(s)
  {
  }

  lemma ChargeKeeps(s: Service, r: Request, id: string, up: bool)
    requires Linked(s) && Balanced(s) && id !in s.payments
    ensures var t := Charge(s, r, id, up).0; Linked(t) && Balanced(t)
  {
    ChargeLinks(s, r, id, up);
    if Reaches(s, r, id, up) {
      assert r.key != "" ==> r.key !in s.records;
      hide *;
      BalancedParts(s);
      ChargeMoney(s, r, id, up);
      ChargeTallies(s, r, id, up);
      BalancedParts(Charge(s, r, id, up).0);
    } else {
      assert Charge(s, r, id, up).0 == s;
    }
  }

  lemma RefundLinks(s: Service, id: string, up: bool)
    requires Linked(s)
    ensures Linked(Refund(s, id, up).0)
  {
  }

  lemma RefundMoney(s: Service, id: string, up: bool)
    requires MoneyBalances(s)
    ensures MoneyBalances(Refund(s, id, up).0)
  {
    if id in s.payments {
      var p := s.payments[id];
      NetNext(s.calls, RefundCall(id, p.amount, up));
      SumPut(s.payments, Held(), id, p.(status := Refunded));
    }
    hide Net, Sum;
  }

  lemma RefundTallies(s: Service, id: string, up: bool)
    requires KeysChargedOnce(s) && PaymentsChargedOnce(s) && RefundsShown(s)
    ensures var t := Refund(s, id, up).0; KeysChargedOnce(t) && PaymentsChargedOnce(t) && RefundsShown(t)
  {
    hide Tally;
    var (t, result) := Refund(s, id, up);
    if result.RefundDone? || result.RefundFailed? {
      var call := RefundCall(id, s.payments[id].amount, up);
      forall x
        ensures Tally(t.calls, ForKey(x)) == Tally(s.calls, ForKey(x))
        ensures Tally(t.calls, ChargesOf(x)) == Tally(s.calls, ChargesOf(x))
        ensures Tally(t.calls, RefundsOf(x)) == Tally(s.calls, RefundsOf(x)) + (if x == id && up then 1 else 0)
      {
        TallyNext(s.calls, call, ForKey(x));
        TallyNext(s.calls, call, ChargesOf(x));
        TallyNext(s.calls, call, RefundsOf(x));
      }
      assert t.payments.Keys == s.payments.Keys;
    }
  }

  lemma RefundKeeps(s: Service, id: string, up: bool)
    requires Linked(s) && Balanced(s)
    ensures var t := Refund(s, id, up).0; Linked(t) && Balanced(t)
  {
    hide *;
    BalancedParts(s);
    RefundLinks(s, id, up);
    RefundMoney(s, id, up);
    RefundTallies(s, id, up);
    BalancedParts(Refund(s, id, up).0);
  }

  lemma EmptyBalanced()
    ensures Linked(EMPTY) && Balanced(EMPTY)
  {
  }

  /** In every serial run the gateway's takings equal the amounts of the succeeded payments; a non-empty key
      causes one gateway charge, tried once; a payment is refunded at most once. */
  lemma {:induction false} BooksBalance(ops: seq<Op>)
    requires FreshIds(EMPTY, ops)
    ensures Linked(From(EMPTY, ops)) && Balanced(From(EMPTY, ops))
  {
    hide Linked, Balanced, Charge, Refund;
    if ops == [] {
      EmptyBalanced();
    } else {
      var before, last := ops[..|ops| - 1], ops[|ops| - 1];
      assert forall n | 0 <= n <= |before| :: before[..n] == ops[..n];
      assert ops[..|before|] == before;
      BooksBalance(before);
      match last
      case ChargeOp(r, id, up) => ChargeKeeps(From(EMPTY, before), r, id, up);
      case RefundOp(id, up) => RefundKeeps(From(EMPTY, before), id, up);
    }
  }

  lemma {:induction false} RunOn(s: Service, ops: seq<Op>, more: seq<Op>)
    ensures From(s, ops + more) == From(From(s, ops), more)
    decreases |more|
  {
    if more == [] {
      assert ops + more == ops;
    } else {
      var shorter := more[..|more| - 1];
      RunOn(s, ops, shorter);
      assert (ops + more)[..|ops + more| - 1] == ops + shorter;
    }
  }

  lemma {:induction false} FirstStays(s: Service, more: seq<Op>, key: string, id: string, up: bool)
    requires FreshIds(s, more) && key in s.records && s.records[key] == id && id in s.payments
    requires !up ==> s.payments[id].status == Failed
    ensures var t := From(s, more);
            && key in t.records && t.records[key] == id && id in t.payments
            && (!up ==> t.payments[id].status == Failed)
  {
    if more == [] {
    } else {
      var before := more[..|more| - 1];
      assert forall n | 0 <= n <= |before| :: before[..n] == more[..n];
      assert more[..|before|] == before;
      FirstStays(s, before, key, id, up);
    }
  }

  /** The first payment of a key answers every later request with that key, whatever it asks for and whether or
      not that payment went through, and the gateway is not called again. */
  lemma ReplaysReturnFirst(ops: seq<Op>, first: Request, id: string, up: bool, more: seq<Op>,
                           again: Request, id': string, up': bool)
    requires first.key != "" && first.orderID != "" && first.amount > 0.0 && first.key !in From(EMPTY, ops).records
    requires again.key == first.key && again.orderID != "" && again.amount > 0.0
    requires FreshIds(EMPTY, ops + [ChargeOp(first, id, up)] + more)
    ensures var s := From(EMPTY, ops + [ChargeOp(first, id, up)] + more);
            && Charge(s, again, id', up') == (s, Replayed(id))
            && id in s.payments && (!up ==> s.payments[id].status == Failed)
  {
    var charged := ops + [ChargeOp(first, id, up)];
    assert charged[..|ops|] == ops;
    assert (charged + more)[..|ops|] == ops && (charged + more)[|ops|] == ChargeOp(first, id, up);
    var s := From(EMPTY, charged);
    assert id in s.payments && s.records[first.key] == id;
    RunOn(EMPTY, charged, more);
    assert forall n | 0 <= n <= |more| :: (charged + more)[..|charged| + n] == charged + more[..n];
    forall n | 0 <= n < |more| && more[n].ChargeOp?
      ensures more[n].id !in From(s, more[..n]).payments
    {
      RunOn(EMPTY, charged, more[..n]);
      assert (charged + more)[|charged| + n] == more[n];
    }
    FirstStays(s, more, first.key, id, up);
  }
}

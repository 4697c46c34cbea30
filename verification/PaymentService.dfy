/** The payment service as it keeps its state (services/payment-service/cmd/main.go, lines 47-129 and 186-289),
    proved to do what Payments says. */
module PaymentServices {
  import opened Payments

  lemma PutTwice(m: map<string, Payment>, id: string, a: Payment, b: Payment)
    ensures m[id := a][id := b] == m[id := b]
  {
  }

  class PaymentRecord {
    const id: string
    const request: Request
    const currency: string
    var status: Status
    var reason: string
    var attempts: int

    constructor (id: string, r: Request)
      ensures this.id == id
      ensures View() == Opened(r)
    {
      this.id, request := id, r;
      currency := if r.currency == "" then "USD" else r.currency;
      status, reason, attempts := Pending, "", 0;
    }

    function View(): Payment
      reads this
    {
      Payment(request.orderID, request.userID, request.amount, currency, status, request.key, reason, attempts)
    }
  }

  class PaymentService {
    var records: map<string, string>
    var payments: map<string, PaymentRecord>
    /** Every call made to the external gateway. */
    ghost var calls: seq<GatewayCall>

    constructor ()
      ensures Valid() && View() == EMPTY
    {
      records, payments, calls := map[], map[], [];
    }

    ghost predicate Valid()
      reads this
    {
      forall id | id in payments :: payments[id].id == id
    }

    ghost function Stored(): map<string, Payment>
      reads this`payments, payments.Values
    {
      map id | id in payments :: payments[id].View()
    }

    ghost function View(): Service
      reads this, payments.Values
    {
      Service(records, Stored(), calls)
    }

    method GetOrSet(key: string, paymentID: string) returns (owner: string, found: bool)
      modifies this`records
      ensures found == (key in old(records))
      ensures if found then owner == old(records)[key] && records == old(records)
              else owner == paymentID && records == old(records)[key := paymentID]
    {
      if key in records {
        return records[key], true;
      }
      records := records[key := paymentID];
      return paymentID, false;
    }

    method Create(p: PaymentRecord)
      requires Valid()
      modifies this`payments
      ensures Valid() && payments == old(payments)[p.id := p]
      ensures Stored() == old(Stored())[p.id := p.View()]
    {
      payments := payments[p.id := p];
    }

    /** A payment for the order, if there is one; which, the map decides. */
    method GetByOrderID(orderID: string) returns (found: bool, id: string)
      ensures found <==> exists x | x in payments :: payments[x].View().orderID == orderID
      ensures found ==> id in payments && payments[id].View().orderID == orderID
    {
      found, id := false, "";
      var rest := payments.Keys;
      while rest != {}
        invariant rest <= payments.Keys
        invariant forall x | x in payments && x !in rest :: payments[x].View().orderID != orderID
        decreases rest
      {
        var x :| x in rest;
        rest := rest - {x};
        if payments[x].request.orderID == orderID {
          return true, x;
        }
      }
    }

    /** Update with a function that sets these fields. */
    method Set(id: string, status: Status, reason: string, attempts: int)
      requires Valid() && id in payments
      ensures Valid()
      modifies payments.Values
      ensures Stored()
           == old(Stored())[id := old(Stored())[id].(status := status, reason := reason, attempts := attempts)]
    {
      var p := payments[id];
      p.status := status;
      p.reason := reason;
      p.attempts := attempts;
    }

    /** The external gateway; `up` is whether it answers. */
    method CallGateway(c: GatewayCall) returns (ok: bool)
      modifies this`calls
      ensures ok == c.ok && calls == old(calls) + [c]
    {
      calls := calls + [c];
      ok := c.ok;
    }

    /** Update with the gateway's answer to a charge. */
    method SetAnswer(id: string, ok: bool)
      requires Valid() && id in payments
      modifies payments.Values
      ensures Valid()
      ensures Stored() == old(Stored())[id := WithAnswer(old(Stored())[id], ok)]
    {
      var p := payments[id];
      if ok {
        Set(id, Succeeded, p.reason, p.attempts + 1);
      } else {
        Set(id, Failed, GATEWAY_DOWN, p.attempts + 1);
      }
    }

    /** A charge that creates its payment, from storing it on. */
    method ChargeNew(r: Request, id: string, up: bool)
      requires Valid()
      modifies this, payments.Values
      ensures Valid() && records == old(records)
      ensures Stored() == old(Stored())[id := Settled(r, up)]
      ensures calls == old(calls) + [ChargeCall(id, r.key, r.amount, up)]
    {
      ghost var was := Stored();
      var payment := new PaymentRecord(id, r);
      Create(payment);
      PutTwice(was, id, Opened(r), Settled(r, up));
      hide Opened, WithAnswer;
      var ok := CallGateway(ChargeCall(id, r.key, r.amount, up));
      assert Stored() == was[id := Opened(r)];
      SetAnswer(id, ok);
    }

    method Charge(r: Request, id: string, up: bool) returns (result: Outcome)
      requires Valid()
      modifies this, payments.Values
      ensures Valid()
      ensures (View(), result) == Payments.Charge(old(View()), r, id, up)
    {
      if r.orderID == "" {
        return OrderIdRequired;
      }
      if r.amount <= 0.0 {
        return AmountNotPositive;
      }
      if r.key != "" {
        var owner, found := GetOrSet(r.key, id);
        if found && owner in payments {
          return Replayed(owner);
        }
      }
      ChargeNew(r, id, up);
      return if up then Charged(id) else ChargeFailed(id);
    }

    method Refund(id: string, up: bool) returns (result: Outcome)
      requires Valid()
      modifies this`calls, payments.Values
      ensures Valid()
      ensures (View(), result) == Payments.Refund(old(View()), id, up)
    {
      if id !in payments {
        return PaymentNotFound;
      }
      var payment := payments[id];
      if payment.status != Succeeded {
        return NotRefundable;
      }
      var ok := CallGateway(RefundCall(id, payment.request.amount, up));
      if !ok {
        return RefundFailed;
      }
      Set(id, Refunded, payment.reason, payment.attempts);
      return RefundDone;
    }
  }
}

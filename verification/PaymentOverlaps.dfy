/** What overlapping charges and refunds can do to the money, over every interleaving
    (services/payment-service/cmd/main.go, lines 54-62 and 210-289). */
module PaymentOverlaps {
  import opened Counting
  import opened Payments
  import opened PaymentCalls

  /** The charge, if its lookup of the recorded payment comes before that payment is stored. */
  function Missed(s: Service, t: Task, id: string, pc: Pc): set<string> {
    if t.ChargeTask? && pc.Looking? && pc.owner !in s.payments then {id} else {}
  }

  function MissedBy(tasks: Tasks, s: System, turn: Turn): set<string> {
    if turn.id in tasks && turn.id in s.pcs then Missed(s.service, tasks[turn.id], turn.id, s.pcs[turn.id]) else {}
  }

  /** The charges whose lookup of the recorded payment came before that payment was stored. */
  function Misses(tasks: Tasks, run: seq<Turn>): set<string> {
    if run == [] then {}
    else
      var before, last := run[..|run| - 1], run[|run| - 1];
      Misses(tasks, before) + MissedBy(tasks, Run(tasks, before), last)
  }

  predicate ChargesKey(tasks: Tasks, id: string, key: string) {
    id in tasks && tasks[id].ChargeTask? && tasks[id].request.key == key
  }

  function MissesOf(tasks: Tasks, run: seq<Turn>, key: string): set<string> {
    set id | id in Misses(tasks, run) && ChargesKey(tasks, id, key)
  }

  // ---- Who stores a payment, and what it says ----

  /** A request that passes the input checks. */
  predicate Proper(r: Request) {
    r.orderID != "" && r.amount > 0.0
  }

  ghost predicate Owns(s: Service, key: string, id: string) {
    key in s.records && s.records[key] == id
  }

  /** A charge with a key stores a payment only as the key's owner or after a miss, never both. */
  ghost predicate Entitled(s: Service, misses: set<string>, r: Request, id: string) {
    Proper(r) && if r.key == "" then id !in misses else r.key in s.records && (Owns(s, r.key, id) <==> id !in misses)
  }

  ghost predicate Stands(s: Service, id: string, p: Payment) {
    id in s.payments && s.payments[id] == p
  }

  ghost predicate Unseen(s: Service, misses: set<string>, id: string) {
    id !in s.payments && id !in misses
  }

  ghost predicate ChargeFits(s: Service, misses: set<string>, r: Request, id: string, pc: Pc) {
    match pc
    case Start => Unseen(s, misses, id) && !Owns(s, r.key, id)
    case Looking(owner) => Proper(r) && r.key != "" && Owns(s, r.key, owner) && owner != id && Unseen(s, misses, id)
    case Creating => id !in s.payments && Entitled(s, misses, r, id)
    case Charging => Stands(s, id, Opened(r)) && Entitled(s, misses, r, id)
    case Settling(_) => Stands(s, id, Opened(r)) && Entitled(s, misses, r, id)
    case Refunding => false
    case Marking => false
    case Answered(outcome) =>
      match outcome
      case Replayed(owner) =>
        Proper(r) && r.key != "" && Owns(s, r.key, owner) && owner != id && owner in s.payments && Unseen(s, misses, id)
      case Charged(x) =>
        && x == id && Entitled(s, misses, r, id)
        && (Stands(s, id, Settled(r, true)) || Stands(s, id, Settled(r, true).(status := Refunded)))
      case ChargeFailed(x) => x == id && Stands(s, id, Settled(r, false)) && Entitled(s, misses, r, id)
      case OrderIdRequired => r.orderID == "" && Unseen(s, misses, id) && !Owns(s, r.key, id)
      case AmountNotPositive => r.orderID != "" && !Proper(r) && Unseen(s, misses, id) && !Owns(s, r.key, id)
      case _ => false
  }

  /** The gateway has paid this refund out. */
  predicate PaidBack(pc: Pc) {
    pc == Marking || pc == Answered(RefundDone)
  }

  /** A refund that has passed its check of the payment's status. */
  predicate Checked(pc: Pc) {
    pc == Refunding || PaidBack(pc) || pc == Answered(RefundFailed)
  }

  predicate WasCharged(s: Service, p: string) {
    p in s.payments && (s.payments[p].status == Succeeded || s.payments[p].status == Refunded)
  }

  predicate RefundFits(s: Service, p: string, pc: Pc) {
    && (Checked(pc) ==> WasCharged(s, p))
    && (pc == Answered(RefundDone) ==> p in s.payments && s.payments[p].status == Refunded)
    && (pc == Start || Checked(pc) || pc == Answered(PaymentNotFound) || pc == Answered(NotRefundable))
  }

  ghost predicate Fits(s: Service, misses: set<string>, t: Task, id: string, pc: Pc) {
    match t
    case ChargeTask(r) => ChargeFits(s, misses, r, id, pc)
    case RefundTask(p) => Unseen(s, misses, id) && RefundFits(s, p, pc)
  }

  /** Records and payments belong to charges. */
  ghost predicate Shaped(tasks: Tasks, s: Service) {
    && (forall k | k in s.records ::
         k != "" && ChargesKey(tasks, s.records[k], k) && Proper(tasks[s.records[k]].request))
    && (forall id | id in s.payments :: ChargesKey(tasks, id, s.payments[id].key))
  }

  ghost predicate Inv(tasks: Tasks, s: System, misses: set<string>) {
    && s.pcs.Keys == tasks.Keys
    && misses <= tasks.Keys
    && Shaped(tasks, s.service)
    && (forall id | id in tasks :: Fits(s.service, misses, tasks[id], id, s.pcs[id]))
  }

  lemma ActShaped(tasks: Tasks, s: Service, misses: set<string>, id: string, pc: Pc, up: bool)
    requires Shaped(tasks, s) && id in tasks && Fits(s, misses, tasks[id], id, pc)
    ensures Shaped(tasks, Act(s, tasks[id], id, pc, up).0)
  {
  }

  lemma ChargeActFits(s: Service, misses: set<string>, r: Request, id: string, pc: Pc, up: bool)
    requires ChargeFits(s, misses, r, id, pc)
    ensures var (s', pc') := ChargeAct(s, r, id, pc, up);
            ChargeFits(s', misses + Missed(s, ChargeTask(r), id, pc), r, id, pc')
  {
    hide Opened, WithAnswer;
  }

  lemma RefundActFits(s: Service, p: string, pc: Pc, up: bool)
    requires RefundFits(s, p, pc)
    ensures var (s', pc') := RefundAct(s, p, pc, up);
            RefundFits(s', p, pc') && s'.payments.Keys == s.payments.Keys
  {
  }

  lemma ActFits(s: Service, misses: set<string>, t: Task, id: string, pc: Pc, up: bool)
    requires Fits(s, misses, t, id, pc)
    ensures var (s', pc') := Act(s, t, id, pc, up);
            Fits(s', misses + Missed(s, t, id, pc), t, id, pc')
  {
    hide ChargeFits, ChargeAct, RefundFits, RefundAct;
    match t
    case ChargeTask(r) => ChargeActFits(s, misses, r, id, pc, up);
    case RefundTask(p) => RefundActFits(s, p, pc, up);
  }

  lemma ChargeSparesCharge(s: Service, misses: set<string>, r: Request, id: string, pc: Pc, up: bool,
                           q: Request, other: string, pc': Pc)
    requires other != id && ChargeFits(s, misses, r, id, pc) && ChargeFits(s, misses, q, other, pc')
    ensures ChargeFits(ChargeAct(s, r, id, pc, up).0, misses + Missed(s, ChargeTask(r), id, pc), q, other, pc')
  {
    hide Opened, WithAnswer;
  }

  lemma ChargeSparesRefund(s: Service, misses: set<string>, r: Request, id: string, pc: Pc, up: bool,
                           p: string, other: string, pc': Pc)
    requires other != id && ChargeFits(s, misses, r, id, pc) && Fits(s, misses, RefundTask(p), other, pc')
    ensures Fits(ChargeAct(s, r, id, pc, up).0, misses + Missed(s, ChargeTask(r), id, pc), RefundTask(p), other, pc')
  {
  }

  lemma RefundSparesCharge(s: Service, misses: set<string>, p: string, pc: Pc, up: bool,
                           q: Request, other: string, pc': Pc)
    requires RefundFits(s, p, pc) && ChargeFits(s, misses, q, other, pc')
    ensures ChargeFits(RefundAct(s, p, pc, up).0, misses, q, other, pc')
  {
  }

  lemma RefundSparesRefund(s: Service, p: string, pc: Pc, up: bool, p': string, pc': Pc)
    requires RefundFits(s, p, pc) && RefundFits(s, p', pc')
    ensures RefundFits(RefundAct(s, p, pc, up).0, p', pc')
    ensures RefundAct(s, p, pc, up).0.payments.Keys == s.payments.Keys
  {
  }

  /** What one call does leaves every other call where it fits. */
  lemma ActFitsOther(s: Service, misses: set<string>, t: Task, id: string, pc: Pc, up: bool,
                     u: Task, other: string, pc': Pc)
    requires other != id && Fits(s, misses, t, id, pc) && Fits(s, misses, u, other, pc')
    ensures Fits(Act(s, t, id, pc, up).0, misses + Missed(s, t, id, pc), u, other, pc')
  {
    hide ChargeFits, RefundFits, ChargeAct, RefundAct;
    match (t, u)
    case (ChargeTask(r), ChargeTask(q)) => ChargeSparesCharge(s, misses, r, id, pc, up, q, other, pc');
    case (ChargeTask(r), RefundTask(p)) => ChargeSparesRefund(s, misses, r, id, pc, up, p, other, pc');
    case (RefundTask(p), ChargeTask(q)) =>
      assert misses + {} == misses;
      RefundSparesCharge(s, misses, p, pc, up, q, other, pc');
    case (RefundTask(p), RefundTask(p')) =>
      assert misses + {} == misses;
      RefundSparesRefund(s, p, pc, up, p', pc');
  }

  lemma TakeKeeps(tasks: Tasks, s: System, misses: set<string>, turn: Turn)
    requires Inv(tasks, s, misses)
    ensures Inv(tasks, Take(tasks, s, turn), misses + MissedBy(tasks, s, turn))
  {
    hide Fits, Shaped, Act;
    if turn.id in tasks {
      var t, now := Take(tasks, s, turn), misses + MissedBy(tasks, s, turn);
      var id, task := turn.id, tasks[turn.id];
      ActShaped(tasks, s.service, misses, id, s.pcs[id], turn.up);
      ActFits(s.service, misses, task, id, s.pcs[id], turn.up);
      forall other | other in tasks
        ensures Fits(t.service, now, tasks[other], other, t.pcs[other])
      {
        if other != id {
          ActFitsOther(s.service, misses, task, id, s.pcs[id], turn.up, tasks[other], other, s.pcs[other]);
        }
      }
    } else {
      assert misses + {} == misses;
    }
  }

  lemma InitFits(tasks: Tasks)
    ensures Inv(tasks, Init(tasks), {})
  {
  }

  /** Over every interleaving: a charge with a key stores a payment only as the key's owner or after a miss, and
      each stored payment is what its own charge and its refunds have made of it so far. */
  lemma {:induction false} RunKeepsInv(tasks: Tasks, run: seq<Turn>)
    ensures Inv(tasks, Run(tasks, run), Misses(tasks, run))
  {
    hide Inv, Take, Init, MissedBy;
    if run == [] {
      InitFits(tasks);
    } else {
      var before := run[..|run| - 1];
      RunKeepsInv(tasks, before);
      TakeKeeps(tasks, Run(tasks, before), Misses(tasks, before), run[|run| - 1]);
    }
  }
}

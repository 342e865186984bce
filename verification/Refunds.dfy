/** Payment intents and refunds of src/routes/payments.ts, and the provider call of src/services/stripe.ts. */
module Refunds {
  import opened Prelude
  import opened Transactions
  import opened Idempotency

  type PaymentId = nat

  datatype PayStatus =
    | RequiresPaymentMethod | RequiresAction | Processing | Succeeded | Canceled | PartiallyRefunded | FullyRefunded

  type CompanyId = nat

  datatype Payment = Payment(company: CompanyId, status: PayStatus, amount: int, refunded: int, hasProvider: bool)

  /** `key` is the slot of the request that asked for it. */
  datatype Refund = Refund(key: Slot, payment: PaymentId, amount: int, settled: bool)

  datatype Ledger = Ledger(payments: map<PaymentId, Payment>, refunds: seq<Refund>)

  datatype InvoiceStatus = Open | Paid | Void

  datatype Invoice = Invoice(status: InvoiceStatus, total: int, paid: int)

  // ---- starting a payment ----

  /** What the invoice still owes, or the refusal. */
  function AmountDue(invoice: Invoice): (r: Outcome<int>)
    ensures r.Answer? <==> invoice.status == Open && invoice.paid < invoice.total
    ensures r.Answer? ==> 0 < r.value && invoice.paid + r.value == invoice.total
  {
    if invoice.status != Open then Failure
    else if invoice.total - invoice.paid <= 0 then Failure
    else Answer(invoice.total - invoice.paid)
  }

  /**
   * `id` is the provider's intent and `intentStatus` its answer, already mapped; it never says refunded. An intent
   * that has a payment already, from the webhook or from an earlier request, only overwrites its status.
   */
  function Intent(l: Ledger, company: CompanyId, id: PaymentId, invoice: Invoice, intentStatus: PayStatus): Ledger {
    if AmountDue(invoice) == Failure then l
    else if id in l.payments then l.(payments := l.payments[id := l.payments[id].(status := intentStatus)])
    else l.(payments := l.payments[id := Payment(company, intentStatus, AmountDue(invoice).value, 0, true)])
  }

  /**
   * The webhook of an intent: a payment that succeeded keeps its status; one not seen before is recorded, unless the
   * intent names no company.
   */
  function Confirmed(l: Ledger, company: Option<CompanyId>, id: PaymentId, status: PayStatus, charge: int): Ledger {
    if id !in l.payments then
      if company == None then l
      else l.(payments := l.payments[id := Payment(company.value, status, charge, 0, true)])
    else if l.payments[id].status == Succeeded then l
    else l.(payments := l.payments[id := l.payments[id].(status := status)])
  }

  // ---- refunding ----

  predicate Refundable(p: Payment) {
    p.status in {Succeeded, PartiallyRefunded} && p.hasProvider
  }

  /** The body of the request is a positive whole number of cents, or leaves the amount out. */
  predicate ValidAmount(requested: Option<int>) {
    requested.Some? ==> requested.value > 0
  }

  /** The amount a request refunds, or Failure: each check of the handler throws before anything is written. */
  function Granted(l: Ledger, company: CompanyId, id: PaymentId, requested: Option<int>): Outcome<int> {
    if !ValidAmount(requested) || id !in l.payments || l.payments[id].company != company then Failure
    else if !Refundable(l.payments[id]) then Failure
    else
      var left := l.payments[id].amount - l.payments[id].refunded;
      if requested.GetOr(left) > left then Failure else Answer(requested.GetOr(left))
  }

  /** `...(amountCents ? { amount } : {})`: a zero amount is left out, and the provider refunds everything. */
  function Sent(amount: int): Option<int> {
    if amount != 0 then Some(amount) else None
  }

  function StatusAfter(p: Payment, amount: int): PayStatus {
    if p.refunded + amount >= p.amount then FullyRefunded else PartiallyRefunded
  }

  function Keys(refunds: seq<Refund>): set<Slot> {
    set r | r in refunds :: r.key
  }

  /**
   * `provider` is told the amount and answers whether the refund already settled, or throws. The insert of the
   * record throws for an amount that is not positive and for a key that has a record.
   */
  function Refunding(l: Ledger, key: Slot, id: PaymentId, requested: Option<int>,
      provider: Option<int> -> Outcome<bool>): (Ledger, Outcome<Response<int>>)
  {
    var granted := Granted(l, key.company, id, requested);
    if granted == Failure || provider(Sent(granted.value)) == Failure then (l, Failure)
    else if granted.value <= 0 || key in Keys(l.refunds) then (l, Failure)
    else
      var p, amount := l.payments[id], granted.value;
      (Ledger(l.payments[id := p.(refunded := p.refunded + amount, status := StatusAfter(p, amount))],
              l.refunds + [Refund(key, id, amount, provider(Sent(amount)).value)]),
       Answer(Response(201, amount)))
  }

  ghost predicate OnlyPayment(after: map<PaymentId, Payment>, before: map<PaymentId, Payment>, id: PaymentId) {
    && after.Keys == before.Keys + {id}
    && forall other :: other in before && other != id ==> after[other] == before[other]
  }

  class Books {
    var payments: map<PaymentId, Payment>
    var refunds: seq<Refund>

    constructor (l: Ledger)
      ensures payments == l.payments && refunds == l.refunds
    {
      payments, refunds := l.payments, l.refunds;
    }

    method CreateIntent(company: CompanyId, id: PaymentId, invoice: Invoice, intentStatus: PayStatus)
        returns (due: Outcome<int>)
      modifies this
      ensures Ledger(payments, refunds)
           == Intent(Ledger(old(payments), old(refunds)), company, id, invoice, intentStatus)
      ensures due.Answer? <==> invoice.status == Open && invoice.paid < invoice.total
      ensures due.Answer? ==> due.value == invoice.total - invoice.paid
      ensures due == Failure ==> payments == old(payments)
      ensures due.Answer? ==>
                && OnlyPayment(payments, old(payments), id) && payments[id].status == intentStatus
                && if id in old(payments) then payments[id] == old(payments)[id].(status := intentStatus)
                   else && payments[id].company == company && payments[id].amount == due.value
                        && payments[id].refunded == 0 && payments[id].hasProvider
      ensures refunds == old(refunds)
    {
      if invoice.status == Paid {
        return Failure;
      }
      if invoice.status == Void {
        return Failure;
      }
      var outstanding := invoice.total - invoice.paid;
      if outstanding <= 0 {
        return Failure;
      }
      if id in payments {
        payments := payments[id := payments[id].(status := intentStatus)];
      } else {
        payments := payments[id := Payment(company, intentStatus, outstanding, 0, true)];
      }
      return Answer(outstanding);
    }

    /** The webhook of an intent. Failure is the throw for an intent that nobody can be found for. */
    method ApplyPaymentIntent(company: Option<CompanyId>, id: PaymentId, status: PayStatus, charge: int)
        returns (r: Outcome<bool>)
      modifies this
      ensures Ledger(payments, refunds) == Confirmed(Ledger(old(payments), old(refunds)), company, id, status, charge)
      ensures r == Failure <==> id !in old(payments) && company == None
      ensures r == Answer(false) <==> id in old(payments) && old(payments)[id].status == Succeeded
      ensures r != Answer(true) ==> payments == old(payments)
      ensures r == Answer(true) ==>
                && OnlyPayment(payments, old(payments), id) && payments[id].status == status
                && if id in old(payments) then payments[id] == old(payments)[id].(status := status)
                   else && Some(payments[id].company) == company && payments[id].amount == charge
                        && payments[id].refunded == 0 && payments[id].hasProvider
      ensures refunds == old(refunds)
    {
      if id in payments {
        if payments[id].status == Succeeded {
          return Answer(false);
        }
        payments := payments[id := payments[id].(status := status)];
        return Answer(true);
      }
      if company == None {
        return Failure;
      }
      payments := payments[id := Payment(company.value, status, charge, 0, true)];
      return Answer(true);
    }

    method RefundPayment(key: Slot, id: PaymentId, amountCents: Option<int>, provider: Option<int> -> Outcome<bool>)
        returns (r: Outcome<Response<int>>)
      modifies this
      ensures (Ledger(payments, refunds), r)
           == Refunding(Ledger(old(payments), old(refunds)), key, id, amountCents, provider)
      ensures r == Failure ==> payments == old(payments) && refunds == old(refunds)
      ensures id in old(payments) && old(payments)[id].company == key.company && old(payments)[id].hasProvider
              && old(payments)[id].status in {Succeeded, PartiallyRefunded}
              && key !in Keys(old(refunds))
              && 0 < amountCents.GetOr(old(payments)[id].amount - old(payments)[id].refunded)
                   <= old(payments)[id].amount - old(payments)[id].refunded
              && provider(Some(amountCents.GetOr(old(payments)[id].amount - old(payments)[id].refunded))).Answer?
              ==> r.Answer?
      ensures r.Answer? ==>
                && r.value.status == 201 && id in old(payments)
                && var before, amount := old(payments)[id], r.value.body;
                && before.company == key.company && before.hasProvider
                && before.status in {Succeeded, PartiallyRefunded}
                && 0 < amount <= before.amount - before.refunded
                && amount == (if amountCents.Some? then amountCents.value else before.amount - before.refunded)
                && key !in Keys(old(refunds)) && provider(Some(amount)).Answer?
                && refunds == old(refunds) + [Refund(key, id, amount, provider(Some(amount)).value)]
                && OnlyPayment(payments, old(payments), id)
                && payments[id].refunded == before.refunded + amount && payments[id].amount == before.amount
                && payments[id].company == before.company && payments[id].hasProvider
                && payments[id].status
                   == (if payments[id].refunded == before.amount then FullyRefunded else PartiallyRefunded)
    {
      if !ValidAmount(amountCents) || id !in payments || payments[id].company != key.company {
        return Failure;
      }
      var payment := payments[id];
      if payment.status != Succeeded && payment.status != PartiallyRefunded {
        return Failure;
      }
      if !payment.hasProvider {
        return Failure;
      }
      var alreadyRefunded := payment.refunded;
      var refundable := payment.amount - alreadyRefunded;
      var amount := amountCents.GetOr(refundable);
      if amount > refundable {
        return Failure;
      }
      var refund := provider(Sent(amount));
      if refund == Failure {
        return Failure;
      }
      if amount <= 0 || key in Keys(refunds) {
        return Failure;
      }
      refunds := refunds + [Refund(key, id, amount, refund.value)];
      var status := StatusAfter(payment, amount);
      payments := payments[id := payment.(refunded := payment.refunded + amount, status := status)];
      return Answer(Response(201, amount));
    }
  }

  /** For a payment nothing was refunded from, the truthiness test is harmless exactly when its amount is positive. */
  lemma TruthinessIsSafeIff(l: Ledger, id: PaymentId)
    requires id in l.payments && Refundable(l.payments[id]) && l.payments[id].refunded == 0
    ensures var company := l.payments[id].company;
            l.payments[id].amount > 0 <==>
              forall requested :: Granted(l, company, id, requested).Answer? ==>
                Granted(l, company, id, requested).value > 0 && Sent(Granted(l, company, id, requested).value).Some?
  {
    assert Granted(l, l.payments[id].company, id, None).Answer?;
  }

  /** The status says whether none, some or all of the amount is refunded. */
  predicate StatusMatches(p: Payment) {
    match p.status
    case FullyRefunded => p.refunded == p.amount
    case PartiallyRefunded => 0 < p.refunded < p.amount
    case _ => p.refunded == 0
  }

  /**
   * A request is granted exactly when the payment is the company's own and refundable and the amount, if given, is
   * positive and still there; while its status is right, a payment refunded in full grants nothing.
   */
  lemma GrantedIff(l: Ledger, company: CompanyId, id: PaymentId, requested: Option<int>)
    ensures Granted(l, company, id, requested).Answer? <==>
              (&& id in l.payments && l.payments[id].company == company && Refundable(l.payments[id])
               && (requested.Some? ==> 0 < requested.value <= l.payments[id].amount - l.payments[id].refunded))
    ensures id in l.payments ==>
              var p := l.payments[id];
              p.amount > 0 && StatusMatches(p) && p.refunded == p.amount ==>
                Granted(l, company, id, requested) == Failure
  {
  }

  // ---- under an idempotency key ----

  function RefundOperation(key: Slot, id: PaymentId, requested: Option<int>, provider: Option<int> -> Outcome<bool>)
      : Ledger -> (Ledger, Outcome<Response<int>>)
  {
    l => Refunding(l, key, id, requested, provider)
  }

  /**
   * Of two refunds asked for under one key, one after the other, the ledger records the first if it goes through.
   * The second then replays its answer or is refused for its different body, whatever amount it asks for.
   */
  lemma SecondRefundReplays(db: Db<Ledger, int>, p: Request, q: Request, id: PaymentId, first: Option<int>,
      second: Option<int>, provider: Option<int> -> Outcome<bool>, now: int, later: int)
    requires AllCompleted(db.rows) && p.Guarded() && |p.key.value| <= MAX_KEY && q.Guarded()
    requires q.ItsSlot() == p.ItsSlot() && p.ItsSlot() !in db.rows && id in db.world.payments
    ensures var key := p.ItsSlot();
            var after := Committed(db, Body(db, p, RefundOperation(key, id, first, provider), now));
            var again := Committed(after, Body(after, q, RefundOperation(key, id, second, provider), later));
            var done := Refunding(db.world, key, id, first, provider);
            if done.1.Answer?
            then && again == after
                 && again.world.payments[id].refunded == db.world.payments[id].refunded + done.1.value.body
                 && Ending(after, q, RefundOperation(key, id, second, provider), later).1
                    == if q.hash == p.hash then Replayed(done.1.value) else Thrown(DifferentBody)
            else after == db
  {
    var key := p.ItsSlot();
    SecondRequest(db, p, RefundOperation(key, id, first, provider), now, q,
        RefundOperation(key, id, second, provider), later);
  }
}

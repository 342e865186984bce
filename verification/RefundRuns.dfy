/**
 * Refund requests over any run, beside a provider that remembers the keys it was sent. A call may reach the provider
 * late, several times or never, and the transaction that made it may be lost after it; the provider keeps what it did.
 */
module RefundRuns {
  import opened Prelude
  import opened Transactions
  import opened Idempotency
  import opened Refunds
  import opened PaymentProvider

  const REFUND_ENDPOINT := "POST /v1/payments/:id/refund"

  // ---- the system ----

  /** `calls` are the calls ever sent to the provider. */
  datatype World = World(rows: Rows<int>, ledger: Ledger, provider: Provider, calls: set<Call>)

  /** The reason goes to the provider; a note does not, but is part of the body that `hash` stands for. */
  datatype Ask = Ask(company: CompanyId, key: string, hash: Hash, id: PaymentId, requested: Option<int>,
                     reason: Option<Reason>) {
    function AsRequest(): Request {
      Idempotency.Request(company, REFUND_ENDPOINT, Some(key), hash)
    }

    function ItsSlot(): Slot {
      Idempotency.Slot(company, REFUND_ENDPOINT, key)
    }
  }

  /** A request that is not `completed` is lost somewhere after its call was sent; the call may still arrive. */
  datatype Event =
    | Start(company: CompanyId, id: PaymentId, invoice: Invoice, intentStatus: PayStatus)
    | Confirm(named: Option<CompanyId>, id: PaymentId, status: PayStatus)
    | Post(ask: Ask, completed: bool, settles: bool, now: int)
    | Arrive(call: Call, settles: bool)
    | Cleanup(now: int)

  /** The provider's own statuses of an intent do not speak of refunds, and an intent is for the amount due. */
  predicate Enabled(w: World, e: Event) {
    match e
    case Start(_, id, invoice, status) =>
      && status !in {PartiallyRefunded, FullyRefunded} && id in w.provider.charges
      && (id !in w.ledger.payments && AmountDue(invoice).Answer? ==> AmountDue(invoice).value == w.provider.charges[id])
    case Confirm(_, id, status) => status !in {PartiallyRefunded, FullyRefunded} && id in w.provider.charges
    case Post(_, _, _, _) => true
    case Arrive(call, _) => call in w.calls
    case Cleanup(_) => true
  }

  /** The call a request makes, if it gets that far: a fresh, valid key and an amount that is granted. */
  function CallOf(w: World, a: Ask): Option<Call> {
    if a.key == "" || |a.key| > MAX_KEY || a.ItsSlot() in w.rows then None
    else if Granted(w.ledger, a.company, a.id, a.requested) == Failure then None
    else Some(Call(a.ItsSlot(), a.id, Sent(Granted(w.ledger, a.company, a.id, a.requested).value), a.reason))
  }

  /** The provider as the handler sees it: the amount goes out, and whether it settled comes back. */
  function Asking(p: Provider, a: Ask, settles: bool): Option<int> -> Outcome<bool> {
    sent =>
      match ProviderAnswer(p, Call(a.ItsSlot(), a.id, sent, a.reason), settles)
      case Answer(m) => Answer(m.settled)
      case Failure => Failure
  }

  function Refunded(w: World, a: Ask, completed: bool, settles: bool, now: int): World {
    match CallOf(w, a)
    case None => w
    case Some(call) =>
      if !completed then w.(calls := w.calls + {call})
      else
        var db := Db(w.rows, w.ledger);
        var operation := RefundOperation(a.ItsSlot(), a.id, a.requested, Asking(w.provider, a, settles));
        var after := Committed(db, Body(db, a.AsRequest(), operation, now));
        World(after.rows, after.world, Executed(w.provider, call, settles), w.calls + {call})
  }

  function Next(w: World, e: Event): World
    requires Enabled(w, e)
  {
    match e
    case Start(company, id, invoice, status) => w.(ledger := Intent(w.ledger, company, id, invoice, status))
    case Confirm(named, id, status) =>
      w.(ledger := Confirmed(w.ledger, named, id, status, w.provider.charges[id]))
    case Post(ask, completed, settles, now) => Refunded(w, ask, completed, settles, now)
    case Arrive(call, settles) => w.(provider := Executed(w.provider, call, settles))
    case Cleanup(now) => w.(rows := Unexpired(w.rows, now))
  }

  ghost predicate Fresh(w: World) {
    && w.rows == map[] && w.ledger == Ledger(map[], []) && w.provider.moves == [] && w.calls == {}
    && forall id :: id in w.provider.charges ==> w.provider.charges[id] > 0
  }

  ghost predicate Trace(evs: seq<Event>, tr: seq<World>) {
    && |tr| == |evs| + 1
    && Fresh(tr[0])
    && forall i :: 0 <= i < |evs| ==> Enabled(tr[i], evs[i]) && tr[i + 1] == Next(tr[i], evs[i])
  }

  // ---- sums ----

  /** What the ledger says was refunded of a payment. */
  function SumTo(refunds: seq<Refund>, n: nat, id: PaymentId): int
    requires n <= |refunds|
  {
    if n == 0 then 0 else SumTo(refunds, n - 1, id) + if refunds[n - 1].payment == id then refunds[n - 1].amount else 0
  }

  function Sum(refunds: seq<Refund>, id: PaymentId): int {
    SumTo(refunds, |refunds|, id)
  }

  lemma {:induction false} SumPrefix(a: seq<Refund>, b: seq<Refund>, n: nat, id: PaymentId)
    requires n <= |a| && n <= |b| && forall i :: 0 <= i < n ==> a[i] == b[i]
    ensures SumTo(a, n, id) == SumTo(b, n, id)
  {
    if n > 0 {
      SumPrefix(a, b, n - 1, id);
    }
  }

  lemma SumSnoc(refunds: seq<Refund>, r: Refund, id: PaymentId)
    ensures Sum(refunds + [r], id) == Sum(refunds, id) + if r.payment == id then r.amount else 0
    ensures Keys(refunds + [r]) == Keys(refunds) + {r.key}
  {
    SumPrefix(refunds + [r], refunds, |refunds|, id);
    assert forall x :: x in refunds + [r] <==> x in refunds || x == r;
  }

  // ---- what every run keeps ----

  /** A payment's refunded total is the sum of its refunds, within its amount, and its status never overstates it. */
  ghost predicate SumsHold(l: Ledger) {
    && (forall i :: 0 <= i < |l.refunds| ==> l.refunds[i].payment in l.payments && l.refunds[i].amount > 0)
    && (forall id :: id in l.payments ==>
          && 0 < l.payments[id].amount && 0 <= l.payments[id].refunded <= l.payments[id].amount
          && l.payments[id].refunded == Sum(l.refunds, id)
          && (l.payments[id].status in {PartiallyRefunded, FullyRefunded} ==> StatusMatches(l.payments[id])))
  }

  ghost predicate IsRecordOf(r: Refund, m: Move) {
    r.key == m.call.key && r.payment == m.call.payment && r.amount == m.amount && r.settled == m.settled
  }

  ghost predicate HasMove(r: Refund, moves: seq<Move>) {
    exists j :: 0 <= j < |moves| && IsRecordOf(r, moves[j])
  }

  /** Every refund on record was moved, as recorded, and no key is on record twice. */
  ghost predicate RecordsHold(refunds: seq<Refund>, moves: seq<Move>) {
    && (forall i :: 0 <= i < |refunds| ==> HasMove(refunds[i], moves))
    && (forall i, j :: 0 <= i < j < |refunds| ==> refunds[i].key != refunds[j].key)
    && (forall id :: Sum(refunds, id) == MovedUnder(moves, |moves|, Keys(refunds), id))
  }

  ghost predicate AmountsAgree(l: Ledger, p: Provider) {
    forall id :: id in l.payments ==> id in p.charges && l.payments[id].amount == p.charges[id]
  }

  /** Calls are sent for payments on record, by the company they belong to; what was moved was called for. */
  ghost predicate KnownCalls(calls: set<Call>, l: Ledger, moves: seq<Move>) {
    && (forall c :: c in calls ==> c.payment in l.payments && l.payments[c.payment].company == c.key.company)
    && (forall i :: 0 <= i < |moves| ==> moves[i].call in calls)
  }

  /** A stored answer stands for a refund on record. */
  ghost predicate RowsHold(rows: Rows<int>, refunds: seq<Refund>) {
    AllCompleted(rows) && forall slot :: slot in rows ==> slot in Keys(refunds)
  }

  ghost predicate Consistent(w: World) {
    && SumsHold(w.ledger) && MovesHold(w.provider) && RecordsHold(w.ledger.refunds, w.provider.moves)
    && AmountsAgree(w.ledger, w.provider) && CallsHold(w.calls, w.provider) && RowsHold(w.rows, w.ledger.refunds)
    && KnownCalls(w.calls, w.ledger, w.provider.moves)
  }

  lemma StatusMatchesIff(l: Ledger, id: PaymentId)
    requires SumsHold(l) && id in l.payments
    ensures var p := l.payments[id];
            StatusMatches(p) <==> p.refunded == 0 || p.status in {PartiallyRefunded, FullyRefunded}
  {
  }

  /** No more is recorded than was moved, no more moved than was charged; equal when every move is recorded. */
  lemma RecordedWithinMoved(w: World, id: PaymentId)
    requires Consistent(w) && id in w.ledger.payments
    ensures var moves, refunds := w.provider.moves, w.ledger.refunds;
            && 0 <= w.ledger.payments[id].refunded == Sum(refunds, id)
            && Sum(refunds, id) <= AmountMoved(moves, |moves|, id) <= w.ledger.payments[id].amount
            && (Sum(refunds, id) == AmountMoved(moves, |moves|, id) <==>
                  forall i :: 0 <= i < |moves| && moves[i].call.payment == id ==> moves[i].call.key in Keys(refunds))
    ensures var p := w.ledger.payments[id];
            StatusMatches(p) <==> p.refunded == 0 || p.status in {PartiallyRefunded, FullyRefunded}
  {
    hide CallsHold, RowsHold, KnownCalls, HasMove, StatusMatches;
    StatusMatchesIff(w.ledger, id);
    MovedUnderAll(w.provider.moves, |w.provider.moves|, Keys(w.ledger.refunds), id);
  }

  /** There is room in the ledger for a move that is not on record. */
  lemma RoomForMove(w: World, i: nat)
    requires Consistent(w) && i < |w.provider.moves| && w.provider.moves[i].call.key !in Keys(w.ledger.refunds)
    ensures var m := w.provider.moves[i];
            Sum(w.ledger.refunds, m.call.payment) + m.amount
              <= AmountMoved(w.provider.moves, |w.provider.moves|, m.call.payment)
  {
    var moves, keys, m := w.provider.moves, Keys(w.ledger.refunds), w.provider.moves[i];
    OneMoveUnder(moves, |moves|, keys, i, m.call.payment);
    MovedUnderAll(moves, |moves|, keys + {m.call.key}, m.call.payment);
  }

  // ---- the steps ----

  lemma RecordsSurvive(refunds: seq<Refund>, p: Provider, c: Call, settles: bool)
    requires MovesHold(p) && CallsHold({c}, p) && RecordsHold(refunds, p.moves)
    ensures RecordsHold(refunds, Executed(p, c, settles).moves)
  {
    hide MovesHold, CallsHold, ProviderAnswer;
    var moves := Executed(p, c, settles).moves;
    ExecutedOnce(p, c, settles);
    forall i | 0 <= i < |refunds| ensures HasMove(refunds[i], moves) {
      var j :| 0 <= j < |p.moves| && IsRecordOf(refunds[i], p.moves[j]);
      assert IsRecordOf(refunds[i], moves[j]);
    }
    if moves != p.moves {
      forall id ensures Sum(refunds, id) == MovedUnder(moves, |moves|, Keys(refunds), id) {
        MovesPrefix(p.moves, moves, |p.moves|, Keys(refunds), id);
        KeyNotOnRecord(refunds, p.moves, c.key);
      }
    }
  }

  lemma KeyNotOnRecord(refunds: seq<Refund>, moves: seq<Move>, key: Slot)
    requires RecordsHold(refunds, moves) && MoveOf(moves, |moves|, key) == None
    ensures key !in Keys(refunds)
  {
    forall i | 0 <= i < |refunds| ensures refunds[i].key != key {
      assert HasMove(refunds[i], moves);
    }
  }

  /** The call of a request names what was granted, unless everything is refunded already. */
  lemma CallHolds(w: World, a: Ask)
    requires Consistent(w) && CallOf(w, a).Some?
    ensures CallsHold(w.calls + {CallOf(w, a).value}, w.provider)
    ensures KnownCalls(w.calls + {CallOf(w, a).value}, w.ledger, w.provider.moves)
    ensures var granted := Granted(w.ledger, a.company, a.id, a.requested).value;
            && a.id in w.ledger.payments && Granted(w.ledger, a.company, a.id, a.requested).Answer?
            && 0 <= granted <= w.ledger.payments[a.id].amount - w.ledger.payments[a.id].refunded
            && CallOf(w, a).value == Call(a.ItsSlot(), a.id, if granted == 0 then None else Some(granted), a.reason)
  {
    hide SumTo, MovesHold, RecordsHold;
    RecordedWithinMoved(w, a.id);
  }

  /** A move not on record is put on record. */
  lemma RecordAdded(before: seq<Refund>, moves: seq<Move>, r: Refund, i: nat)
    requires EachKeyOnce(moves) && RecordsHold(before, moves) && i < |moves| && IsRecordOf(r, moves[i])
    requires r.key !in Keys(before)
    ensures RecordsHold(before + [r], moves)
  {
    var after := before + [r];
    forall n | 0 <= n < |after| ensures HasMove(after[n], moves) {
      if n < |before| {
        assert HasMove(before[n], moves);
      }
    }
    forall n | 0 <= n < |before| ensures before[n].key != r.key {
      assert before[n] in before;
    }
    forall id ensures Sum(after, id) == MovedUnder(moves, |moves|, Keys(after), id) {
      SumSnoc(before, r, id);
      OneMoveUnder(moves, |moves|, Keys(before), i, id);
    }
  }

  /** What a completed request does: it records what the provider did under its key, once, or writes nothing. */
  lemma CompletedIs(w: World, a: Ask, settles: bool, now: int)
    requires CallOf(w, a).Some?
    ensures var call, granted := CallOf(w, a).value, Granted(w.ledger, a.company, a.id, a.requested).value;
            var answer, w' := ProviderAnswer(w.provider, call, settles), Refunded(w, a, true, settles, now);
            var row := Row(a.hash, Completed, Some(Response(201, granted)), now + RETENTION);
            && w'.provider == Executed(w.provider, call, settles) && w'.calls == w.calls + {call}
            && if answer.Answer? && granted > 0 && call.key !in Keys(w.ledger.refunds)
               then && w'.rows == w.rows[call.key := row]
                    && w'.ledger == Recorded(w.ledger, Refund(call.key, a.id, granted, answer.value.settled))
               else w'.rows == w.rows && w'.ledger == w.ledger
  {
    hide ProviderAnswer, Executed, Granted, StatusAfter, Sent;
    assert a.id in w.ledger.payments by { InLedger(w.ledger, a.company, a.id, a.requested); }
  }

  lemma InLedger(l: Ledger, company: CompanyId, id: PaymentId, requested: Option<int>)
    requires Granted(l, company, id, requested).Answer?
    ensures id in l.payments && l.payments[id].company == company
    ensures Granted(l, company, id, requested).value <= l.payments[id].amount - l.payments[id].refunded
  {
  }

  function Recorded(l: Ledger, r: Refund): Ledger
    requires r.payment in l.payments
  {
    var p := l.payments[r.payment];
    Ledger(l.payments[r.payment := p.(refunded := p.refunded + r.amount, status := StatusAfter(p, r.amount))],
           l.refunds + [r])
  }

  lemma RecordedSums(l: Ledger, r: Refund)
    requires SumsHold(l) && r.payment in l.payments
             && 0 < r.amount <= l.payments[r.payment].amount - l.payments[r.payment].refunded
    ensures SumsHold(Recorded(l, r))
  {
    hide SumTo;
    var l' := Recorded(l, r);
    forall id | id in l'.payments ensures l'.payments[id].refunded == Sum(l'.refunds, id) {
      SumSnoc(l.refunds, r, id);
    }
  }

  lemma KnownSurvive(calls: set<Call>, l: Ledger, p: Provider, c: Call, settles: bool)
    requires MovesHold(p) && CallsHold(calls, p) && c in calls && KnownCalls(calls, l, p.moves)
    ensures KnownCalls(calls, l, Executed(p, c, settles).moves)
  {
    hide MovesHold, Executed, ProviderAnswer;
    assert CallsHold({c}, p);
    ExecutedOnce(p, c, settles);
  }

  /** The provider's part of a step. */
  lemma CallKeepsConsistent(w: World, calls: set<Call>, call: Call, settles: bool)
    requires Consistent(w) && CallsHold(calls, w.provider) && call in calls
    requires KnownCalls(calls, w.ledger, w.provider.moves)
    ensures Consistent(w.(provider := Executed(w.provider, call, settles), calls := calls))
  {
    hide MovesHold, RecordsHold, SumsHold, Executed, ProviderAnswer, RowsHold, KnownCalls;
    KnownSurvive(calls, w.ledger, w.provider, call, settles);
    assert CallsHold({call}, w.provider);
    ExecutedOnce(w.provider, call, settles);
    RecordsSurvive(w.ledger.refunds, w.provider, call, settles);
    CallsSurvive(calls, w.provider, call, settles);
  }

  /** The ledger's part of a step. */
  lemma RecordKeepsConsistent(w: World, rows: Rows<int>, r: Refund, m: Move)
    requires Consistent(w) && RowsHold(rows, w.ledger.refunds + [r]) && m in w.provider.moves && IsRecordOf(r, m)
    requires r.key !in Keys(w.ledger.refunds) && r.payment in w.ledger.payments
    requires 0 < r.amount <= w.ledger.payments[r.payment].amount - w.ledger.payments[r.payment].refunded
    ensures Consistent(w.(rows := rows, ledger := Recorded(w.ledger, r)))
  {
    hide MovesHold, RecordsHold, SumsHold, IsRecordOf, RowsHold;
    RecordedSums(w.ledger, r);
    RecordAddedTo(w.ledger.refunds, w.provider, r, m);
  }

  lemma RefundKeepsConsistent(w: World, a: Ask, completed: bool, settles: bool, now: int)
    requires Consistent(w)
    ensures Consistent(Refunded(w, a, completed, settles, now))
  {
    if CallOf(w, a).Some? {
      CallHolds(w, a);
      if completed {
        CompletedIs(w, a, settles, now);
        CompletedKeepsConsistent(w, a, settles, now);
      } else {
        hide MovesHold, RecordsHold, SumsHold, CallOf, Granted, KnownCalls;
      }
    }
  }

  lemma CompletedKeepsConsistent(w: World, a: Ask, settles: bool, now: int)
    requires Consistent(w) && CallOf(w, a).Some?
    ensures Consistent(Refunded(w, a, true, settles, now))
  {
    hide CallOf, Refunded, Granted, ProviderAnswer, Executed, Recorded, Keys;
    hide SumsHold, MovesHold, RecordsHold, CallsHold, KnownCalls;
    CallHolds(w, a);
    CompletedIs(w, a, settles, now);
    var call, granted := CallOf(w, a).value, Granted(w.ledger, a.company, a.id, a.requested).value;
    var answer, w' := ProviderAnswer(w.provider, call, settles), Refunded(w, a, true, settles, now);
    CallKeepsConsistent(w, w.calls + {call}, call, settles);
    var called := w.(provider := w'.provider, calls := w'.calls);
    if answer.Answer? && granted > 0 && call.key !in Keys(w.ledger.refunds) {
      AnsweredIs(w, call, settles);
      var r := Refund(call.key, a.id, granted, answer.value.settled);
      RowRecorded(w.rows, w.ledger.refunds, r, Row(a.hash, Completed, Some(Response(201, granted)), now + RETENTION));
      RecordKeepsConsistent(called, w'.rows, r, answer.value);
      assert w' == called.(rows := w'.rows, ledger := Recorded(w.ledger, r));
    } else {
      assert w' == called;
    }
  }

  lemma RowRecorded(rows: Rows<int>, refunds: seq<Refund>, r: Refund, row: Row<int>)
    requires RowsHold(rows, refunds) && row.status == Completed && row.response.Some?
    ensures RowsHold(rows[r.key := row], refunds + [r])
  {
    SumSnoc(refunds, r, r.payment);
  }

  lemma AnsweredIs(w: World, call: Call, settles: bool)
    requires Consistent(w) && CallsHold(w.calls + {call}, w.provider)
    requires ProviderAnswer(w.provider, call, settles).Answer?
    ensures var m := ProviderAnswer(w.provider, call, settles).value;
            m.call == call && Some(m.amount) == call.sent && m in Executed(w.provider, call, settles).moves
  {
    hide Executed, ProviderAnswer, MovesHold;
    assert CallsHold({call}, w.provider);
    ExecutedOnce(w.provider, call, settles);
  }

  lemma RecordAddedTo(refunds: seq<Refund>, p: Provider, r: Refund, m: Move)
    requires MovesHold(p) && RecordsHold(refunds, p.moves) && m in p.moves && IsRecordOf(r, m)
             && r.key !in Keys(refunds)
    ensures RecordsHold(refunds + [r], p.moves)
  {
    var i :| 0 <= i < |p.moves| && p.moves[i] == m;
    RecordAdded(refunds, p.moves, r, i);
  }

  lemma StepKeepsConsistent(w: World, e: Event)
    requires Consistent(w) && Enabled(w, e)
    ensures Consistent(Next(w, e))
  {
    match e {
      case Start(_, id, _, _) => StatusKeepsConsistent(w, e, id);
      case Confirm(_, id, _) => StatusKeepsConsistent(w, e, id);
      case Post(a, completed, settles, now) => RefundKeepsConsistent(w, a, completed, settles, now);
      case Arrive(call, settles) => CallKeepsConsistent(w, w.calls, call, settles);
      case Cleanup(_) =>
    }
  }

  lemma StatusKeepsConsistent(w: World, e: Event, id: PaymentId)
    requires Consistent(w) && Enabled(w, e) && ((e.Start? && e.id == id) || (e.Confirm? && e.id == id))
    ensures Consistent(Next(w, e))
  {
    hide RecordsHold, CallsHold, RowsHold, KnownCalls, SumsHold, AmountsAgree, MovesHold;
    StatusKeepsSums(w, e, id);
    StatusKeepsKnown(w, e);
  }

  lemma StatusKeepsSums(w: World, e: Event, id: PaymentId)
    requires SumsHold(w.ledger) && AmountsAgree(w.ledger, w.provider) && MovesHold(w.provider) && Enabled(w, e)
    requires (e.Start? && e.id == id) || (e.Confirm? && e.id == id)
    ensures SumsHold(Next(w, e).ledger) && AmountsAgree(Next(w, e).ledger, w.provider)
  {
    hide SumTo, AmountMoved, EachKeyOnce;
    NoneRecorded(w.ledger, id);
  }

  lemma StatusKeepsKnown(w: World, e: Event)
    requires KnownCalls(w.calls, w.ledger, w.provider.moves) && Enabled(w, e) && (e.Start? || e.Confirm?)
    ensures var w' := Next(w, e); KnownCalls(w'.calls, w'.ledger, w'.provider.moves)
  {
  }

  /** No refund is recorded of a payment that is not in the ledger. */
  lemma NoneRecorded(l: Ledger, id: PaymentId)
    requires SumsHold(l)
    ensures id !in l.payments ==> Sum(l.refunds, id) == 0
  {
    if id !in l.payments {
      SumOfNone(l.refunds, |l.refunds|, id);
    }
  }

  lemma {:induction false} SumOfNone(refunds: seq<Refund>, n: nat, id: PaymentId)
    requires n <= |refunds| && forall i :: 0 <= i < n ==> refunds[i].payment != id
    ensures SumTo(refunds, n, id) == 0
  {
    if n > 0 {
      SumOfNone(refunds, n - 1, id);
    }
  }

  lemma {:induction false} RunKeepsConsistent(evs: seq<Event>, tr: seq<World>, k: nat)
    requires Trace(evs, tr) && k < |tr|
    ensures Consistent(tr[k])
  {
    hide Enabled, Next, Consistent, Fresh;
    if k == 0 {
      FreshIsConsistent(tr[0]);
    } else {
      RunKeepsConsistent(evs, tr, k - 1);
      StepKeepsConsistent(tr[k - 1], evs[k - 1]);
    }
  }

  lemma FreshIsConsistent(w: World)
    requires Fresh(w)
    ensures Consistent(w)
  {
  }

  // ---- money and records ----

  /**
   * Whatever is retried, lost, late or repeated, and though the ledger forgets its request keys after a day: under
   * one key the provider moves money once, the ledger records at most one refund, of the company's own payment, and
   * that one is what was moved.
   */
  lemma RefundedOncePerKey(evs: seq<Event>, tr: seq<World>, k: nat)
    requires Trace(evs, tr) && k < |tr|
    ensures var moves, refunds := tr[k].provider.moves, tr[k].ledger.refunds;
            && (forall i, j :: 0 <= i < j < |moves| ==> moves[i].call.key != moves[j].call.key)
            && (forall i, j :: 0 <= i < j < |refunds| ==> refunds[i].key != refunds[j].key)
            && (forall i :: 0 <= i < |refunds| ==>
                  && HasMove(refunds[i], moves) && refunds[i].payment in tr[k].ledger.payments
                  && tr[k].ledger.payments[refunds[i].payment].company == refunds[i].key.company)
            && (forall i, j :: 0 <= i < |refunds| && 0 <= j < |moves| && refunds[i].key == moves[j].call.key ==>
                  refunds[i].payment == moves[j].call.payment && refunds[i].amount == moves[j].amount)
  {
    hide Consistent, HasMove;
    RunKeepsConsistent(evs, tr, k);
    KeysOnce(tr[k]);
    var moves, refunds := tr[k].provider.moves, tr[k].ledger.refunds;
    forall i | 0 <= i < |refunds|
      ensures HasMove(refunds[i], moves) && refunds[i].payment in tr[k].ledger.payments
      ensures tr[k].ledger.payments[refunds[i].payment].company == refunds[i].key.company
    {
      MoveRecorded(tr[k], i);
    }
    forall i, j | 0 <= i < |refunds| && 0 <= j < |moves| && refunds[i].key == moves[j].call.key
      ensures refunds[i].payment == moves[j].call.payment && refunds[i].amount == moves[j].amount
    {
      MoveRecorded(tr[k], i);
      SameMove(refunds[i], moves, j);
    }
  }

  lemma KeysOnce(w: World)
    requires Consistent(w)
    ensures var moves, refunds := w.provider.moves, w.ledger.refunds;
            && (forall i, j :: 0 <= i < j < |moves| ==> moves[i].call.key != moves[j].call.key)
            && (forall i, j :: 0 <= i < j < |refunds| ==> refunds[i].key != refunds[j].key)
  {
    hide SumsHold, CallsHold, RowsHold, KnownCalls;
  }

  lemma MoveRecorded(w: World, i: nat)
    requires Consistent(w) && i < |w.ledger.refunds|
    ensures var r := w.ledger.refunds[i];
            && HasMove(r, w.provider.moves)
            && r.payment in w.ledger.payments && w.ledger.payments[r.payment].company == r.key.company
  {
    hide SumsHold, CallsHold, RowsHold, MovesHold;
    assert HasMove(w.ledger.refunds[i], w.provider.moves);
    var j :| 0 <= j < |w.provider.moves| && IsRecordOf(w.ledger.refunds[i], w.provider.moves[j]);
    assert w.provider.moves[j].call in w.calls;
  }

  lemma SameMove(r: Refund, moves: seq<Move>, j: nat)
    requires HasMove(r, moves) && j < |moves| && r.key == moves[j].call.key
    requires forall a, b :: 0 <= a < b < |moves| ==> moves[a].call.key != moves[b].call.key
    ensures IsRecordOf(r, moves[j])
  {
    var i :| 0 <= i < |moves| && IsRecordOf(r, moves[i]);
    assert i == j;
  }

  /**
   * Over any run the refunded total of a payment is the sum of its refunds; that is at most what was moved, which is
   * at most its amount. Its status is right exactly unless it was overwritten after a refund.
   */
  lemma RefundsAlwaysBalance(evs: seq<Event>, tr: seq<World>, k: nat, id: PaymentId)
    requires Trace(evs, tr) && k < |tr| && id in tr[k].ledger.payments
    ensures var p, moves, refunds := tr[k].ledger.payments[id], tr[k].provider.moves, tr[k].ledger.refunds;
            && 0 <= p.refunded == Sum(refunds, id) <= AmountMoved(moves, |moves|, id) <= p.amount
            && (Sum(refunds, id) == AmountMoved(moves, |moves|, id) <==>
                  forall i :: 0 <= i < |moves| && moves[i].call.payment == id ==> moves[i].call.key in Keys(refunds))
            && (StatusMatches(p) <==> p.refunded == 0 || p.status in {PartiallyRefunded, FullyRefunded})
  {
    hide Consistent, StatusMatches, AmountMoved, SumTo;
    RunKeepsConsistent(evs, tr, k);
    RecordedWithinMoved(tr[k], id);
  }

  // ---- nothing is refunded that was not paid ----

  /** Before event k the provider reported the payment as succeeded, when it was started or by a confirmation. */
  ghost predicate ReportedPaid(evs: seq<Event>, k: nat, id: PaymentId)
    requires k <= |evs|
  {
    exists i :: 0 <= i < k && SaysPaid(evs[i], id)
  }

  predicate SaysPaid(e: Event, id: PaymentId) {
    || (e.Start? && e.id == id && e.intentStatus == Succeeded)
    || (e.Confirm? && e.id == id && e.status == Succeeded)
  }

  predicate SoundsPaid(l: Ledger, id: PaymentId) {
    id in l.payments && l.payments[id].status in {Succeeded, PartiallyRefunded, FullyRefunded}
  }

  /** A step makes a payment read as paid, or a call to refund it, only from one that did or by the provider's word. */
  lemma StepKeepsPaid(w: World, e: Event, id: PaymentId)
    requires Consistent(w) && Enabled(w, e)
    ensures SoundsPaid(Next(w, e).ledger, id) ==> SoundsPaid(w.ledger, id) || SaysPaid(e, id)
    ensures forall c :: c in Next(w, e).calls && c !in w.calls ==> SoundsPaid(w.ledger, c.payment)
  {
    hide MovesHold, RecordsHold, CallsHold, SumTo, ProviderAnswer, Executed, KnownCalls, RowsHold;
    if e.Post? && CallOf(w, e.ask).Some? {
      CallHolds(w, e.ask);
      if e.completed {
        CompletedIs(w, e.ask, e.settles, e.now);
        hide Refunded;
      }
    }
  }

  lemma {:induction false} CallsArePaid(evs: seq<Event>, tr: seq<World>, k: nat)
    requires Trace(evs, tr) && k < |tr|
    ensures forall id :: SoundsPaid(tr[k].ledger, id) ==> ReportedPaid(evs, k, id)
    ensures forall c :: c in tr[k].calls ==> ReportedPaid(evs, k, c.payment)
  {
    hide Enabled, Next, Consistent, SoundsPaid, SaysPaid;
    if k == 0 {
      FreshIsEmpty(tr[0]);
    } else {
      CallsArePaid(evs, tr, k - 1);
      RunKeepsConsistent(evs, tr, k - 1);
      forall id | SoundsPaid(tr[k].ledger, id) ensures ReportedPaid(evs, k, id) {
        StepKeepsPaid(tr[k - 1], evs[k - 1], id);
      }
      StepKeepsPaid(tr[k - 1], evs[k - 1], 0);
      forall c | c in tr[k].calls ensures ReportedPaid(evs, k, c.payment) {
        if c in tr[k - 1].calls {
          assert ReportedPaid(evs, k - 1, c.payment);
        } else {
          assert SoundsPaid(tr[k - 1].ledger, c.payment) && ReportedPaid(evs, k - 1, c.payment);
        }
      }
    }
  }

  lemma FreshIsEmpty(w: World)
    requires Fresh(w)
    ensures w.calls == {} && forall id :: !SoundsPaid(w.ledger, id)
  {
  }

  /** Over any run nothing is granted, moved or recorded as refunded but of a payment the provider reported as paid. */
  lemma NothingUnpaidIsRefunded(evs: seq<Event>, tr: seq<World>, k: nat, a: Ask)
    requires Trace(evs, tr) && k < |tr|
    ensures Granted(tr[k].ledger, a.company, a.id, a.requested).Answer? ==> ReportedPaid(evs, k, a.id)
    ensures forall i :: 0 <= i < |tr[k].provider.moves| ==> ReportedPaid(evs, k, tr[k].provider.moves[i].call.payment)
    ensures forall i :: 0 <= i < |tr[k].ledger.refunds| ==> ReportedPaid(evs, k, tr[k].ledger.refunds[i].payment)
  {
    hide ReportedPaid;
    CallsArePaid(evs, tr, k);
    RunKeepsConsistent(evs, tr, k);
    if Granted(tr[k].ledger, a.company, a.id, a.requested).Answer? {
      assert SoundsPaid(tr[k].ledger, a.id);
    }
    hide MovesHold, SumsHold, CallsHold, RowsHold;
    forall i | 0 <= i < |tr[k].ledger.refunds| ensures ReportedPaid(evs, k, tr[k].ledger.refunds[i].payment) {
      assert HasMove(tr[k].ledger.refunds[i], tr[k].provider.moves);
    }
  }

  ghost predicate StatusesMatch(l: Ledger) {
    forall id :: id in l.payments ==> StatusMatches(l.payments[id])
  }

  /** A status arrives for a payment that has been refunded from. */
  predicate Overwrites(l: Ledger, e: Event) {
    match e
    case Start(_, id, invoice, _) => AmountDue(invoice).Answer? && id in l.payments && l.payments[id].refunded > 0
    case Confirm(_, id, _) => id in l.payments && l.payments[id].status != Succeeded && l.payments[id].refunded > 0
    case _ => false
  }

  /** While the statuses are right, a step makes one wrong exactly when it overwrites that of a refunded payment. */
  lemma StatusesStayRightIff(evs: seq<Event>, tr: seq<World>, k: nat)
    requires Trace(evs, tr) && k < |evs| && StatusesMatch(tr[k].ledger)
    ensures StatusesMatch(tr[k + 1].ledger) <==> !Overwrites(tr[k].ledger, evs[k])
  {
    hide Next, Enabled, Consistent, StatusesMatch, Overwrites;
    RunKeepsConsistent(evs, tr, k);
    if evs[k].Post? {
      RefundSetsStatus(tr[k], evs[k].ask, evs[k].completed, evs[k].settles, evs[k].now);
    }
    StatusStep(tr[k], evs[k]);
  }

  lemma StatusStep(w: World, e: Event)
    requires Consistent(w) && Enabled(w, e) && StatusesMatch(w.ledger)
    requires e.Post? ==> StatusesMatch(Refunded(w, e.ask, e.completed, e.settles, e.now).ledger)
    ensures StatusesMatch(Next(w, e).ledger) <==> !Overwrites(w.ledger, e)
  {
    hide SumTo, Refunded, RecordsHold, CallsHold, MovesHold;
    var l, l' := w.ledger, Next(w, e).ledger;
    if e.Start? && e.id in l.payments && AmountDue(e.invoice).Answer? {
      assert l'.payments[e.id] == l.payments[e.id].(status := e.intentStatus);
    } else if e.Confirm? && e.id in l.payments && l.payments[e.id].status != Succeeded {
      assert l'.payments[e.id] == l.payments[e.id].(status := e.status);
    }
  }

  lemma RefundSetsStatus(w: World, a: Ask, completed: bool, settles: bool, now: int)
    requires Consistent(w) && StatusesMatch(w.ledger)
    ensures StatusesMatch(Refunded(w, a, completed, settles, now).ledger)
  {
    hide MovesHold, RecordsHold, CallsHold, SumTo, ProviderAnswer, Executed;
    if CallOf(w, a).Some? && completed {
      CompletedIs(w, a, settles, now);
      InLedger(w.ledger, a.company, a.id, a.requested);
    }
  }

  /** The statuses are right all along in a run that never overwrites one after a refund. */
  lemma {:induction false} StatusesAreRight(evs: seq<Event>, tr: seq<World>, k: nat)
    requires Trace(evs, tr) && k < |tr| && forall i :: 0 <= i < k ==> !Overwrites(tr[i].ledger, evs[i])
    ensures StatusesMatch(tr[k].ledger)
  {
    hide Enabled, Next, Overwrites;
    if k > 0 {
      StatusesAreRight(evs, tr, k - 1);
      StatusesStayRightIff(evs, tr, k - 1);
    }
  }

  /**
   * The provider is told a positive amount exactly when one was named or something is left to refund; while the
   * status is right that is always so. Told none, it moves nothing; told one, it moves that.
   */
  lemma AmountIsExplicitIff(evs: seq<Event>, tr: seq<World>, k: nat, a: Ask, settles: bool)
    requires Trace(evs, tr) && k < |tr| && CallOf(tr[k], a).Some?
    ensures var p, call := tr[k].ledger.payments[a.id], CallOf(tr[k], a).value;
            var granted := Granted(tr[k].ledger, a.company, a.id, a.requested).value;
            var answer := ProviderAnswer(tr[k].provider, call, settles);
            && (a.requested.Some? ==> granted == a.requested.value)
            && (call.sent == Some(granted) && granted > 0 <==> a.requested.Some? || p.refunded < p.amount)
            && (StatusMatches(p) ==> granted > 0)
            && (answer.Answer? ==> call.sent == Some(granted) && answer.value.amount == granted)
  {
    RunKeepsConsistent(evs, tr, k);
    CallHolds(tr[k], a);
    assert CallsHold({CallOf(tr[k], a).value}, tr[k].provider);
    ExecutedOnce(tr[k].provider, CallOf(tr[k], a).value, settles);
  }
}

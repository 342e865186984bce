/** What becomes of a refund whose request was lost after the provider had moved the money. */
module RefundRetries {
  import opened Prelude
  import Idempotency
  import opened Refunds
  import opened PaymentProvider
  import opened RefundRuns

  // ---- after a request was lost ----

  /**
   * Money was moved under a key and the record was lost. A request under that key never moves anything; it puts the
   * move on record exactly if it names the same payment and the same reason and comes to the same amount.
   */
  lemma RetryRecordsIff(evs: seq<Event>, tr: seq<World>, k: nat, i: nat, a: Ask, settles: bool, now: int)
    requires Trace(evs, tr) && k < |tr| && i < |tr[k].provider.moves| && a.key != "" && |a.key| <= Idempotency.MAX_KEY
    requires tr[k].provider.moves[i].call.key == a.ItsSlot() && a.ItsSlot() !in Keys(tr[k].ledger.refunds)
    ensures var w, w', m := tr[k], Refunded(tr[k], a, true, settles, now), tr[k].provider.moves[i];
            && w'.provider == w.provider
            && (a.ItsSlot() in Keys(w'.ledger.refunds) <==>
                  && a.id == m.call.payment && a.reason == m.call.reason
                  && Granted(w.ledger, a.company, a.id, a.requested) == Answer(m.amount))
  {
    RunKeepsConsistent(evs, tr, k);
    RetryRecords(tr[k], i, a, settles, now);
  }

  lemma RetryRecords(w: World, i: nat, a: Ask, settles: bool, now: int)
    requires Consistent(w) && i < |w.provider.moves| && a.key != "" && |a.key| <= Idempotency.MAX_KEY
    requires w.provider.moves[i].call.key == a.ItsSlot() && a.ItsSlot() !in Keys(w.ledger.refunds)
    ensures var w', m := Refunded(w, a, true, settles, now), w.provider.moves[i];
            && w'.provider == w.provider
            && (a.ItsSlot() in Keys(w'.ledger.refunds) <==>
                  && a.id == m.call.payment && a.reason == m.call.reason
                  && Granted(w.ledger, a.company, a.id, a.requested) == Answer(m.amount))
  {
    hide RecordsHold, SumsHold, CallsHold, AmountMoved;
    var moves := w.provider.moves;
    assert MoveOf(moves, |moves|, a.ItsSlot()) == Some(moves[i]);
    if CallOf(w, a).Some? {
      CallHolds(w, a);
      CompletedIs(w, a, settles, now);
      hide Consistent, Granted, Refunded;
      var granted := Granted(w.ledger, a.company, a.id, a.requested).value;
      var r := Refund(a.ItsSlot(), a.id, granted, moves[i].settled);
      SumSnoc(w.ledger.refunds, r, a.id);
    }
  }

  /** The amount that was moved is still granted exactly while the payment can be refunded at all. */
  lemma RoomForRetryIff(evs: seq<Event>, tr: seq<World>, k: nat, i: nat)
    requires Trace(evs, tr) && k < |tr| && i < |tr[k].provider.moves|
    requires tr[k].provider.moves[i].call.key !in Keys(tr[k].ledger.refunds)
    ensures var l, m := tr[k].ledger, tr[k].provider.moves[i];
            && m.call.payment in l.payments
            && (Granted(l, m.call.key.company, m.call.payment, Some(m.amount)) == Answer(m.amount) <==>
                  Refundable(l.payments[m.call.payment]))
  {
    RunKeepsConsistent(evs, tr, k);
    RoomForMove(tr[k], i);
    var m := tr[k].provider.moves[i];
    assert m.call in tr[k].calls;
    RecordedWithinMoved(tr[k], m.call.payment);
  }

  ghost predicate PaymentsGrow(l: Ledger, l': Ledger) {
    forall id :: id in l.payments ==>
      && id in l'.payments && l'.payments[id].company == l.payments[id].company
      && l'.payments[id].amount == l.payments[id].amount
      && l.payments[id].refunded <= l'.payments[id].refunded
  }

  lemma StepGrowsPayments(w: World, e: Event)
    requires Consistent(w) && Enabled(w, e)
    ensures PaymentsGrow(w.ledger, Next(w, e).ledger)
  {
    hide MovesHold, RecordsHold, CallsHold, SumTo, ProviderAnswer, Executed;
    if e.Post? && e.completed && CallOf(w, e.ask).Some? {
      CallHolds(w, e.ask);
      CompletedIs(w, e.ask, e.settles, e.now);
      hide Refunded, CallOf, Granted;
    }
  }

  lemma {:induction false} RunGrowsPayments(evs: seq<Event>, tr: seq<World>, i: nat, k: nat)
    requires Trace(evs, tr) && i <= k < |tr|
    ensures PaymentsGrow(tr[i].ledger, tr[k].ledger)
    decreases k
  {
    hide Enabled, Next, Consistent, Fresh;
    if i < k {
      RunGrowsPayments(evs, tr, i, k - 1);
      RunKeepsConsistent(evs, tr, k - 1);
      StepGrowsPayments(tr[k - 1], evs[k - 1]);
    }
  }

  /**
   * Repeating the lost request as it was, with or without an amount in it, always catches up: if its call did move
   * money and that is not on record, then as soon as the payment can be refunded the repetition records it.
   */
  lemma RepetitionCatchesUp(evs: seq<Event>, tr: seq<World>, i: nat, k: nat, j: nat, a: Ask, settles: bool, now: int)
    requires Trace(evs, tr) && i <= k < |tr| && CallOf(tr[i], a).Some? && j < |tr[k].provider.moves|
    requires tr[k].provider.moves[j].call == CallOf(tr[i], a).value && a.ItsSlot() !in Keys(tr[k].ledger.refunds)
    requires a.id in tr[k].ledger.payments && Refundable(tr[k].ledger.payments[a.id])
    ensures var w, w', m := tr[k], Refunded(tr[k], a, true, settles, now), tr[k].provider.moves[j];
            w'.provider == w.provider
            && exists r :: r in w'.ledger.refunds && r.key == a.ItsSlot() && r.amount == m.amount
  {
    hide Consistent, Fresh, Enabled, Next, Refunded;
    var m := tr[k].provider.moves[j];
    RunKeepsConsistent(evs, tr, i);
    RunKeepsConsistent(evs, tr, k);
    RunGrowsPayments(evs, tr, i, k);
    CallHolds(tr[i], a);
    UnrecordedMove(tr[k], j);
    RoomForMove(tr[k], j);
    RecordedWithinMoved(tr[k], a.id);
    assert Granted(tr[k].ledger, a.company, a.id, a.requested) == Answer(m.amount);
    RetryRecordsIff(evs, tr, k, j, a, settles, now);
    CompletedIs(tr[k], a, settles, now);
  }

  /** A move names its amount, and no answer is stored for one that is not on record. */
  lemma UnrecordedMove(w: World, j: nat)
    requires Consistent(w) && j < |w.provider.moves| && w.provider.moves[j].call.key !in Keys(w.ledger.refunds)
    ensures var m := w.provider.moves[j];
            m.amount > 0 && m.call.sent == Some(m.amount) && m.call.key !in w.rows
  {
  }

  // ---- both things happen ----

  /** A payment of 100 and a request to refund 40 of it. */
  const FORTY := Ask(1, "key", 7, 0, Some(40), None)

  const LEDGER := Ledger(map[0 := Payment(1, Succeeded, 100, 0, true)], [])

  lemma LostCall(w: World)
    requires w.ledger == LEDGER && w.rows == map[] && w.provider == Provider(map[0 := 100], [])
    ensures CallOf(w, FORTY) == Some(Call(FORTY.ItsSlot(), 0, Some(40), None))
    ensures Executed(w.provider, Call(FORTY.ItsSlot(), 0, Some(40), None), true).moves
         == [Move(Call(FORTY.ItsSlot(), 0, Some(40), None), 40, true)]
  {
    assert |FORTY.key| == 3;
  }

  lemma FoundCall(w: World, call: Call)
    requires w.ledger == LEDGER && w.rows == map[] && call == Call(FORTY.ItsSlot(), 0, Some(40), None)
    requires w.provider.moves == [Move(call, 40, true)]
    ensures var w' := Refunded(w, FORTY, true, true, 5);
            w'.provider == w.provider && w'.ledger == Recorded(w.ledger, Refund(call.key, 0, 40, true))
  {
    assert |FORTY.key| == 3 && MoveOf(w.provider.moves, 1, call.key) == Some(w.provider.moves[0]);
    assert CallOf(w, FORTY) == Some(call);
    CompletedIs(w, FORTY, true, 5);
  }

  /**
   * The first request is lost after its call; the call arrives, and money is moved that no record shows. The same
   * request again records it. Then the payment's confirmation is delivered once more and hides the refund.
   */
  lemma LostThenRepeated() returns (evs: seq<Event>, tr: seq<World>)
    ensures Trace(evs, tr) && |evs| == 5 && evs[1].Post? && evs[3].Post? && evs[1].ask == evs[3].ask
    ensures AmountMoved(tr[3].provider.moves, |tr[3].provider.moves|, 0) == 40 && tr[3].ledger.refunds == []
    ensures tr[4].provider == tr[3].provider && Sum(tr[4].ledger.refunds, 0) == 40
    ensures 0 in tr[5].ledger.payments && tr[5].ledger.payments[0].status == Succeeded
    ensures tr[5].ledger.payments[0].refunded == 40 && !StatusesMatch(tr[5].ledger)
  {
    var call := Call(FORTY.ItsSlot(), 0, Some(40), None);
    var w0 := World(map[], Ledger(map[], []), Provider(map[0 := 100], []), {});
    var w1 := w0.(ledger := LEDGER);
    var w2 := w1.(calls := {call});
    var w3 := w2.(provider := Executed(w2.provider, call, true));
    var w4 := Refunded(w3, FORTY, true, true, 5);
    LostCall(w1);
    LostCall(w2);
    FoundCall(w3, call);
    hide Refunded, Executed, CallOf;
    assert Next(w0, Confirm(Some(1), 0, Succeeded)) == w1;
    assert AmountMoved(w3.provider.moves, 0, 0) == 0 && SumTo(w4.ledger.refunds, 0, 0) == 0;
    var w5 := Next(w4, Confirm(Some(1), 0, Succeeded));
    assert w5.ledger.payments[0].status == Succeeded;
    evs := [Confirm(Some(1), 0, Succeeded), Post(FORTY, false, true, 1), Arrive(call, true), Post(FORTY, true, true, 5),
            Confirm(Some(1), 0, Succeeded)];
    tr := [w0, w1, w2, w3, w4, w5];
    assert Next(w1, evs[1]) == w2;
  }
}

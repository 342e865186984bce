/**
 * The payment provider as its calls promise it: it remembers the keys it was sent and never moves more of a charge
 * than is left.
 */
module PaymentProvider {
  import opened Prelude
  import opened Idempotency
  import opened Refunds

  datatype Reason = Duplicate | Fraudulent | RequestedByCustomer

  /**
   * One call to the provider: the key derived from the request's, the charge, and the amount and the reason as far
   * as they are named.
   */
  datatype Call = Call(key: Slot, payment: PaymentId, sent: Option<int>, reason: Option<Reason>)

  /** Money the provider has moved back. */
  datatype Move = Move(call: Call, amount: int, settled: bool)

  datatype Provider = Provider(charges: map<PaymentId, int>, moves: seq<Move>)

  function MoveOf(moves: seq<Move>, n: nat, key: Slot): (r: Option<Move>)
    requires n <= |moves|
    ensures r.Some? ==> r.value.call.key == key && exists i :: 0 <= i < n && moves[i] == r.value
    ensures r == None ==> forall i :: 0 <= i < n ==> moves[i].call.key != key
  {
    if n == 0 then None else if moves[n - 1].call.key == key then Some(moves[n - 1]) else MoveOf(moves, n - 1, key)
  }

  /** What has been moved back of one charge. */
  function AmountMoved(moves: seq<Move>, n: nat, id: PaymentId): int
    requires n <= |moves|
  {
    if n == 0 then 0
    else AmountMoved(moves, n - 1, id) + if moves[n - 1].call.payment == id then moves[n - 1].amount else 0
  }

  /**
   * A key seen before gets the original result, or an error if anything else is asked for under it. A new key moves
   * the amount named, or all that is left of the charge if none is, but never more than is left.
   */
  function ProviderAnswer(p: Provider, c: Call, settles: bool): Outcome<Move> {
    match MoveOf(p.moves, |p.moves|, c.key)
    case Some(m) => if m.call == c then Answer(m) else Failure
    case None =>
      if c.payment !in p.charges then Failure
      else
        var left := p.charges[c.payment] - AmountMoved(p.moves, |p.moves|, c.payment);
        if 0 < c.sent.GetOr(left) <= left then Answer(Move(c, c.sent.GetOr(left), settles)) else Failure
  }

  function Executed(p: Provider, c: Call, settles: bool): Provider {
    if MoveOf(p.moves, |p.moves|, c.key) == None && ProviderAnswer(p, c, settles).Answer?
    then p.(moves := p.moves + [ProviderAnswer(p, c, settles).value])
    else p
  }

  // ---- sums of moves ----

  /** What has been moved back of a charge under one of `keys`. */
  function MovedUnder(moves: seq<Move>, n: nat, keys: set<Slot>, id: PaymentId): int
    requires n <= |moves|
  {
    if n == 0 then 0
    else
      var m := moves[n - 1];
      MovedUnder(moves, n - 1, keys, id) + if m.call.payment == id && m.call.key in keys then m.amount else 0
  }

  ghost predicate EachKeyOnce(moves: seq<Move>) {
    forall i, j :: 0 <= i < j < |moves| ==> moves[i].call.key != moves[j].call.key
  }

  lemma {:induction false} NoMoveUnder(moves: seq<Move>, n: nat, keys: set<Slot>, key: Slot, id: PaymentId)
    requires n <= |moves| && forall i :: 0 <= i < n ==> moves[i].call.key != key
    ensures MovedUnder(moves, n, keys + {key}, id) == MovedUnder(moves, n, keys, id)
  {
    if n > 0 {
      NoMoveUnder(moves, n - 1, keys, key, id);
    }
  }

  lemma {:induction false} OneMoveUnder(moves: seq<Move>, n: nat, keys: set<Slot>, i: nat, id: PaymentId)
    requires i < n <= |moves| && EachKeyOnce(moves) && moves[i].call.key !in keys
    ensures MovedUnder(moves, n, keys + {moves[i].call.key}, id)
         == MovedUnder(moves, n, keys, id) + if moves[i].call.payment == id then moves[i].amount else 0
  {
    if i == n - 1 {
      NoMoveUnder(moves, n - 1, keys, moves[i].call.key, id);
    } else {
      OneMoveUnder(moves, n - 1, keys, i, id);
    }
  }

  /** The recorded keys account for all that was moved exactly when every move on the charge is recorded. */
  lemma {:induction false} MovedUnderAll(moves: seq<Move>, n: nat, keys: set<Slot>, id: PaymentId)
    requires n <= |moves| && forall i :: 0 <= i < n ==> moves[i].amount > 0
    ensures MovedUnder(moves, n, keys, id) <= AmountMoved(moves, n, id)
    ensures MovedUnder(moves, n, keys, id) == AmountMoved(moves, n, id) <==>
              forall i :: 0 <= i < n && moves[i].call.payment == id ==> moves[i].call.key in keys
  {
    if n > 0 {
      MovedUnderAll(moves, n - 1, keys, id);
    }
  }

  lemma {:induction false} MovesPrefix(a: seq<Move>, b: seq<Move>, n: nat, keys: set<Slot>, id: PaymentId)
    requires n <= |a| && n <= |b| && forall i :: 0 <= i < n ==> a[i] == b[i]
    ensures AmountMoved(a, n, id) == AmountMoved(b, n, id) && MovedUnder(a, n, keys, id) == MovedUnder(b, n, keys, id)
  {
    if n > 0 {
      MovesPrefix(a, b, n - 1, keys, id);
    }
  }

  // ---- what a call keeps ----

  /** Every key moves money once, the amount it named, and never more than a charge holds in all. */
  ghost predicate MovesHold(p: Provider) {
    && EachKeyOnce(p.moves)
    && (forall i :: 0 <= i < |p.moves| ==>
          p.moves[i].amount > 0 && p.moves[i].call.sent == Some(p.moves[i].amount))
    && (forall id :: id in p.charges ==> 0 < p.charges[id] && AmountMoved(p.moves, |p.moves|, id) <= p.charges[id])
  }

  /** A call on its way names a positive amount, or there is nothing left for it to take. */
  ghost predicate CallsHold(calls: set<Call>, p: Provider) {
    forall c :: c in calls ==>
      && c.payment in p.charges
      && if c.sent.Some? then c.sent.value > 0 else AmountMoved(p.moves, |p.moves|, c.payment) == p.charges[c.payment]
  }

  /** The provider does something at most once per key and stays within the charge. */
  lemma ExecutedOnce(p: Provider, c: Call, settles: bool)
    requires MovesHold(p) && CallsHold({c}, p)
    ensures var p' := Executed(p, c, settles);
            && MovesHold(p') && p'.charges == p.charges && p.moves <= p'.moves
            && (p'.moves == p.moves
                || (MoveOf(p.moves, |p.moves|, c.key) == None && ProviderAnswer(p, c, settles).Answer?
                    && p'.moves == p.moves + [ProviderAnswer(p, c, settles).value]))
            && forall id :: AmountMoved(p.moves, |p.moves|, id) <= AmountMoved(p'.moves, |p'.moves|, id)
    ensures ProviderAnswer(p, c, settles).Answer? ==>
              var m := ProviderAnswer(p, c, settles).value;
              m.call == c && Some(m.amount) == c.sent && m in Executed(p, c, settles).moves
  {
    var p' := Executed(p, c, settles);
    if p'.moves != p.moves {
      var n, more := |p.moves|, p'.moves[|p.moves|].amount;
      forall id
        ensures AmountMoved(p'.moves, n + 1, id) == AmountMoved(p.moves, n, id) + if c.payment == id then more else 0
      {
        MovesPrefix(p.moves, p'.moves, |p.moves|, {}, id);
      }
    }
  }

  lemma CallsSurvive(calls: set<Call>, p: Provider, c: Call, settles: bool)
    requires MovesHold(p) && CallsHold(calls, p) && c in calls
    ensures CallsHold(calls, Executed(p, c, settles))
  {
    hide Executed;
    assert CallsHold({c}, p);
    ExecutedOnce(p, c, settles);
  }
}

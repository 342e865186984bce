/**
 * Idempotency keys of src/lib/idempotency.ts inside tenant transactions (src/db/tenant.ts):
 * the code of one transaction, and any number of them interleaved statement by statement.
 */
module Idempotency {
  import opened Prelude
  import opened Transactions

  const MAX_KEY := 255
  const RETENTION := 86_400

  type Hash = nat
  type TxId = nat

  datatype Slot = Slot(company: nat, endpoint: string, key: string)

  /** `hash` is the digest of the request body. */
  datatype Request = Request(company: nat, endpoint: string, key: Option<string>, hash: Hash) {
    /** A missing or empty key runs the operation unguarded. */
    predicate Guarded() {
      key.Some? && key.value != ""
    }

    function ItsSlot(): Slot
      requires key.Some?
    {
      Slot(company, endpoint, key.value)
    }
  }

  datatype Response<R> = Response(status: int, body: R)

  datatype Status = InProgress | Completed | Failed

  datatype Row<R> = Row(hash: Hash, status: Status, response: Option<Response<R>>, expiresAt: int)

  type Rows<R> = map<Slot, Row<R>>

  datatype Why = KeyTooLong | Inconsistent | DifferentBody | StillInFlight | OperationFailed | ConnectionLost

  datatype Reply<R> = Fresh(response: Response<R>) | Replayed(response: Response<R>) | Thrown(why: Why)

  // ---- one transaction ----

  datatype Db<W, R> = Db(rows: Rows<R>, world: W)

  /** What the loser of the insert makes of the row it finds. */
  function ReadReply<R>(rows: Rows<R>, slot: Slot, hash: Hash): Reply<R> {
    if slot !in rows then Thrown(Inconsistent)
    else if rows[slot].hash != hash then Thrown(DifferentBody)
    else if rows[slot].status == Completed && rows[slot].response.Some? then Replayed(rows[slot].response.value)
    else Thrown(StillInFlight)
  }

  /** What the client is told when its operation ran. */
  function ReplyOf<R>(result: Outcome<Response<R>>): Reply<R> {
    match result
    case Answer(response) => Fresh(response)
    case Failure => Thrown(OperationFailed)
  }

  /** A used key answers the same body with the stored response; another body is refused. */
  predicate ReadsBack<R(==)>(row: Row<R>, hash: Hash, reply: Reply<R>) {
    && (row.hash != hash ==> reply == Thrown(DifferentBody))
    && (row.hash == hash && row.status == Completed && row.response.Some? ==> reply == Replayed(row.response.value))
    && (row.hash == hash && (row.status != Completed || row.response == None) ==> reply == Thrown(StillInFlight))
  }

  ghost predicate OnlySlot<R>(rows: Rows<R>, rows': Rows<R>, slot: Slot) {
    && rows'.Keys == rows.Keys + {slot}
    && forall other :: other in rows && other != slot ==> rows'[other] == rows[other]
  }

  /** The row of a key just used: kept for a day, with the body's digest and how the operation ended. */
  predicate RowOf<R(==)>(row: Row<R>, hash: Hash, result: Outcome<Response<R>>, now: int) {
    && row.hash == hash && row.expiresAt == now + 24 * 60 * 60
    && (result.Answer? ==> row.status == Completed && row.response == Some(result.value))
    && (result.Failure? ==> row.status == Failed && row.response == None)
  }

  /** The open transaction of one request; its statements change these fields. */
  class Tx<W, R> {
    var rows: Rows<R>
    var world: W

    constructor (db: Db<W, R>)
      ensures rows == db.rows && world == db.world
    {
      rows, world := db.rows, db.world;
    }

    /**
     * `operation` answers with the world its statements left and how it ended.
     * A throw leaves the claimed row marked failed, in this transaction only.
     */
    method WithIdempotency(p: Request, operation: W -> (W, Outcome<Response<R>>), now: int) returns (reply: Reply<R>)
      modifies this
      ensures Ending(Db(old(rows), old(world)), p, operation, now) == (Db(rows, world), reply)
      ensures p.key == None || p.key == Some("") ==>
                && rows == old(rows) && world == operation(old(world)).0
                && reply == ReplyOf(operation(old(world)).1)
      ensures p.key.Some? && |p.key.value| > 255 ==>
                rows == old(rows) && world == old(world) && reply == Thrown(KeyTooLong)
      ensures p.key.Some? && 1 <= |p.key.value| <= 255 && Slot(p.company, p.endpoint, p.key.value) in old(rows) ==>
                && rows == old(rows) && world == old(world)
                && ReadsBack(old(rows)[Slot(p.company, p.endpoint, p.key.value)], p.hash, reply)
      ensures p.key.Some? && 1 <= |p.key.value| <= 255 && Slot(p.company, p.endpoint, p.key.value) !in old(rows) ==>
                && world == operation(old(world)).0 && reply == ReplyOf(operation(old(world)).1)
                && OnlySlot(old(rows), rows, Slot(p.company, p.endpoint, p.key.value))
                && RowOf(rows[Slot(p.company, p.endpoint, p.key.value)], p.hash, operation(old(world)).1, now)
    {
      if !p.Guarded() {
        var ran := operation(world);
        world := ran.0;
        return if ran.1.Answer? then Fresh(ran.1.value) else Thrown(OperationFailed);
      }
      if |p.key.value| > MAX_KEY {
        return Thrown(KeyTooLong);
      }
      var slot := p.ItsSlot();
      var claimed := slot !in rows;
      if !claimed {
        return ReadReply(rows, slot, p.hash);
      }
      rows := rows[slot := Row(p.hash, InProgress, None, now + RETENTION)];
      var ran := operation(world);
      world := ran.0;
      match ran.1 {
        case Answer(response) =>
          rows := rows[slot := rows[slot].(status := Completed, response := Some(response))];
          assert rows == old(rows)[slot := Row(p.hash, Completed, Some(response), now + RETENTION)];
          return Fresh(response);
        case Failure =>
          rows := rows[slot := rows[slot].(status := Failed)];
          assert rows == old(rows)[slot := Row(p.hash, Failed, None, now + RETENTION)];
          return Thrown(OperationFailed);
      }
    }
  }

  /** How a transaction's work leaves its own view of the database, and what it answers or throws. */
  function Ending<W, R>(db: Db<W, R>, p: Request, operation: W -> (W, Outcome<Response<R>>), now: int)
    : (Db<W, R>, Reply<R>)
  {
    var (world, result) := operation(db.world);
    if !p.Guarded() then
      (db.(world := world), if result.Answer? then Fresh(result.value) else Thrown(OperationFailed))
    else if |p.key.value| > MAX_KEY then (db, Thrown(KeyTooLong))
    else if p.ItsSlot() in db.rows then (db, ReadReply(db.rows, p.ItsSlot(), p.hash))
    else if result.Answer? then
      (Db(db.rows[p.ItsSlot() := Row(p.hash, Completed, Some(result.value), now + RETENTION)], world),
       Fresh(result.value))
    else
      (Db(db.rows[p.ItsSlot() := Row(p.hash, Failed, None, now + RETENTION)], world), Thrown(OperationFailed))
  }

  function Body<W, R>(db: Db<W, R>, p: Request, operation: W -> (W, Outcome<Response<R>>), now: int)
    : Ran<Db<W, R>, Reply<R>>
  {
    var (after, reply) := Ending(db, p, operation, now);
    if reply.Thrown? then Threw else Returned(after, reply)
  }

  /** The request handler: the wrapped body in a tenant transaction of its own. */
  method Handle<W, R>(database: Database<Db<W, R>>, p: Request, operation: W -> (W, Outcome<Response<R>>), now: int)
      returns (r: Outcome<Reply<R>>)
    modifies database
    ensures database.committed == Committed(old(database.committed), Body(old(database.committed), p, operation, now))
    ensures r.Answer? ==> !r.value.Thrown? && r.value == Ending(old(database.committed), p, operation, now).1
    ensures r == Failure <==> Ending(old(database.committed), p, operation, now).1.Thrown?
    ensures r == Failure || r.value.Replayed? ==> database.committed == old(database.committed)
    ensures r.Answer? && r.value.Fresh? ==>
              && operation(old(database.committed).world) == (database.committed.world, Answer(r.value.response))
              && if p.key == None || p.key == Some("") then database.committed.rows == old(database.committed).rows
                 else
                   var slot := Slot(p.company, p.endpoint, p.key.value);
                   && slot !in old(database.committed).rows
                   && OnlySlot(old(database.committed).rows, database.committed.rows, slot)
                   && RowOf(database.committed.rows[slot], p.hash, Answer(r.value.response), now)
    ensures r.Answer? && r.value.Replayed? ==>
              var slot := Slot(p.company, p.endpoint, p.key.GetOr(""));
              slot in database.committed.rows && ReadsBack(database.committed.rows[slot], p.hash, r.value)
  {
    var tx := new Tx(database.committed);
    var reply := tx.WithIdempotency(p, operation, now);
    if reply.Thrown? {
      return Failure;
    }
    database.committed := Db(tx.rows, tx.world);
    return Answer(reply);
  }

  /** A committed row is always a finished one: the failed mark and the in-progress claim never survive. */
  ghost predicate AllCompleted<R>(rows: Rows<R>) {
    forall slot :: slot in rows ==> rows[slot].status == Completed && rows[slot].response.Some?
  }

  /** Two requests with one key, whatever each would do: run once, then replayed or refused. */
  lemma SecondRequest<W, R>(db: Db<W, R>, p: Request, op: W -> (W, Outcome<Response<R>>), now: int, q: Request,
      op': W -> (W, Outcome<Response<R>>), later: int)
    requires AllCompleted(db.rows) && p.Guarded() && |p.key.value| <= MAX_KEY
    requires q.Guarded() && q.ItsSlot() == p.ItsSlot() && p.ItsSlot() !in db.rows
    ensures var after := Committed(db, Body(db, p, op, now));
            var second := Ending(after, q, op', later).1;
            && AllCompleted(after.rows)
            && (op(db.world).1.Failure? ==> after == db)
            && (op(db.world).1.Answer? ==>
                  && after.world == op(db.world).0
                  && Committed(after, Body(after, q, op', later)) == after
                  && second == if q.hash == p.hash then Replayed(op(db.world).1.value) else Thrown(DifferentBody))
  {
  }

  // ---- many transactions at once ----

  datatype Phase<R> = Arrived | Beaten | Running | Finished(response: Response<R>)

  datatype Txn<R> = Txn(request: Request, startedAt: int, phase: Phase<R>)

  /** A committed execution of an operation. */
  datatype Run<R> = Run(tx: TxId, request: Request, response: Response<R>)

  /** Committed rows and executions, open transactions, and what each closed one told its client. */
  datatype System<R> = System(rows: Rows<R>, runs: seq<Run<R>>, open: map<TxId, Txn<R>>, replies: map<TxId, Reply<R>>)

  datatype Event<R> =
    | Begin(tx: TxId, request: Request, now: int)
    | Insert(tx: TxId)
    | Read(tx: TxId)
    | Operate(tx: TxId, result: Outcome<Response<R>>)
    | Commit(tx: TxId)
    | Abort(tx: TxId)
    | Cleanup(now: int)

  /** `tx` has inserted the slot's row and neither committed nor rolled back. */
  predicate Holds<R>(s: System<R>, tx: TxId, slot: Slot) {
    && tx in s.open && s.open[tx].request.Guarded() && s.open[tx].request.ItsSlot() == slot
    && (s.open[tx].phase == Running || s.open[tx].phase.Finished?)
  }

  /** An insert waits while another open transaction holds the same slot. */
  ghost predicate Enabled<R>(s: System<R>, e: Event<R>) {
    match e
    case Begin(tx, _, _) => tx !in s.open && tx !in s.replies
    case Insert(tx) =>
      && tx in s.open && s.open[tx].phase == Arrived && s.open[tx].request.Guarded()
      && forall other :: other != tx ==> !Holds(s, other, s.open[tx].request.ItsSlot())
    case Read(tx) => tx in s.open && s.open[tx].phase == Beaten && s.open[tx].request.Guarded()
    case Operate(tx, _) => tx in s.open && s.open[tx].phase == Running
    case Commit(tx) => tx in s.open && s.open[tx].phase.Finished?
    case Abort(tx) => tx in s.open
    case Cleanup(_) => true
  }

  function Closed<R>(s: System<R>, tx: TxId, reply: Reply<R>): System<R> {
    s.(open := s.open - {tx}, replies := s.replies[tx := reply])
  }

  function Moved<R>(s: System<R>, tx: TxId, phase: Phase<R>): System<R>
    requires tx in s.open
  {
    s.(open := s.open[tx := s.open[tx].(phase := phase)])
  }

  function Unexpired<R>(rows: Rows<R>, now: int): Rows<R> {
    map slot | slot in rows && now <= rows[slot].expiresAt :: rows[slot]
  }

  ghost function Next<R>(s: System<R>, e: Event<R>): System<R>
    requires Enabled(s, e)
  {
    match e
    case Begin(tx, request, now) =>
      if request.Guarded() && |request.key.value| > MAX_KEY then Closed(s, tx, Thrown(KeyTooLong))
      else s.(open := s.open[tx := Txn(request, now, if request.Guarded() then Arrived else Running)])
    case Insert(tx) => Moved(s, tx, if s.open[tx].request.ItsSlot() in s.rows then Beaten else Running)
    case Read(tx) => Closed(s, tx, ReadReply(s.rows, s.open[tx].request.ItsSlot(), s.open[tx].request.hash))
    case Operate(tx, result) =>
      if result.Answer? then Moved(s, tx, Finished(result.value)) else Closed(s, tx, Thrown(OperationFailed))
    case Commit(tx) =>
      var t := s.open[tx];
      var row := Row(t.request.hash, Completed, Some(t.phase.response), t.startedAt + RETENTION);
      Closed(s, tx, Fresh(t.phase.response)).(
        rows := if t.request.Guarded() then s.rows[t.request.ItsSlot() := row] else s.rows,
        runs := s.runs + [Run(tx, t.request, t.phase.response)])
    case Abort(tx) => Closed(s, tx, Thrown(ConnectionLost))
    case Cleanup(now) => s.(rows := Unexpired(s.rows, now))
  }

  ghost predicate Trace<R(!new)>(evs: seq<Event<R>>, tr: seq<System<R>>) {
    && |tr| == |evs| + 1
    && tr[0] == System(map[], [], map[], map[])
    && forall i :: 0 <= i < |evs| ==> Enabled(tr[i], evs[i]) && tr[i + 1] == Next(tr[i], evs[i])
  }

  /** Some committed execution gave the response that a row stores, for the request the row records. */
  ghost predicate Backed<R(!new)>(s: System<R>, slot: Slot) {
    slot in s.rows ==>
      exists i :: 0 <= i < |s.runs| && s.runs[i].request.Guarded() && s.runs[i].request.ItsSlot() == slot
                  && s.runs[i].request.hash == s.rows[slot].hash && Some(s.runs[i].response) == s.rows[slot].response
  }

  ghost predicate Exclusive<R(!new)>(s: System<R>) {
    && (forall a, b, slot :: Holds(s, a, slot) && Holds(s, b, slot) ==> a == b)
    && (forall a, slot :: Holds(s, a, slot) ==> slot !in s.rows)
  }

  /** Whoever is still open has a key of acceptable length. */
  ghost predicate Admitted<R(!new)>(s: System<R>) {
    forall tx :: tx in s.open ==> !s.open[tx].request.Guarded() || |s.open[tx].request.key.value| <= MAX_KEY
  }

  lemma StepKeepsExclusive<R(!new)>(s: System<R>, e: Event<R>)
    requires Exclusive(s) && Enabled(s, e)
    ensures Exclusive(Next(s, e))
  {
    var s' := Next(s, e);
    forall a, slot | Holds(s', a, slot)
      ensures slot !in s'.rows && (Holds(s, a, slot) || e == Insert(a))
    {
      if e != Insert(a) {
        assert Holds(s, a, slot);
        if e.Commit? && s.open[e.tx].request.Guarded() {
          assert Holds(s, e.tx, s.open[e.tx].request.ItsSlot());
        }
      }
    }
  }

  lemma StepKeepsRows<R(!new)>(s: System<R>, e: Event<R>)
    requires AllCompleted(s.rows) && (forall slot :: Backed(s, slot)) && Enabled(s, e)
    ensures AllCompleted(Next(s, e).rows) && forall slot :: Backed(Next(s, e), slot)
  {
    var s' := Next(s, e);
    forall slot ensures Backed(s', slot) {
      assert Backed(s, slot);
      if slot in s'.rows && slot in s.rows && s'.rows[slot] == s.rows[slot] {
        var i :| 0 <= i < |s.runs| && s.runs[i].request.Guarded() && s.runs[i].request.ItsSlot() == slot
                 && s.runs[i].request.hash == s.rows[slot].hash && Some(s.runs[i].response) == s.rows[slot].response;
        assert s'.runs[i] == s.runs[i];
      } else if slot in s'.rows {
        assert e.Commit? && s'.runs[|s.runs|].request.ItsSlot() == slot;
      }
    }
  }

  /** In every interleaving: rows are finished and backed by an execution, and a slot has one holder and then no row. */
  lemma {:induction false} RunKeepsInvariants<R(!new)>(evs: seq<Event<R>>, tr: seq<System<R>>, k: nat)
    requires Trace(evs, tr) && k < |tr|
    ensures AllCompleted(tr[k].rows) && Exclusive(tr[k]) && Admitted(tr[k]) && forall slot :: Backed(tr[k], slot)
  {
    hide Next, Exclusive, Admitted;
    if k == 0 {
      NobodyHolds(tr[0]);
    } else {
      RunKeepsInvariants(evs, tr, k - 1);
      StepKeepsExclusive(tr[k - 1], evs[k - 1]);
      StepKeepsAdmitted(tr[k - 1], evs[k - 1]);
      StepKeepsRows(tr[k - 1], evs[k - 1]);
    }
  }

  lemma NobodyHolds<R(!new)>(s: System<R>)
    requires s.open == map[]
    ensures Exclusive(s) && Admitted(s)
  {
  }

  lemma StepKeepsAdmitted<R(!new)>(s: System<R>, e: Event<R>)
    requires Admitted(s) && Enabled(s, e)
    ensures Admitted(Next(s, e))
  {
  }

  /** No cleanup in events i..k runs after the row's retention is over. */
  ghost predicate Retained<R>(evs: seq<Event<R>>, i: nat, k: nat, expiresAt: int)
    requires i <= k <= |evs|
  {
    forall n :: i <= n < k && evs[n].Cleanup? ==> evs[n].now <= expiresAt
  }

  /** Until it expires a committed row is never changed, whoever else uses its key. */
  lemma {:induction false} RowStaysAsWritten<R(!new)>(evs: seq<Event<R>>, tr: seq<System<R>>, i: nat, k: nat,
      slot: Slot)
    requires Trace(evs, tr) && i <= k < |tr| && slot in tr[i].rows
    requires Retained(evs, i, k, tr[i].rows[slot].expiresAt)
    ensures slot in tr[k].rows && tr[k].rows[slot] == tr[i].rows[slot]
    decreases k
  {
    hide Next, Enabled;
    if i < k {
      RowStaysAsWritten(evs, tr, i, k - 1, slot);
      RunKeepsInvariants(evs, tr, k - 1);
      StepKeepsRow(tr[k - 1], evs[k - 1], slot);
    }
  }

  lemma StepKeepsRow<R(!new)>(s: System<R>, e: Event<R>, slot: Slot)
    requires Exclusive(s) && Enabled(s, e) && slot in s.rows
    requires e.Cleanup? ==> e.now <= s.rows[slot].expiresAt
    ensures slot in Next(s, e).rows && Next(s, e).rows[slot] == s.rows[slot]
  {
    if e.Commit? && s.open[e.tx].request.Guarded() {
      assert Holds(s, e.tx, s.open[e.tx].request.ItsSlot());
    }
  }

  /** Event k commits an execution under the slot. */
  ghost predicate CommitsSlot<R(!new)>(s: System<R>, e: Event<R>, slot: Slot) {
    e.Commit? && Holds(s, e.tx, slot)
  }

  /** Within the retention period no second execution under the same slot commits, in any interleaving. */
  lemma AtMostOneCommits<R(!new)>(evs: seq<Event<R>>, tr: seq<System<R>>, i: nat, k: nat, slot: Slot)
    requires Trace(evs, tr) && i < k < |evs| && CommitsSlot(tr[i], evs[i], slot)
    requires Retained(evs, i, k, tr[i].open[evs[i].tx].startedAt + RETENTION)
    ensures !CommitsSlot(tr[k], evs[k], slot)
  {
    assert Enabled(tr[i], evs[i]) && tr[i + 1] == Next(tr[i], evs[i]);
    RowStaysAsWritten(evs, tr, i + 1, k, slot);
    RunKeepsInvariants(evs, tr, k);
  }

  /** Event e closes a guarded transaction of the slot, other than by losing its connection. */
  ghost predicate Answers<R>(s: System<R>, e: Event<R>, slot: Slot, tx: TxId) {
    && Enabled(s, e) && !e.Abort? && !e.Begin?
    && tx in s.open && tx !in Next(s, e).open
    && s.open[tx].request.Guarded() && s.open[tx].request.ItsSlot() == slot
  }

  /** After a commit every answer under its key is that response again, or the refusal of a different body. */
  lemma LaterRequestsReplay<R(!new)>(evs: seq<Event<R>>, tr: seq<System<R>>, i: nat, k: nat, slot: Slot, tx: TxId)
    requires Trace(evs, tr) && i < k < |evs| && CommitsSlot(tr[i], evs[i], slot)
    requires Retained(evs, i, k, tr[i].open[evs[i].tx].startedAt + RETENTION)
    requires Answers(tr[k], evs[k], slot, tx)
    ensures tx in tr[k + 1].replies
    ensures tr[k + 1].replies[tx] == if tr[k].open[tx].request.hash == tr[i].open[evs[i].tx].request.hash
                                     then Replayed(tr[i].open[evs[i].tx].phase.response) else Thrown(DifferentBody)
  {
    assert Enabled(tr[i], evs[i]) && tr[i + 1] == Next(tr[i], evs[i]);
    RowStaysAsWritten(evs, tr, i + 1, k, slot);
    RunKeepsInvariants(evs, tr, k);
    assert Enabled(tr[k], evs[k]) && tr[k + 1] == Next(tr[k], evs[k]);
    assert !Holds(tr[k], tx, slot);
  }

  /** The vanished-row conflict needs a cleanup past the retention time between the losing insert and its read. */
  lemma LoserFindsTheRow<R(!new)>(evs: seq<Event<R>>, tr: seq<System<R>>, i: nat, k: nat, tx: TxId)
    requires Trace(evs, tr) && i < k < |evs| && evs[i] == Insert(tx) && evs[k] == Read(tx)
    requires tr[i].open[tx].request.ItsSlot() in tr[i].rows
    requires tx in tr[k].open && tr[k].open[tx].request == tr[i].open[tx].request
    requires Retained(evs, i, k, tr[i].rows[tr[i].open[tx].request.ItsSlot()].expiresAt)
    ensures tr[k + 1].replies[tx] != Thrown(Inconsistent)
  {
    RowStaysAsWritten(evs, tr, i, k, tr[i].open[tx].request.ItsSlot());
    assert Enabled(tr[k], evs[k]) && tr[k + 1] == Next(tr[k], evs[k]);
  }

  /** The conflict answer for a request still being processed is never given: the insert has already waited. */
  lemma {:induction false} NeverStillInFlight<R(!new)>(evs: seq<Event<R>>, tr: seq<System<R>>, k: nat, tx: TxId)
    requires Trace(evs, tr) && k < |tr| && tx in tr[k].replies
    ensures tr[k].replies[tx] != Thrown(StillInFlight)
  {
    hide Next, Enabled;
    if k > 0 {
      RunKeepsInvariants(evs, tr, k - 1);
      StepAnswersWell(tr[k - 1], evs[k - 1], tx);
      if tx in tr[k - 1].replies {
        NeverStillInFlight(evs, tr, k - 1, tx);
      }
    }
  }

  lemma StepAnswersWell<R(!new)>(s: System<R>, e: Event<R>, tx: TxId)
    requires AllCompleted(s.rows) && Enabled(s, e) && tx in Next(s, e).replies
    ensures Next(s, e).replies[tx] != Thrown(StillInFlight)
            || (tx in s.replies && Next(s, e).replies[tx] == s.replies[tx])
  {
  }

  /** A failed operation or a lost connection commits nothing, and frees the key for whoever waits on it. */
  lemma FailureFreesTheKey<R(!new)>(evs: seq<Event<R>>, tr: seq<System<R>>, k: nat, slot: Slot, next: TxId)
    requires Trace(evs, tr) && k < |evs|
    requires (evs[k].Operate? && evs[k].result.Failure?) || evs[k].Abort?
    requires Holds(tr[k], evs[k].tx, slot)
    requires next in tr[k].open && next != evs[k].tx && tr[k].open[next].phase == Arrived
    requires tr[k].open[next].request.Guarded() && tr[k].open[next].request.ItsSlot() == slot
    ensures tr[k + 1].rows == tr[k].rows && tr[k + 1].runs == tr[k].runs
    ensures !Enabled(tr[k], Insert(next))
    ensures Enabled(tr[k + 1], Insert(next)) && Holds(Next(tr[k + 1], Insert(next)), next, slot)
  {
    RunKeepsInvariants(evs, tr, k);
    assert Enabled(tr[k], evs[k]) && tr[k + 1] == Next(tr[k], evs[k]);
    var s' := tr[k + 1];
    forall other ensures !Holds(s', other, slot) {
      if Holds(s', other, slot) {
        assert Holds(tr[k], other, slot);
      }
    }
  }

  // ---- the interleaving does what the code of one transaction says ----

  /** The operation that adds its execution to the committed ones and answers `response`. */
  function Executes<R>(tx: TxId, request: Request, response: Response<R>)
    : seq<Run<R>> -> (seq<Run<R>>, Outcome<Response<R>>)
  {
    runs => (runs + [Run(tx, request, response)], Answer(response))
  }

  function Committable<R>(s: System<R>): Db<seq<Run<R>>, R> {
    Db(s.rows, s.runs)
  }

  /**
   * Each commit or answer of the interleaving is the whole transaction run at that instant on the
   * committed database; every other event but a cleanup leaves the committed database alone.
   */
  lemma StepsAreSerial<R(!new)>(evs: seq<Event<R>>, tr: seq<System<R>>, k: nat)
    requires Trace(evs, tr) && k < |evs| && !evs[k].Cleanup?
    ensures evs[k].Commit? ==>
              var t := tr[k].open[evs[k].tx];
              var op := Executes(evs[k].tx, t.request, t.phase.response);
              && Committable(tr[k + 1])
                 == Committed(Committable(tr[k]), Body(Committable(tr[k]), t.request, op, t.startedAt))
              && tr[k + 1].replies[evs[k].tx] == Ending(Committable(tr[k]), t.request, op, t.startedAt).1
    ensures evs[k].Read? && tr[k].open[evs[k].tx].request.ItsSlot() in tr[k].rows ==>
              forall op, now ::
                tr[k + 1].replies[evs[k].tx] == Ending(Committable(tr[k]), tr[k].open[evs[k].tx].request, op, now).1
    ensures !evs[k].Commit? ==> Committable(tr[k + 1]) == Committable(tr[k])
  {
    RunKeepsInvariants(evs, tr, k);
    assert Enabled(tr[k], evs[k]) && tr[k + 1] == Next(tr[k], evs[k]);
    if evs[k].Commit? && tr[k].open[evs[k].tx].request.Guarded() {
      assert Holds(tr[k], evs[k].tx, tr[k].open[evs[k].tx].request.ItsSlot());
    }
  }
}

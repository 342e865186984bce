/**
 * The job table of src/jobs/queue.ts. Every operation is one transaction, so each is a
 * function from the table before to the table after; class `Jobs` runs them in place.
 */
module JobQueue {
  import opened Prelude

  type JobId = nat
  type WorkerId = nat

  datatype Status = Queued | Running | Succeeded | Failed | Dead

  datatype Job = Job(
    queue: string,
    jobType: string,
    priority: int,
    runAt: int,
    maxAttempts: int,
    timeoutSeconds: int,
    dedupeKey: Option<string>,
    status: Status,
    attempts: nat,
    errorCount: nat,
    lockedAt: Option<int>,
    lockedBy: Option<WorkerId>,
    finishedAt: Option<int>)

  type Table = map<JobId, Job>

  /** What a caller hands to enqueue; every field but the type may be left out. */
  datatype Request = Request(
    jobType: string,
    queue: Option<string>,
    runAt: Option<int>,
    maxAttempts: Option<int>,
    priority: Option<int>,
    timeoutSeconds: Option<int>,
    dedupeKey: Option<string>)

  /** The rows the partial unique index on (queue, dedupe_key) covers. */
  predicate Live(j: Job) {
    j.status in {Queued, Running, Failed}
  }

  /** Some other live row already holds this key, so the unique index refuses a second one. */
  predicate KeyTaken(t: Table, except: Option<JobId>, queue: string, key: Option<string>) {
    && key.Some?
    && (exists id :: id in t && Some(id) != except && Live(t[id]) && t[id].queue == queue && t[id].dedupeKey == key)
  }

  function NewJob(p: Request, now: int): Job {
    Job(p.queue.GetOr("default"), p.jobType, p.priority.GetOr(100), p.runAt.GetOr(now),
        p.maxAttempts.GetOr(5), p.timeoutSeconds.GetOr(300), p.dedupeKey,
        Queued, 0, 0, None, None, None)
  }

  /** The table's check constraints on max_attempts and timeout_seconds. */
  predicate WellFormed(j: Job) {
    1 <= j.maxAttempts && 0 < j.timeoutSeconds
  }

  function Enqueued(t: Table, id: JobId, p: Request, now: int): Table
    requires id !in t
  {
    var j := NewJob(p, now);
    if !WellFormed(j) || KeyTaken(t, None, j.queue, j.dedupeKey) then t else t[id := j]
  }

  // ---- claiming ----

  predicate Due(j: Job, queue: string, now: int) {
    j.queue == queue && j.status in {Queued, Failed} && j.runAt <= now
  }

  /** `order by priority asc, run_at asc` */
  predicate Precedes(a: Job, b: Job) {
    a.priority < b.priority || (a.priority == b.priority && a.runAt < b.runAt)
  }

  /** Due rows nobody else's transaction has locked. */
  function Candidates(t: Table, queue: string, now: int, locked: set<JobId>): set<JobId> {
    set id | id in t && id !in locked && Due(t[id], queue, now)
  }

  /** `chosen` is an answer the claiming select may give: the best `limit` candidates. */
  ghost predicate Selection(t: Table, queue: string, limit: nat, now: int, locked: set<JobId>, chosen: set<JobId>) {
    var due := Candidates(t, queue, now, locked);
    && chosen <= due
    && |chosen| <= limit
    && (|chosen| == limit || chosen == due)
    && forall c, o :: c in chosen && o in due - chosen ==> !Precedes(t[o], t[c])
  }

  predicate IsBest(t: Table, ids: set<JobId>, best: JobId)
    requires ids <= t.Keys
  {
    best in ids && forall o :: o in ids ==> !Precedes(t[o], t[best])
  }

  /** Among some rows there is one that none of them goes before. */
  lemma {:induction false} HasBest(t: Table, ids: set<JobId>)
    requires ids != {} && ids <= t.Keys
    ensures exists best :: IsBest(t, ids, best)
    decreases ids
  {
    var one :| one in ids;
    var rest := ids - {one};
    assert forall o :: o in ids ==> o == one || o in rest;
    if rest == {} {
      assert IsBest(t, ids, one);
    } else {
      assert rest < ids;
      HasBest(t, rest);
      var other :| IsBest(t, rest, other);
      assert IsBest(t, ids, if Precedes(t[one], t[other]) then one else other);
    }
  }

  function TakenBy(j: Job, worker: WorkerId, now: int): Job {
    j.(status := Running, lockedAt := Some(now), lockedBy := Some(worker), attempts := j.attempts + 1)
  }

  function Claimed(t: Table, chosen: set<JobId>, worker: WorkerId, now: int): Table {
    map id | id in t :: if id in chosen then TakenBy(t[id], worker, now) else t[id]
  }

  // ---- finishing ----

  predicate Owned(t: Table, id: JobId, ownedBy: Option<WorkerId>) {
    id in t && t[id].status == Running && (ownedBy == None || t[id].lockedBy == ownedBy)
  }

  function Completed(t: Table, id: JobId, ownedBy: Option<WorkerId>, now: int): Table {
    if Owned(t, id, ownedBy)
    then t[id := t[id].(status := Succeeded, finishedAt := Some(now), lockedAt := None, lockedBy := None)]
    else t
  }

  /** The back-off before jitter: 30 s doubling per attempt, capped at an hour. */
  function BackoffBase(attempts: nat): int {
    Min(3600, 30 * Pow2(if attempts >= 1 then attempts - 1 else 0))
  }

  /** `jitter` is the draw of Math.random(). */
  function Jittered(base: int, jitter: real): int {
    Scaled(base, 0.5 + jitter * 0.5)
  }

  function Scaled(base: int, factor: real): int {
    Product(base as real, factor).Floor
  }

  function Product(x: real, y: real): real {
    x * y
  }

  function RetryDelay(attempts: nat, jitter: real): int
    requires 0.0 <= jitter < 1.0
  {
    Jittered(BackoffBase(attempts), jitter)
  }

  /** What a worker remembers of a job it was handed: the row as the claim returned it. */
  datatype Handed = Handed(id: JobId, worker: WorkerId, attempts: nat, maxAttempts: int)

  predicate Exhausted(h: Handed, permanent: bool) {
    permanent || h.attempts >= h.maxAttempts
  }

  function FailedRow(j: Job, exhausted: bool, delay: int, now: int): Job {
    j.(status := if exhausted then Dead else Failed,
       errorCount := j.errorCount + 1,
       lockedAt := None, lockedBy := None,
       runAt := if exhausted then j.runAt else now + delay,
       finishedAt := if exhausted then Some(now) else None)
  }

  /** The update is keyed on the id alone; the unique index may still refuse it. */
  predicate FailApplies(t: Table, h: Handed, permanent: bool) {
    h.id in t && (Exhausted(h, permanent) || !KeyTaken(t, Some(h.id), t[h.id].queue, t[h.id].dedupeKey))
  }

  function FailedTable(t: Table, h: Handed, permanent: bool, delay: int, now: int): Table {
    if FailApplies(t, h, permanent)
    then t[h.id := FailedRow(t[h.id], Exhausted(h, permanent), delay, now)]
    else t
  }

  predicate Stuck(j: Job, now: int) {
    j.status == Running && j.lockedAt.Some? && j.lockedAt.value < now - j.timeoutSeconds
  }

  function ReapedRow(j: Job, now: int): Job {
    FailedRow(j, j.attempts >= j.maxAttempts, 60, now).(runAt := now + 60)
  }

  function Reaped(t: Table, now: int): Table {
    map id | id in t :: if Stuck(t[id], now) then ReapedRow(t[id], now) else t[id]
  }

  function StuckRows(t: Table, now: int): set<JobId> {
    set id | id in t && Stuck(t[id], now)
  }

  lemma ReapedRowIs(j: Job, now: int)
    ensures var row := ReapedRow(j, now);
            && row.status == (if row.attempts < row.maxAttempts then Failed else Dead)
            && row.lockedBy == None && row.lockedAt == None
            && row.finishedAt == (if row.status == Dead then Some(now) else None)
            && row.runAt == now + 60 && row.errorCount == j.errorCount + 1
            && row.attempts == j.attempts && SameOrder(row, j)
  {
  }

  function Changed(t: Table, t': Table): set<JobId> {
    set id | id in t && id in t' && t[id] != t'[id]
  }

  /** Exactly the stuck rows change. */
  lemma ReapChangesStuckRows(t: Table, now: int)
    ensures Reaped(t, now).Keys == t.Keys && Changed(t, Reaped(t, now)) == StuckRows(t, now)
    ensures StuckRows(t, now) == {} <==> Reaped(t, now) == t
  {
    hide ReapedRow, Stuck;
    forall id | id in t ensures Reaped(t, now)[id] != t[id] <==> Stuck(t[id], now) {
      ReapedRowIs(t[id], now);
    }
    if StuckRows(t, now) == {} {
      assert forall id :: id in t ==> id !in StuckRows(t, now);
      assert Reaped(t, now) == t;
    }
  }

  predicate RetryApplies(t: Table, id: JobId) {
    id in t && t[id].status == Dead && !KeyTaken(t, Some(id), t[id].queue, t[id].dedupeKey)
  }

  function Retried(t: Table, id: JobId, now: int): Table {
    if RetryApplies(t, id)
    then t[id := t[id].(status := Queued, attempts := 0, errorCount := 0, runAt := now, finishedAt := None)]
    else t
  }

  // ---- what changes and what does not ----

  /** The columns that only the enqueue writes. */
  predicate SameOrder(a: Job, b: Job) {
    && a.queue == b.queue && a.jobType == b.jobType && a.priority == b.priority && a.maxAttempts == b.maxAttempts
    && a.timeoutSeconds == b.timeoutSeconds && a.dedupeKey == b.dedupeKey
  }

  ghost predicate OnlyRow(t: Table, t': Table, id: JobId) {
    t'.Keys == t.Keys && forall other :: other in t && other != id ==> t'[other] == t[other]
  }

  /** A row as the enqueue leaves it. */
  predicate Untried(j: Job) {
    && j.status == Queued && j.attempts == 0 && j.errorCount == 0
    && j.lockedAt == None && j.lockedBy == None && j.finishedAt == None
  }

  /** What the caller asked for, and the defaults for what it left out. */
  predicate AsAsked(j: Job, p: Request, now: int) {
    && j.jobType == p.jobType && j.dedupeKey == p.dedupeKey
    && (if p.queue.Some? then j.queue == p.queue.value else j.queue == "default")
    && (if p.runAt.Some? then j.runAt == p.runAt.value else j.runAt == now)
    && (if p.maxAttempts.Some? then j.maxAttempts == p.maxAttempts.value else j.maxAttempts == 5)
    && (if p.priority.Some? then j.priority == p.priority.value else j.priority == 100)
    && (if p.timeoutSeconds.Some? then j.timeoutSeconds == p.timeoutSeconds.value else j.timeoutSeconds == 300)
  }

  /** A row as the reaper leaves it: released once it has run longer than its limit, and otherwise untouched. */
  predicate OnTime(row: Job, before: Job, now: int) {
    if before.status == Running && before.lockedAt.Some? && now - before.lockedAt.value > before.timeoutSeconds then
      && row.status == (if before.attempts < before.maxAttempts then Failed else Dead)
      && row.lockedBy == None && row.lockedAt == None
      && row.runAt == now + 60 && row.errorCount == before.errorCount + 1
      && row.finishedAt == (if before.attempts < before.maxAttempts then None else Some(now))
      && row.attempts == before.attempts && SameOrder(row, before)
    else row == before
  }

  lemma ReapsOnTime(j: Job, now: int)
    ensures OnTime(if Stuck(j, now) then ReapedRow(j, now) else j, j, now)
  {
  }

  // ---- the operations, updating the table in place ----

  class Jobs {
    var table: Table

    constructor ()
      ensures table == map[]
    {
      table := map[];
    }

    /** `uuid` is the id the database would generate. None is "deduplicated", Failure a refused row. */
    method Enqueue(uuid: JobId, p: Request, now: int) returns (r: Outcome<Option<JobId>>)
      requires uuid !in table
      modifies this
      ensures table == Enqueued(old(table), uuid, p, now)
      ensures r == if !WellFormed(NewJob(p, now)) then Failure else Answer(if uuid in table then Some(uuid) else None)
      ensures r == Answer(Some(uuid)) ==> uuid in table && Untried(table[uuid]) && AsAsked(table[uuid], p, now)
      ensures forall id :: id in old(table) ==> id in table && table[id] == old(table)[id]
      ensures forall id :: id in table ==> id in old(table) || (id == uuid && r == Answer(Some(uuid)))
      ensures r == Failure <==> p.maxAttempts.GetOr(5) < 1 || p.timeoutSeconds.GetOr(300) <= 0
      ensures r.Answer? ==>
                (r.value == None <==>
                 p.dedupeKey.Some?
                 && (exists id :: id in old(table) && table[id].dedupeKey == p.dedupeKey
                                  && table[id].queue == p.queue.GetOr("default")
                                  && table[id].status != Succeeded && table[id].status != Dead))
    {
      var j := NewJob(p, now);
      if !WellFormed(j) {
        return Failure;
      }
      if KeyTaken(table, None, j.queue, j.dedupeKey) {
        return Answer(None);
      }
      table := table[uuid := j];
      return Answer(Some(uuid));
    }

    /** The select of the claim, one best candidate at a time. */
    method Select(queue: string, limit: nat, now: int, locked: set<JobId>) returns (chosen: set<JobId>)
      ensures Selection(table, queue, limit, now, locked, chosen)
    {
      hide Precedes;
      chosen := {};
      var rest := Candidates(table, queue, now, locked);
      ghost var due := rest;
      while rest != {} && |chosen| < limit
        invariant rest + chosen == due && rest !! chosen && |chosen| <= limit
        invariant forall c, o :: c in chosen && o in rest ==> !Precedes(table[o], table[c])
        decreases rest
      {
        HasBest(table, rest);
        var best :| best in rest && IsBest(table, rest, best);
        assert rest - {best} < rest;
        rest := rest - {best};
        chosen := chosen + {best};
      }
    }

    method ClaimJobs(queue: string, limit: nat, worker: WorkerId, now: int, locked: set<JobId>)
        returns (chosen: set<JobId>)
      modifies this
      ensures Selection(old(table), queue, limit, now, locked, chosen)
      ensures table == Claimed(old(table), chosen, worker, now)
      ensures |chosen| <= limit
      ensures forall id :: id in chosen ==>
                && id in old(table) && id !in locked && old(table)[id].queue == queue && old(table)[id].runAt <= now
                && (old(table)[id].status == Queued || old(table)[id].status == Failed)
      ensures forall o | o in old(table) && o !in locked + chosen :: old(table)[o].queue == queue
                && old(table)[o].runAt <= now && (old(table)[o].status == Queued || old(table)[o].status == Failed)
                ==> && |chosen| == limit
                    && forall c :: c in chosen ==>
                         || old(table)[c].priority < old(table)[o].priority
                         || (old(table)[c].priority == old(table)[o].priority
                             && old(table)[c].runAt <= old(table)[o].runAt)
      ensures table.Keys == old(table).Keys
      ensures forall id :: id in table && id !in chosen ==> table[id] == old(table)[id]
      ensures forall id :: id in chosen ==>
                && id in table && table[id].status == Running
                && table[id].lockedBy == Some(worker) && table[id].lockedAt == Some(now)
                && table[id].attempts == old(table)[id].attempts + 1 && SameOrder(table[id], old(table)[id])
                && table[id].errorCount == old(table)[id].errorCount && table[id].runAt == old(table)[id].runAt
                && table[id].finishedAt == old(table)[id].finishedAt
    {
      chosen := Select(queue, limit, now, locked);
      table := Claimed(table, chosen, worker, now);
    }

    /** False is the logged case: the job was no longer ours and the result is discarded. */
    method CompleteJob(id: JobId, ownedBy: Option<WorkerId>, now: int) returns (kept: bool)
      modifies this
      ensures OnlyRow(old(table), table, id)
      ensures kept <==> id in old(table) && old(table)[id].status == Running
                        && (ownedBy.Some? ==> old(table)[id].lockedBy == ownedBy)
      ensures kept ==>
                && table[id].status == Succeeded && table[id].finishedAt == Some(now)
                && table[id].lockedBy == None && table[id].lockedAt == None
                && table[id].attempts == old(table)[id].attempts && table[id].runAt == old(table)[id].runAt
                && table[id].errorCount == old(table)[id].errorCount && SameOrder(table[id], old(table)[id])
      ensures !kept ==> table == old(table)
      ensures table == Completed(old(table), id, ownedBy, now)
    {
      if id !in table || table[id].status != Running {
        return false;
      }
      if ownedBy.Some? && table[id].lockedBy != ownedBy {
        return false;
      }
      var row := table[id].(status := Succeeded, finishedAt := Some(now), lockedAt := None, lockedBy := None);
      table := table[id := row];
      return true;
    }

    /** Whether the job is dead; Failure is the unique index refusing the row. */
    method FailJob(h: Handed, permanent: bool, jitter: real, now: int) returns (r: Outcome<bool>)
      requires 0.0 <= jitter < 1.0
      modifies this
      ensures table == FailedTable(old(table), h, permanent, RetryDelay(h.attempts, jitter), now)
      ensures r == if h.id in old(table) && !FailApplies(old(table), h, permanent) then Failure
                   else Answer(Exhausted(h, permanent))
      ensures r == Failure <==>
                && h.id in old(table) && !permanent && h.attempts < h.maxAttempts
                && KeyTaken(old(table), Some(h.id), old(table)[h.id].queue, old(table)[h.id].dedupeKey)
      ensures OnlyRow(old(table), table, h.id)
      ensures r == Failure || h.id !in table ==> table == old(table)
      ensures r.Answer? && h.id in table ==>
                var row, before := table[h.id], old(table)[h.id];
                && row.lockedBy == None && row.lockedAt == None && row.errorCount == before.errorCount + 1
                && row.attempts == before.attempts && SameOrder(row, before)
                && if permanent || h.attempts >= h.maxAttempts
                   then r.value && row.status == Dead && row.finishedAt == Some(now) && row.runAt == before.runAt
                   else !r.value && row.status == Failed && row.finishedAt == None
                        && row.runAt == now + RetryDelay(h.attempts, jitter)
    {
      var dead := Exhausted(h, permanent);
      var delay := RetryDelay(h.attempts, jitter);
      if h.id !in table {
        return Answer(dead);
      }
      if !dead && KeyTaken(table, Some(h.id), table[h.id].queue, table[h.id].dedupeKey) {
        return Failure;
      }
      table := table[h.id := FailedRow(table[h.id], dead, delay, now)];
      return Answer(dead);
    }

    /** A stuck row goes back to the queue in a minute, or is dead if it used its attempts; no other row changes. */
    method ReapStuckJobs(now: int) returns (count: nat)
      modifies this
      ensures table.Keys == old(table).Keys
      ensures forall id :: id in table ==> OnTime(table[id], old(table)[id], now)
      ensures count == |Changed(old(table), table)|
      ensures count == 0 <==> table == old(table)
      ensures table == Reaped(old(table), now)
    {
      hide Stuck, ReapedRow, Changed, OnTime;
      ReapChangesStuckRows(table, now);
      forall id | id in table ensures OnTime(if Stuck(table[id], now) then ReapedRow(table[id], now) else table[id],
                                             table[id], now) {
        ReapsOnTime(table[id], now);
      }
      var stuck := StuckRows(table, now);
      count := |stuck|;
      table := map id | id in table :: if id in stuck then ReapedRow(table[id], now) else table[id];
      assert table == Reaped(old(table), now);
    }

    /** Whether a dead job was requeued; Failure is the unique index refusing the row. */
    method RetryDeadJob(id: JobId, now: int) returns (r: Outcome<bool>)
      modifies this
      ensures table == Retried(old(table), id, now)
      ensures r == if id in old(table) && old(table)[id].status == Dead && !RetryApplies(old(table), id) then Failure
                   else Answer(RetryApplies(old(table), id))
      ensures OnlyRow(old(table), table, id)
      ensures r == Answer(true) ==>
                && id in old(table) && old(table)[id].status == Dead
                && table[id].status == Queued && table[id].attempts == 0 && table[id].errorCount == 0
                && table[id].runAt == now && table[id].finishedAt == None
                && table[id].lockedAt == old(table)[id].lockedAt && table[id].lockedBy == old(table)[id].lockedBy
                && SameOrder(table[id], old(table)[id])
      ensures r != Answer(true) ==> table == old(table)
      ensures r == Answer(false) <==> id !in old(table) || old(table)[id].status != Dead
    {
      if id !in table || table[id].status != Dead {
        return Answer(false);
      }
      if KeyTaken(table, Some(id), table[id].queue, table[id].dedupeKey) {
        return Failure;
      }
      table := Retried(table, id, now);
      return Answer(true);
    }
  }

  lemma BackoffRange(attempts: nat)
    ensures 30 <= BackoffBase(attempts) <= BackoffBase(attempts + 1) <= 3600
  {
  }

  lemma ScalingBounds(x: real, f: real)
    requires 0.0 <= x && 0.5 <= f <= 1.0
    ensures x / 2.0 <= Product(x, f) <= x
  {
    var over, under := f - 0.5, 1.0 - f;
    assert x * over >= 0.0 && x * under >= 0.0;
    assert x * over == x * f - x * 0.5 && x * under == x - x * f;
  }

  lemma FloorBetween(base: int, x: real)
    requires base as real / 2.0 <= x <= base as real
    ensures base / 2 <= x.Floor <= base
  {
    assert (base / 2) as real <= base as real / 2.0;
  }

  lemma JitterHalvesAtMost(base: int, jitter: real)
    requires 0 <= base && 0.0 <= jitter < 1.0
    ensures base / 2 <= Jittered(base, jitter) <= base
  {
    hide Scaled;
    ScaledBetween(base, 0.5 + jitter * 0.5);
  }

  lemma ScaledBetween(base: int, factor: real)
    requires 0 <= base && 0.5 <= factor <= 1.0
    ensures base / 2 <= Scaled(base, factor) <= base
  {
    hide Product;
    ScalingBounds(base as real, factor);
    FloorBetween(base, Product(base as real, factor));
  }

  /** The back-off is half a minute up to the first attempt; every attempt after doubles it, up to an hour. */
  lemma BackoffDoubles(attempts: nat)
    ensures BackoffBase(0) == BackoffBase(1) == 30
    ensures attempts >= 1 ==> BackoffBase(attempts + 1) == Min(3600, 2 * BackoffBase(attempts))
  {
    assert Pow2(0) == 1;
  }

  /** The wait is the whole seconds of the back-off times a factor that the draw puts between a half and one. */
  lemma RetryDelayIs(attempts: nat, jitter: real)
    requires 0.0 <= jitter < 1.0
    ensures var exact := BackoffBase(attempts) as real * (1.0 + jitter) / 2.0;
            RetryDelay(attempts, jitter) as real <= exact < RetryDelay(attempts, jitter) as real + 1.0
  {
    hide BackoffBase;
    var base := BackoffBase(attempts) as real;
    assert base * (0.5 + jitter * 0.5) == base * (1.0 + jitter) / 2.0;
  }

  /** Jitter never more than halves the wait and never lengthens it; the wait stays within 15 s and an hour. */
  lemma RetryDelayBounds(attempts: nat, jitter: real)
    requires 0.0 <= jitter < 1.0
    ensures BackoffBase(attempts) / 2 <= RetryDelay(attempts, jitter) <= BackoffBase(attempts)
    ensures 15 <= RetryDelay(attempts, jitter) <= 3600
    ensures BackoffBase(attempts) <= BackoffBase(attempts + 1)
  {
    hide BackoffBase, Pow2, Jittered;
    BackoffRange(attempts);
    JitterHalvesAtMost(BackoffBase(attempts), jitter);
  }
}

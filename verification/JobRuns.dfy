/**
 * Runs of the job queue: any number of workers, events in any order and at any times.
 * A worker may report at any moment, however long ago it was handed the job.
 */
module JobRuns {
  import opened Prelude
  import opened JobQueue

  datatype Event =
    | Enqueue(id: JobId, request: Request, now: int)
    | Claim(worker: WorkerId, queue: string, limit: nat, now: int, locked: set<JobId>, chosen: set<JobId>)
    | Complete(id: JobId, ownedBy: Option<WorkerId>, now: int)
    | Fail(handed: Handed, permanent: bool, delay: int, now: int)
    | Reap(now: int)
    | Retry(id: JobId, now: int)

  ghost predicate Enabled(t: Table, e: Event) {
    match e
    case Enqueue(id, _, _) => id !in t
    case Claim(_, queue, limit, now, locked, chosen) => Selection(t, queue, limit, now, locked, chosen)
    case _ => true
  }

  function Next(t: Table, e: Event): Table {
    match e
    case Enqueue(id, request, now) => if id in t then t else Enqueued(t, id, request, now)
    case Claim(worker, _, _, now, _, chosen) => Claimed(t, chosen, worker, now)
    case Complete(id, ownedBy, now) => Completed(t, id, ownedBy, now)
    case Fail(h, permanent, delay, now) => FailedTable(t, h, permanent, delay, now)
    case Reap(now) => Reaped(t, now)
    case Retry(id, now) => Retried(t, id, now)
  }

  /** tr[i] is the table before event i; a queue starts empty. */
  ghost predicate Trace(evs: seq<Event>, tr: seq<Table>) {
    && |tr| == |evs| + 1
    && tr[0] == map[]
    && forall i :: 0 <= i < |evs| ==> Enabled(tr[i], evs[i]) && tr[i + 1] == Next(tr[i], evs[i])
  }

  // ---- what every step keeps ----

  /** A row names an owner exactly while it runs, and a finish time exactly once it is over. */
  ghost predicate LockInv(t: Table) {
    forall id :: id in t ==>
      && (t[id].status == Running <==> t[id].lockedBy.Some?)
      && (t[id].status == Running <==> t[id].lockedAt.Some?)
      && (t[id].status in {Succeeded, Dead} <==> t[id].finishedAt.Some?)
  }

  /** The partial unique index: one live row per (queue, dedupe key). */
  ghost predicate UniqueInv(t: Table) {
    forall a, b ::
      (a in t && b in t && a != b && Live(t[a]) && Live(t[b]) && t[a].queue == t[b].queue && t[a].dedupeKey.Some?)
      ==> t[a].dedupeKey != t[b].dedupeKey
  }

  lemma StepKeepsLocks(t: Table, e: Event)
    requires LockInv(t) && Enabled(t, e)
    ensures LockInv(Next(t, e)) && t.Keys <= Next(t, e).Keys
  {
  }

  /** A step that makes no row newly live, and changes no queue or key, keeps keys unique. */
  lemma NoNewLiveRow(t: Table, t': Table)
    requires UniqueInv(t) && t'.Keys <= t.Keys
    requires forall id :: id in t' ==> t'[id].queue == t[id].queue && t'[id].dedupeKey == t[id].dedupeKey
    requires forall id :: id in t' && Live(t'[id]) ==> Live(t[id])
    ensures UniqueInv(t')
  {
  }

  /** One row becoming live keeps keys unique when the index found its key free. */
  lemma OneNewLiveRow(t: Table, id: JobId, j: Job)
    requires UniqueInv(t) && !KeyTaken(t, Some(id), j.queue, j.dedupeKey)
    ensures UniqueInv(t[id := j])
  {
  }

  lemma StepKeepsKeysUnique(t: Table, e: Event)
    requires UniqueInv(t) && Enabled(t, e)
    ensures UniqueInv(Next(t, e))
  {
    match e {
      case Enqueue(id, request, now) => if !KeyTaken(t, Some(id), NewJob(request, now).queue, request.dedupeKey) {
          OneNewLiveRow(t, id, NewJob(request, now));
        }
      case Fail(h, permanent, delay, now) =>
        if Exhausted(h, permanent) {
          NoNewLiveRow(t, Next(t, e));
        } else if FailApplies(t, h, permanent) {
          OneNewLiveRow(t, h.id, FailedRow(t[h.id], false, delay, now));
        }
      case Retry(id, now) => if RetryApplies(t, id) {
          OneNewLiveRow(t, id, Next(t, e)[id]);
        }
      case _ => NoNewLiveRow(t, Next(t, e));
    }
  }

  lemma StepKeepsInvariants(t: Table, e: Event)
    requires LockInv(t) && UniqueInv(t) && Enabled(t, e)
    ensures LockInv(Next(t, e)) && UniqueInv(Next(t, e))
    ensures t.Keys <= Next(t, e).Keys
  {
    hide LockInv, UniqueInv, Enabled, Next;
    StepKeepsLocks(t, e);
    StepKeepsKeysUnique(t, e);
  }

  /** In every interleaving a row is running exactly when it names an owner, and keys stay unique. */
  lemma {:induction false} RunKeepsInvariants(evs: seq<Event>, tr: seq<Table>, k: nat)
    requires Trace(evs, tr) && k < |tr|
    ensures LockInv(tr[k]) && UniqueInv(tr[k])
  {
    if k > 0 {
      RunKeepsInvariants(evs, tr, k - 1);
      StepKeepsInvariants(tr[k - 1], evs[k - 1]);
    }
  }

  /**
   * When the unique index refuses a failure report, the row was already over and another live job has its key;
   * a report about a live row is never refused.
   */
  lemma RefusedFailureIsLate(evs: seq<Event>, tr: seq<Table>, k: nat, h: Handed, permanent: bool)
    requires Trace(evs, tr) && k < |tr| && h.id in tr[k]
    ensures !FailApplies(tr[k], h, permanent) <==>
              (&& !Exhausted(h, permanent) && tr[k][h.id].status in {Succeeded, Dead}
               && exists other :: other in tr[k] && Live(tr[k][other]) && tr[k][other].queue == tr[k][h.id].queue
                                  && tr[k][h.id].dedupeKey.Some? && tr[k][other].dedupeKey == tr[k][h.id].dedupeKey)
  {
    RunKeepsInvariants(evs, tr, k);
  }

  // ---- who owns a running row ----

  /** While a row runs, a step either releases it or leaves it exactly as it was. */
  lemma RunningRowIsUntouchedOrReleased(t: Table, e: Event, id: JobId)
    requires LockInv(t) && Enabled(t, e) && id in t && t[id].status == Running
    ensures id in Next(t, e)
    ensures Next(t, e)[id] == t[id] || Next(t, e)[id].status != Running
    ensures e.Claim? ==> id !in e.chosen
  {
  }

  /** Only a claim naming the row makes it run, and it runs for that claimer. */
  lemma OnlyAClaimStartsARow(t: Table, e: Event, id: JobId)
    requires Enabled(t, e) && id in Next(t, e) && Next(t, e)[id].status == Running
    requires id in t ==> t[id].status != Running
    ensures e.Claim? && id in e.chosen && Next(t, e)[id].lockedBy == Some(e.worker)
    ensures id in t && Next(t, e)[id].attempts == t[id].attempts + 1
  {
  }

  /** Event m handed `id` to `w`, and the row has been running in every state since, up to k. */
  ghost predicate LeaseFrom(evs: seq<Event>, tr: seq<Table>, k: nat, id: JobId, w: WorkerId, m: nat)
    requires |tr| == |evs| + 1 && k < |tr|
  {
    && m < k
    && evs[m].Claim? && evs[m].worker == w && id in evs[m].chosen
    && forall n :: m < n <= k ==> id in tr[n] && tr[n][id].status == Running
  }

  ghost predicate HoldsLease(evs: seq<Event>, tr: seq<Table>, k: nat, id: JobId, w: WorkerId)
    requires |tr| == |evs| + 1 && k < |tr|
  {
    exists m: nat :: LeaseFrom(evs, tr, k, id, w, m)
  }

  /** Every running row goes back to one claim, and is still exactly what that claim wrote. */
  lemma {:induction false} RunningRowHasALease(evs: seq<Event>, tr: seq<Table>, k: nat, id: JobId) returns (m: nat)
    requires Trace(evs, tr) && k < |tr| && id in tr[k] && tr[k][id].status == Running
    ensures tr[k][id].lockedBy.Some? && LeaseFrom(evs, tr, k, id, tr[k][id].lockedBy.value, m)
    ensures tr[k][id] == tr[m + 1][id]
  {
    RunKeepsInvariants(evs, tr, k - 1);
    var before, e := tr[k - 1], evs[k - 1];
    if id in before && before[id].status == Running {
      RunningRowIsUntouchedOrReleased(before, e, id);
      m := RunningRowHasALease(evs, tr, k - 1, id);
    } else {
      OnlyAClaimStartsARow(before, e, id);
      m := k - 1;
    }
  }

  lemma {:induction false} LeaseNamesItsHolder(evs: seq<Event>, tr: seq<Table>, k: nat, id: JobId, w: WorkerId, m: nat)
    requires Trace(evs, tr) && k < |tr| && LeaseFrom(evs, tr, k, id, w, m)
    ensures tr[k][id].lockedBy == Some(w)
    decreases k
  {
    hide LockInv, UniqueInv;
    if m + 1 < k {
      assert LeaseFrom(evs, tr, k - 1, id, w, m);
      LeaseNamesItsHolder(evs, tr, k - 1, id, w, m);
      RunKeepsInvariants(evs, tr, k - 1);
      RunningRowIsUntouchedOrReleased(tr[k - 1], evs[k - 1], id);
    }
  }

  /** A worker's completion changes the table exactly when it has held the row since its own claim. */
  lemma CompletionCountsIffLeaseHeld(evs: seq<Event>, tr: seq<Table>, k: nat, id: JobId, w: WorkerId, now: int)
    requires Trace(evs, tr) && k < |tr|
    ensures Completed(tr[k], id, Some(w), now) != tr[k] <==> HoldsLease(evs, tr, k, id, w)
  {
    if Owned(tr[k], id, Some(w)) {
      var m := RunningRowHasALease(evs, tr, k, id);
      assert LeaseFrom(evs, tr, k, id, w, m);
      assert Completed(tr[k], id, Some(w), now)[id].status == Succeeded;
    }
    if m: nat :| LeaseFrom(evs, tr, k, id, w, m) {
      LeaseNamesItsHolder(evs, tr, k, id, w, m);
    }
  }

  /** A claimed row was running for nobody, so no two claims overlap. */
  lemma ClaimsDoNotOverlap(evs: seq<Event>, tr: seq<Table>, i: nat, k: nat, id: JobId)
    requires Trace(evs, tr) && i < k < |evs|
    requires evs[i].Claim? && id in evs[i].chosen && evs[k].Claim? && id in evs[k].chosen
    ensures id in tr[i + 1] && tr[i + 1][id].status == Running
    ensures exists n :: i + 1 < n <= k && id in tr[n] && tr[n][id].status != Running
  {
    assert Enabled(tr[i], evs[i]) && Enabled(tr[k], evs[k]);
    assert tr[k][id].status != Running;
    assert k != i + 1;
  }

  /** Reaped and re-claimed by someone else: the first worker's result can no longer reach the row. */
  lemma DisplacedWorkerCannotOverwrite(evs: seq<Event>, tr: seq<Table>, j: nat, k: nat, id: JobId, w: WorkerId,
      now: int)
    requires Trace(evs, tr) && j < k < |tr|
    requires evs[j].Claim? && id in evs[j].chosen && evs[j].worker != w
    requires forall n :: j < n < k && evs[n].Claim? && id in evs[n].chosen ==> evs[n].worker != w
    ensures Completed(tr[k], id, Some(w), now) == tr[k]
  {
    CompletionCountsIffLeaseHeld(evs, tr, k, id, w, now);
    assert Enabled(tr[j], evs[j]);
    assert tr[j][id].status != Running;
    assert forall m: nat :: LeaseFrom(evs, tr, k, id, w, m) ==> m < j;
  }

  /**
   * A failure report always takes a running row off its worker. It is harmless, leaving the row to its owner or
   * coming from the owner, exactly when the reporter has held the row since a claim of its own.
   */
  lemma LateReportIsHarmlessIff(evs: seq<Event>, tr: seq<Table>, k: nat, h: Handed, permanent: bool, delay: int,
      now: int)
    requires Trace(evs, tr) && k < |tr| && h.id in tr[k] && tr[k][h.id].status == Running
    ensures var after := FailedTable(tr[k], h, permanent, delay, now);
            && h.id in after && after[h.id].status != Running && after[h.id].lockedBy == None
            && (after[h.id] == tr[k][h.id] || tr[k][h.id].lockedBy == Some(h.worker)
                <==> HoldsLease(evs, tr, k, h.id, h.worker))
  {
    hide HoldsLease;
    RunKeepsInvariants(evs, tr, k);
    assert !KeyTaken(tr[k], Some(h.id), tr[k][h.id].queue, tr[k][h.id].dedupeKey);
    CompletionCountsIffLeaseHeld(evs, tr, k, h.id, h.worker, now);
    if Owned(tr[k], h.id, Some(h.worker)) {
      assert Completed(tr[k], h.id, Some(h.worker), now)[h.id].status == Succeeded;
    }
  }

  /**
   * A row that is over changes exactly by a manual retry or by a failure report the index lets through, however late:
   * that one makes it wait again unless it gives up.
   */
  lemma FinishedRowChangesIff(evs: seq<Event>, tr: seq<Table>, k: nat, id: JobId)
    requires Trace(evs, tr) && k < |evs| && id in tr[k] && tr[k][id].status in {Succeeded, Dead}
    ensures var t, e := tr[k], evs[k];
            && id in tr[k + 1]
            && (tr[k + 1][id] != t[id] <==>
                  Revives(t, e, id) || (e.Fail? && e.handed.id == id && FailApplies(t, e.handed, e.permanent)))
            && (tr[k + 1][id].status !in {Succeeded, Dead} <==>
                  || Revives(t, e, id)
                  || (e.Fail? && e.handed.id == id && FailApplies(t, e.handed, e.permanent)
                      && !Exhausted(e.handed, e.permanent)))
  {
    RunKeepsInvariants(evs, tr, k);
    assert Enabled(tr[k], evs[k]) && tr[k + 1] == Next(tr[k], evs[k]);
    FinishedRowStep(tr[k], evs[k], id);
  }

  lemma FinishedRowStep(t: Table, e: Event, id: JobId)
    requires LockInv(t) && Enabled(t, e) && id in t && t[id].status in {Succeeded, Dead}
    ensures id in Next(t, e)
    ensures Revives(t, e, id) ==> Next(t, e)[id].status == Queued
    ensures e.Fail? && e.handed.id == id && FailApplies(t, e.handed, e.permanent) ==>
              Next(t, e)[id].errorCount == t[id].errorCount + 1
              && Next(t, e)[id].status == if Exhausted(e.handed, e.permanent) then Dead else Failed
    ensures !Revives(t, e, id) && !(e.Fail? && e.handed.id == id && FailApplies(t, e.handed, e.permanent)) ==>
              Next(t, e)[id] == t[id]
  {
  }

  // ---- waiting for a retry ----

  /** What event e makes the row wait: the delay of a failure that will be retried, or a minute after a reap. */
  ghost function WaitAfter(t: Table, e: Event, id: JobId): Option<int> {
    match e
    case Fail(h, permanent, delay, now) =>
      if h.id == id && FailApplies(t, h, permanent) && !Exhausted(h, permanent) then Some(now + delay) else None
    case Reap(now) => if id in t && Stuck(t[id], now) then Some(now + 60) else None
    case _ => None
  }

  /** A failed or reaped row is not claimed again before its wait is over, unless something else touched it first. */
  lemma RetriesWait(evs: seq<Event>, tr: seq<Table>, i: nat, k: nat, id: JobId)
    requires Trace(evs, tr) && i < k < |evs| && WaitAfter(tr[i], evs[i], id).Some?
    requires evs[k].Claim? && id in evs[k].chosen
    requires forall n :: i < n <= k ==> id in tr[n] && tr[n][id] == tr[i + 1][id]
    ensures WaitAfter(tr[i], evs[i], id).value <= evs[k].now
  {
    assert Enabled(tr[k], evs[k]) && tr[i + 1] == Next(tr[i], evs[i]);
  }

  // ---- the attempt budget ----

  /** Attempts stay within max_attempts, and only a row with an attempt left may be claimed. */
  ghost predicate RowInBudget(j: Job) {
    && WellFormed(j)
    && j.attempts <= j.maxAttempts
    && (j.status in {Queued, Failed} ==> j.attempts < j.maxAttempts)
  }

  ghost predicate BudgetInv(t: Table) {
    forall id :: id in t ==> RowInBudget(t[id])
  }

  /** The failure comes from the attempt the row is on: same owner, same attempt. */
  ghost predicate FromCurrentAttempt(t: Table, h: Handed) {
    && Owned(t, h.id, Some(h.worker))
    && t[h.id].attempts == h.attempts && t[h.id].maxAttempts == h.maxAttempts
  }

  /** Recording a failure keeps the budget exactly when it gives up or an attempt is really left. */
  lemma FailKeepsBudgetIff(t: Table, h: Handed, permanent: bool, delay: int, now: int)
    requires BudgetInv(t)
    ensures BudgetInv(FailedTable(t, h, permanent, delay, now)) <==>
            (!FailApplies(t, h, permanent) || Exhausted(h, permanent) || t[h.id].attempts < t[h.id].maxAttempts)
  {
    var t' := FailedTable(t, h, permanent, delay, now);
    if FailApplies(t, h, permanent) {
      assert t'[h.id] == FailedRow(t[h.id], Exhausted(h, permanent), delay, now);
    }
  }

  lemma StepKeepsBudget(t: Table, e: Event)
    requires BudgetInv(t) && Enabled(t, e)
    requires e.Fail? ==> FromCurrentAttempt(t, e.handed)
    ensures BudgetInv(Next(t, e))
  {
    if e.Fail? {
      FailKeepsBudgetIff(t, e.handed, e.permanent, e.delay, e.now);
    }
  }

  /** Every failure in the run is reported by the attempt it concerns. */
  ghost predicate HonestFailures(evs: seq<Event>, tr: seq<Table>)
    requires |tr| == |evs| + 1
  {
    forall i :: 0 <= i < |evs| && evs[i].Fail? ==> FromCurrentAttempt(tr[i], evs[i].handed)
  }

  lemma {:induction false} AttemptsStayInBudget(evs: seq<Event>, tr: seq<Table>, k: nat)
    requires Trace(evs, tr) && HonestFailures(evs, tr) && k < |tr|
    ensures BudgetInv(tr[k])
  {
    if k > 0 {
      AttemptsStayInBudget(evs, tr, k - 1);
      StepKeepsBudget(tr[k - 1], evs[k - 1]);
    }
  }

  /** What is left of a job: two units an attempt, one more while it runs, none once it is over. */
  ghost function Rank(j: Job): int {
    if j.status in {Succeeded, Dead} then 0
    else 2 * (j.maxAttempts - j.attempts) + if j.status == Running then 1 else 0
  }

  /** A manual retry that goes through: the row is dead and its key is free. */
  ghost predicate Revives(t: Table, e: Event, id: JobId) {
    e.Retry? && e.id == id && RetryApplies(t, id)
  }

  /** Apart from a manual retry, every step that touches a row uses some of its rank up. */
  lemma EveryTouchDescends(t: Table, e: Event, id: JobId)
    requires LockInv(t) && BudgetInv(t) && Enabled(t, e) && id in t && !Revives(t, e, id)
    requires e.Fail? ==> FromCurrentAttempt(t, e.handed)
    ensures id in Next(t, e)
    ensures Next(t, e)[id] != t[id] ==> 0 <= Rank(Next(t, e)[id]) < Rank(t[id])
    ensures Next(t, e)[id].maxAttempts == t[id].maxAttempts
    ensures Next(t, e)[id].attempts == t[id].attempts + if e.Claim? && id in e.chosen then 1 else 0
  {
    StepKeepsBudget(t, e);
  }

  ghost function Touches(tr: seq<Table>, id: JobId, i: nat, k: nat): nat
    requires i <= k < |tr| && forall n :: i <= n <= k ==> id in tr[n]
    decreases k
  {
    if i == k then 0
    else Touches(tr, id, i, k - 1) + if tr[k - 1][id] != tr[k][id] then 1 else 0
  }

  ghost function Claims(evs: seq<Event>, id: JobId, i: nat, k: nat): nat
    requires i <= k <= |evs|
    decreases k
  {
    if i == k then 0
    else Claims(evs, id, i, k - 1) + if evs[k - 1].Claim? && id in evs[k - 1].chosen then 1 else 0
  }

  /** Rows are never deleted by the queue. */
  lemma {:induction false} RowsStay(evs: seq<Event>, tr: seq<Table>, i: nat, k: nat, id: JobId)
    requires Trace(evs, tr) && i <= k < |tr| && id in tr[i]
    ensures id in tr[k]
    decreases k
  {
    if i < k {
      RowsStay(evs, tr, i, k - 1, id);
      RunKeepsInvariants(evs, tr, k - 1);
      StepKeepsInvariants(tr[k - 1], evs[k - 1]);
    }
  }

  /**
   * Between manual retries: a row is touched no more often than its rank allows, each claim costs one
   * attempt, there are never more claims than attempts left, and a row that used them all is running or over.
   */
  lemma {:induction false} JobsRunOut(evs: seq<Event>, tr: seq<Table>, i: nat, k: nat, id: JobId)
    requires Trace(evs, tr) && HonestFailures(evs, tr) && i <= k < |tr| && id in tr[i]
    requires forall n :: i <= n < k ==> !Revives(tr[n], evs[n], id)
    ensures forall n :: i <= n <= k ==> id in tr[n]
    ensures tr[k][id].maxAttempts == tr[i][id].maxAttempts
    ensures Touches(tr, id, i, k) + Rank(tr[k][id]) <= Rank(tr[i][id]) <= 2 * tr[i][id].maxAttempts + 1
    ensures tr[k][id].attempts == tr[i][id].attempts + Claims(evs, id, i, k) <= tr[i][id].maxAttempts
    ensures tr[k][id].attempts == tr[k][id].maxAttempts ==> tr[k][id].status in {Running, Succeeded, Dead}
    decreases k
  {
    hide Next, Enabled, LockInv, UniqueInv;
    forall n | i <= n <= k ensures id in tr[n] {
      RowsStay(evs, tr, i, n, id);
    }
    AttemptsStayInBudget(evs, tr, k);
    assert RowInBudget(tr[k][id]);
    if i < k {
      JobsRunOut(evs, tr, i, k - 1, id);
      RunKeepsInvariants(evs, tr, k - 1);
      AttemptsStayInBudget(evs, tr, k - 1);
      EveryTouchDescends(tr[k - 1], evs[k - 1], id);
    }
  }

  /**
   * A manual retry gives a job its whole budget back, whatever became of it before: no attempt is used, the rank is
   * the highest there is, and up to the next retry every claim uses one of the max_attempts attempts.
   */
  lemma RevivedHasFullBudget(evs: seq<Event>, tr: seq<Table>, i: nat, k: nat, id: JobId)
    requires Trace(evs, tr) && HonestFailures(evs, tr) && i < k < |tr| && Revives(tr[i], evs[i], id)
    requires forall n :: i < n < k ==> !Revives(tr[n], evs[n], id)
    ensures id in tr[i] && id in tr[i + 1] && id in tr[k]
    ensures Untried(tr[i + 1][id]) && tr[i + 1][id].runAt == evs[i].now && SameOrder(tr[i + 1][id], tr[i][id])
    ensures tr[i + 1][id].attempts == 0 && Rank(tr[i + 1][id]) == 2 * tr[i][id].maxAttempts
    ensures tr[k][id].attempts == Claims(evs, id, i + 1, k) <= tr[i][id].maxAttempts == tr[k][id].maxAttempts
  {
    hide Claims, Touches, Rank;
    RunKeepsInvariants(evs, tr, i);
    assert Enabled(tr[i], evs[i]) && tr[i + 1] == Next(tr[i], evs[i]);
    RevivedRow(tr[i], evs[i], id);
    hide Next, Enabled, LockInv, UniqueInv, HonestFailures;
    JobsRunOut(evs, tr, i + 1, k, id);
  }

  lemma RevivedRow(t: Table, e: Event, id: JobId)
    requires LockInv(t) && Revives(t, e, id)
    ensures id in t && id in Next(t, e) && Untried(Next(t, e)[id]) && Next(t, e)[id].runAt == e.now
    ensures SameOrder(Next(t, e)[id], t[id]) && Rank(Next(t, e)[id]) == 2 * t[id].maxAttempts
  {
  }

  // ---- what an unguarded failure report can do ----

  /** The execution `h` describes really was handed out: an earlier claim took the row to that attempt. */
  ghost predicate WasHanded(evs: seq<Event>, tr: seq<Table>, k: nat, h: Handed)
    requires |tr| == |evs| + 1 && k < |tr|
  {
    exists m :: 0 <= m < k && evs[m].Claim? && h.id in evs[m].chosen && evs[m].worker == h.worker
      && h.id in tr[m + 1] && tr[m + 1][h.id].attempts == h.attempts && tr[m + 1][h.id].maxAttempts == h.maxAttempts
  }

  function Work(attempts: int, key: Option<string>): Request {
    Request("work", None, None, Some(attempts), None, Some(10), key)
  }

  /** A job allowed two attempts or more: claimed by worker 1, reaped, claimed by `second`. */
  lemma ReclaimedRun(second: WorkerId, attempts: int, key: Option<string>)
      returns (evs: seq<Event>, tr: seq<Table>, row: Job)
    requires attempts >= 2
    ensures Trace(evs, tr) && |evs| == 4 && (forall i :: 0 <= i < 4 ==> !evs[i].Fail?)
    ensures evs[1].Claim? && evs[1].worker == 1 && 0 in evs[1].chosen
    ensures 0 in tr[2] && tr[2][0].attempts == 1 && tr[2][0].maxAttempts == attempts
    ensures tr[4] == map[0 := row] && row.queue == "default" && row.dedupeKey == key
    ensures row.status == Running && row.lockedBy == Some(second) && WellFormed(row)
    ensures row.attempts == 2 && row.maxAttempts == attempts
  {
    var request := Work(attempts, key);
    var j0 := NewJob(request, 0);
    var j1 := TakenBy(j0, 1, 0);
    var j2 := ReapedRow(j1, 11);
    row := TakenBy(j2, second, 71);
    OneRowEnqueue(request);
    OneRowClaim(j0, 1, 0);
    OneRowReap(j1, 11);
    OneRowClaim(j2, second, 71);
    evs := [Enqueue(0, request, 0), Claim(1, "default", 1, 0, {}, {0}), Reap(11),
            Claim(second, "default", 1, 71, {}, {0})];
    tr := [map[], map[0 := j0], map[0 := j1], map[0 := j2], map[0 := row]];
    hide Next, Enabled;
    assert Trace(evs, tr);
  }

  lemma Extended(evs: seq<Event>, tr: seq<Table>, e: Event, t: Table)
    requires Trace(evs, tr) && Enabled(tr[|evs|], e) && t == Next(tr[|evs|], e)
    ensures Trace(evs + [e], tr + [t])
  {
    hide Enabled, Next;
    var evs', tr' := evs + [e], tr + [t];
    forall i | 0 <= i < |evs'| ensures Enabled(tr'[i], evs'[i]) && tr'[i + 1] == Next(tr'[i], evs'[i]) {
      if i < |evs| {
        assert evs'[i] == evs[i] && tr'[i] == tr[i] && tr'[i + 1] == tr[i + 1];
      }
    }
  }

  /**
   * Then worker 1's report of the first attempt, keyed on the id alone, puts the row back on the queue, and it is
   * claimed a third time.
   */
  lemma LateFailureRun(second: WorkerId) returns (evs: seq<Event>, tr: seq<Table>)
    ensures Trace(evs, tr) && |evs| == 6
    ensures forall i :: 0 <= i < |evs| && evs[i].Fail? ==> i == 4
    ensures evs[4].Fail? && evs[4].handed == Handed(0, 1, 1, 2) && WasHanded(evs, tr, 4, evs[4].handed)
    ensures Owned(tr[4], 0, Some(second)) && 0 in tr[5] && tr[5][0].lockedBy == None
    ensures 0 in tr[6] && tr[6][0].attempts > tr[6][0].maxAttempts
  {
    var row: Job;
    evs, tr, row := ReclaimedRun(second, 2, None);
    var h := Handed(0, 1, 1, 2);
    var released := FailedRow(row, false, 15, 72);
    var taken := TakenBy(released, 3, 87);
    OneRowFail(row, h, 15, 72);
    OneRowClaim(released, 3, 87);
    hide Next, Enabled;
    var fail, claim := Fail(h, false, 15, 72), Claim(3, "default", 1, 87, {}, {0});
    Extended(evs, tr, fail, map[0 := released]);
    Extended(evs + [fail], tr + [map[0 := released]], claim, map[0 := taken]);
    hide Trace;
    evs, tr := evs + [fail] + [claim], tr + [map[0 := released]] + [map[0 := taken]];
    assert evs[1].Claim?;
  }

  /**
   * The index does refuse a report: worker 1 is reaped, worker 2 finishes the job, the key is queued again, and
   * worker 1 reports its failure.
   */
  lemma RefusedFailureRun() returns (evs: seq<Event>, tr: seq<Table>, h: Handed)
    ensures Trace(evs, tr) && WasHanded(evs, tr, |evs|, h)
    ensures h.id in tr[|evs|] && !FailApplies(tr[|evs|], h, false)
  {
    var row: Job;
    evs, tr, row := ReclaimedRun(2, 2, Some("key"));
    h := Handed(0, 1, 1, 2);
    var done := row.(status := Succeeded, finishedAt := Some(72), lockedAt := None, lockedBy := None);
    var again := NewJob(Work(2, Some("key")), 73);
    var both := map[0 := done, 1 := again];
    OneRowComplete(row, 2, 72);
    SecondEnqueue(done, Work(2, Some("key")), 73);
    hide Next, Enabled;
    var complete, enqueue := Complete(0, Some(2), 72), Enqueue(1, Work(2, Some("key")), 73);
    Extended(evs, tr, complete, map[0 := done]);
    Extended(evs + [complete], tr + [map[0 := done]], enqueue, both);
    hide Trace;
    evs, tr := evs + [complete] + [enqueue], tr + [map[0 := done]] + [both];
    assert evs[1].Claim?;
    assert KeyTaken(both, Some(0), "default", Some("key")) by {
      assert both[1] == again && Live(again);
    }
  }

  /** Worker 1 is reaped, worker 2 finishes the job, and worker 1 reports its failure. */
  lemma FinishedThenFailed() returns (evs: seq<Event>, tr: seq<Table>, failed: Job)
    ensures Trace(evs, tr) && |evs| == 6
    ensures evs[5] == Fail(Handed(0, 1, 1, 3), false, 15, 73)
    ensures evs[1].Claim? && evs[1].worker == 1 && 0 in evs[1].chosen
    ensures 0 in tr[2] && tr[2][0].attempts == 1 && tr[2][0].maxAttempts == 3
    ensures 0 in tr[5] && tr[5][0].status == Succeeded && tr[6] == map[0 := failed]
    ensures failed.status == Failed && Due(failed, "default", 88) && WellFormed(failed)
    ensures failed.attempts == 2 && failed.maxAttempts == 3
  {
    var row: Job;
    evs, tr, row := ReclaimedRun(2, 3, None);
    var h := Handed(0, 1, 1, 3);
    var done := row.(status := Succeeded, finishedAt := Some(72), lockedAt := None, lockedBy := None);
    failed := FailedRow(done, false, 15, 73);
    OneRowComplete(row, 2, 72);
    OneRowFail(done, h, 15, 73);
    hide Next, Enabled;
    var complete, fail := Complete(0, Some(2), 72), Fail(h, false, 15, 73);
    Extended(evs, tr, complete, map[0 := done]);
    Extended(evs + [complete], tr + [map[0 := done]], fail, map[0 := failed]);
    hide Trace;
    evs, tr := evs + [complete] + [fail], tr + [map[0 := done]] + [map[0 := failed]];
  }

  /** So a succeeded job runs again, and nothing is wrong with its budget. */
  lemma FinishedJobRunsAgain() returns (evs: seq<Event>, tr: seq<Table>)
    ensures Trace(evs, tr) && |evs| == 7
    ensures evs[5].Fail? && WasHanded(evs, tr, 5, evs[5].handed)
    ensures 0 in tr[5] && tr[5][0].status == Succeeded && 0 in tr[6] && tr[6][0].status == Failed
    ensures 0 in tr[7] && tr[7][0].status == Running && BudgetInv(tr[7])
  {
    var failed: Job;
    evs, tr, failed := FinishedThenFailed();
    TraceLength(evs, tr);
    var taken := TakenBy(failed, 3, 88);
    OneRowClaim(failed, 3, 88);
    hide Next, Enabled;
    var claim := Claim(3, "default", 1, 88, {}, {0});
    Extended(evs, tr, claim, map[0 := taken]);
    hide Trace, WasHanded;
    evs, tr := evs + [claim], tr + [map[0 := taken]];
    HandedFrom(evs, tr, 1, 5, evs[5].handed);
  }

  /** A claim before event k handed out what `h` describes. */
  lemma HandedFrom(evs: seq<Event>, tr: seq<Table>, m: nat, k: nat, h: Handed)
    requires |tr| == |evs| + 1 && m < k < |tr| && evs[m].Claim? && h.id in evs[m].chosen && evs[m].worker == h.worker
    requires h.id in tr[m + 1] && tr[m + 1][h.id].attempts == h.attempts && tr[m + 1][h.id].maxAttempts == h.maxAttempts
    ensures WasHanded(evs, tr, k, h)
  {
  }

  lemma OneRowComplete(j: Job, w: WorkerId, now: int)
    requires j.status == Running && j.lockedBy == Some(w)
    ensures Enabled(map[0 := j], Complete(0, Some(w), now))
    ensures Next(map[0 := j], Complete(0, Some(w), now))
         == map[0 := j.(status := Succeeded, finishedAt := Some(now), lockedAt := None, lockedBy := None)]
  {
  }

  lemma SecondEnqueue(j: Job, p: Request, now: int)
    requires !Live(j) && WellFormed(NewJob(p, now))
    ensures Enabled(map[0 := j], Enqueue(1, p, now))
    ensures Next(map[0 := j], Enqueue(1, p, now)) == map[0 := j, 1 := NewJob(p, now)]
  {
    assert !KeyTaken(map[0 := j], None, NewJob(p, now).queue, p.dedupeKey);
    assert map[0 := j][1 := NewJob(p, now)] == map[0 := j, 1 := NewJob(p, now)];
  }

  lemma OneRowEnqueue(p: Request)
    requires WellFormed(NewJob(p, 0))
    ensures Enabled(map[], Enqueue(0, p, 0)) && Next(map[], Enqueue(0, p, 0)) == map[0 := NewJob(p, 0)]
  {
  }

  lemma OneRowReap(j: Job, now: int)
    requires Stuck(j, now)
    ensures Enabled(map[0 := j], Reap(now)) && Next(map[0 := j], Reap(now)) == map[0 := ReapedRow(j, now)]
  {
  }

  lemma OneRowFail(j: Job, h: Handed, delay: int, now: int)
    requires h.id == 0 && !Exhausted(h, false)
    ensures Enabled(map[0 := j], Fail(h, false, delay, now))
    ensures Next(map[0 := j], Fail(h, false, delay, now)) == map[0 := FailedRow(j, false, delay, now)]
  {
  }

  /** A late failure takes a running job from the worker that owns it by now, and breaks the attempt budget. */
  lemma StaleFailureBreaksTheBudget() returns (evs: seq<Event>, tr: seq<Table>)
    ensures Trace(evs, tr)
    ensures forall i :: 0 <= i < |evs| && evs[i].Fail? ==> WasHanded(evs, tr, i, evs[i].handed)
    ensures exists i :: 0 <= i < |evs| && evs[i].Fail? && Owned(tr[i], 0, Some(2)) && evs[i].handed.worker == 1
                        && tr[i + 1][0].lockedBy == None
    ensures exists k :: 0 <= k < |tr| && !BudgetInv(tr[k])
  {
    hide Trace, WasHanded;
    evs, tr := LateFailureRun(2);
    TraceLength(evs, tr);
    assert evs[4].Fail? && !BudgetInv(tr[6]);
  }

  /**
   * Ownership alone would not be enough: here every failure comes from the worker that owns the row, but
   * from its earlier attempt.
   */
  lemma OwnershipIsNotEnough() returns (evs: seq<Event>, tr: seq<Table>)
    ensures Trace(evs, tr)
    ensures forall i :: 0 <= i < |evs| && evs[i].Fail? ==> Owned(tr[i], evs[i].handed.id, Some(evs[i].handed.worker))
    ensures exists k :: 0 <= k < |tr| && !BudgetInv(tr[k])
  {
    hide Trace, WasHanded;
    evs, tr := LateFailureRun(1);
    TraceLength(evs, tr);
    assert !BudgetInv(tr[6]);
  }

  lemma TraceLength(evs: seq<Event>, tr: seq<Table>)
    requires Trace(evs, tr)
    ensures |tr| == |evs| + 1
  {
  }

  lemma OneRowClaim(j: Job, w: WorkerId, now: int)
    requires Due(j, "default", now)
    ensures var e := Claim(w, "default", 1, now, {}, {0});
            Enabled(map[0 := j], e) && Next(map[0 := j], e) == map[0 := TakenBy(j, w, now)]
  {
    assert Candidates(map[0 := j], "default", now, {}) == {0};
  }
}

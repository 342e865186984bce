/**
 * The scheduler of src/jobs/runner.ts over the job queue: schedules become jobs, workers die,
 * and stuck rows are freed only by a job that some living worker claimed and ran.
 */
module Scheduler {
  import opened Prelude
  import opened JobQueue
  import Q = JobRuns

  const REAPER := "system.reap_stuck_jobs"
  /** The queues a worker polls, in this order. */
  const QUEUES := ["default", "integrations", "notifications"]
  const TICK_LIMIT := 20

  datatype Schedule = Schedule(jobType: string, queue: string, interval: int, enabled: bool, nextRunAt: int)

  type Schedules = map<string, Schedule>

  function DueSchedules(s: Schedules, now: int): set<string> {
    set name | name in s && s[name].enabled && s[name].nextRunAt <= now
  }

  function ScheduleKey(name: string): string {
    "schedule:" + name
  }

  /** `exempt` is the source's rule that the reaper carries no dedupe key. */
  function ScheduledRequest(name: string, s: Schedule, exempt: bool): Request {
    Request(s.jobType, Some(s.queue), None, None, None, None,
            if exempt && s.jobType == REAPER then None else Some(ScheduleKey(name)))
  }

  function NamesIn(due: seq<string>): set<string> {
    set name | name in due
  }

  function Advanced(s: Schedules, due: set<string>, now: int): Schedules {
    map name | name in s :: if name in due then s[name].(nextRunAt := now + s[name].interval) else s[name]
  }

  /** Enqueue for the first n due schedules, in order; ids[i] is the uuid generated for due[i]. */
  function EnqueueTo(t: Table, s: Schedules, due: seq<string>, ids: seq<JobId>, n: nat, now: int, exempt: bool): Table
    requires n <= |ids| <= |due| && forall i :: 0 <= i < |due| ==> due[i] in s
  {
    if n == 0 then t
    else
      var t' := EnqueueTo(t, s, due, ids, n - 1, now, exempt);
      if ids[n - 1] in t' then t'
      else Enqueued(t', ids[n - 1], ScheduledRequest(due[n - 1], s[due[n - 1]], exempt), now)
  }

  ghost predicate Distinct<T(!new)>(xs: seq<T>) {
    forall i, j :: 0 <= i < j < |xs| ==> xs[i] != xs[j]
  }

  /** Enqueuing under one id leaves the other ids unused. */
  lemma OthersStayFresh(t: Table, ids: seq<JobId>, i: nat, p: Request, now: int)
    requires i < |ids| && Distinct(ids) && forall k :: i <= k < |ids| ==> ids[k] !in t
    ensures forall k :: i < k < |ids| ==> ids[k] !in Enqueued(t, ids[i], p, now)
  {
  }

  /**
   * What the select may return that skips the rows another worker has locked: up to twenty of the due schedules
   * left, all of those if there are fewer.
   */
  ghost predicate Ticked(s: Schedules, due: seq<string>, locked: set<string>, now: int) {
    && Distinct(due)
    && |due| <= TICK_LIMIT
    && (forall i :: 0 <= i < |due| ==> due[i] in DueSchedules(s, now) - locked)
    && (|due| == TICK_LIMIT || forall name :: name in DueSchedules(s, now) - locked ==> name in due)
  }

  /**
   * What became of a due schedule: a new job on its queue, to run at once, whose key names the schedule unless it is
   * the reaper; or no job, because a live one has that key already.
   */
  ghost predicate PutOnQueue(t: Table, id: JobId, name: string, s: Schedule, now: int) {
    if id in t then
      && Untried(t[id]) && t[id].jobType == s.jobType && t[id].queue == s.queue && t[id].runAt == now
      && t[id].priority == 100 && t[id].maxAttempts == 5 && t[id].timeoutSeconds == 300
      && t[id].dedupeKey == (if s.jobType == "system.reap_stuck_jobs" then None else Some("schedule:" + name))
    else
      && s.jobType != "system.reap_stuck_jobs"
      && exists o :: o in t && t[o].dedupeKey == Some("schedule:" + name) && t[o].queue == s.queue
                     && t[o].status != Succeeded && t[o].status != Dead
  }

  lemma EnqueuePuts(t: Table, id: JobId, name: string, s: Schedule, now: int)
    requires id !in t
    ensures var t' := Enqueued(t, id, ScheduledRequest(name, s, true), now);
            && PutOnQueue(t', id, name, s, now)
            && (forall o :: o in t ==> o in t' && t'[o] == t[o])
            && (forall o :: o in t' ==> o in t || o == id)
  {
  }

  lemma StaysPut(t: Table, t': Table, id: JobId, name: string, s: Schedule, now: int)
    requires PutOnQueue(t, id, name, s, now) && (id in t' ==> id in t)
    requires forall o :: o in t ==> o in t' && t'[o] == t[o]
    ensures PutOnQueue(t', id, name, s, now)
  {
  }

  /** The first n due schedules have their jobs, and the queue changed in no other way. */
  ghost predicate Put(t: Table, t': Table, s: Schedules, due: seq<string>, ids: seq<JobId>, n: nat, now: int)
    requires n <= |ids| <= |due| && forall i :: 0 <= i < |due| ==> due[i] in s
  {
    && (forall k :: 0 <= k < n ==> PutOnQueue(t', ids[k], due[k], s[due[k]], now))
    && (forall o :: o in t ==> o in t' && t'[o] == t[o])
    && (forall o :: o in t' ==> o in t || o in ids[..n])
  }

  lemma PutOneMore(t: Table, t': Table, s: Schedules, due: seq<string>, ids: seq<JobId>, n: nat, now: int)
    requires n < |ids| <= |due| && forall i :: 0 <= i < |due| ==> due[i] in s
    requires Put(t, t', s, due, ids, n, now) && ids[n] !in t' && Distinct(ids)
    ensures Put(t, Enqueued(t', ids[n], ScheduledRequest(due[n], s[due[n]], true), now), s, due, ids, n + 1, now)
  {
    hide Enqueued, ScheduledRequest, PutOnQueue;
    var after := Enqueued(t', ids[n], ScheduledRequest(due[n], s[due[n]], true), now);
    EnqueuePuts(t', ids[n], due[n], s[due[n]], now);
    forall k | 0 <= k < n ensures PutOnQueue(after, ids[k], due[k], s[due[k]], now) {
      StaysPut(t', after, ids[k], due[k], s[due[k]], now);
    }
    assert ids[..n + 1] == ids[..n] + [ids[n]];
  }

  lemma StillUnused(t: Table, t': Table, s: Schedules, due: seq<string>, ids: seq<JobId>, n: nat, now: int)
    requires n < |ids| <= |due| && forall i :: 0 <= i < |due| ==> due[i] in s
    requires Put(t, t', s, due, ids, n, now) && Distinct(ids) && ids[n] !in t
    ensures ids[n] !in t'
  {
    hide PutOnQueue;
  }

  lemma EnqueuedNext(t: Table, s: Schedules, due: seq<string>, ids: seq<JobId>, n: nat, now: int)
    requires 0 < n <= |ids| <= |due| && forall i :: 0 <= i < |due| ==> due[i] in s
    requires ids[n - 1] !in EnqueueTo(t, s, due, ids, n - 1, now, true)
    ensures EnqueueTo(t, s, due, ids, n, now, true)
            == Enqueued(EnqueueTo(t, s, due, ids, n - 1, now, true), ids[n - 1],
                        ScheduledRequest(due[n - 1], s[due[n - 1]], true), now)
  {
    hide Enqueued, ScheduledRequest;
  }

  lemma NonePut(t: Table, s: Schedules, due: seq<string>, ids: seq<JobId>, now: int)
    requires |ids| <= |due| && forall i :: 0 <= i < |due| ==> due[i] in s
    ensures Put(t, EnqueueTo(t, s, due, ids, 0, now, true), s, due, ids, 0, now)
  {
  }

  lemma {:induction false} TickPuts(t: Table, s: Schedules, due: seq<string>, ids: seq<JobId>, n: nat, now: int)
    requires n <= |ids| <= |due| && (forall i :: 0 <= i < |due| ==> due[i] in s)
    requires Distinct(ids) && forall i :: 0 <= i < |ids| ==> ids[i] !in t
    ensures Put(t, EnqueueTo(t, s, due, ids, n, now, true), s, due, ids, n, now)
  {
    hide Enqueued, ScheduledRequest, Put, Distinct;
    if n == 0 {
      NonePut(t, s, due, ids, now);
    } else {
      TickPuts(t, s, due, ids, n - 1, now);
      var before := EnqueueTo(t, s, due, ids, n - 1, now, true);
      StillUnused(t, before, s, due, ids, n - 1, now);
      EnqueuedNext(t, s, due, ids, n, now);
      hide EnqueueTo;
      PutOneMore(t, before, s, due, ids, n - 1, now);
    }
  }

  class Ticker {
    const jobs: Jobs
    var schedules: Schedules

    constructor (jobs: Jobs, schedules: Schedules)
      ensures this.jobs == jobs && this.schedules == schedules
    {
      this.jobs := jobs;
      this.schedules := schedules;
    }

    /** Advance the due schedules in one transaction, then enqueue for each of them in its own. */
    method TickScheduler(due: seq<string>, locked: set<string>, ids: seq<JobId>, now: int)
      requires Ticked(schedules, due, locked, now) && |due| == |ids|
      requires Distinct(ids) && forall id :: id in ids ==> id !in jobs.table
      modifies this, jobs
      ensures schedules.Keys == old(schedules).Keys
      ensures forall name :: name in schedules ==>
                var was := old(schedules)[name];
                schedules[name] == if name in due then was.(nextRunAt := now + was.interval) else was
      ensures forall k | 0 <= k < |due| ::
                due[k] in schedules && PutOnQueue(jobs.table, ids[k], due[k], schedules[due[k]], now)
      ensures forall id :: id in old(jobs.table) ==> id in jobs.table && jobs.table[id] == old(jobs.table)[id]
      ensures forall id :: id in jobs.table ==> id in old(jobs.table) || id in ids
      ensures schedules == Advanced(old(schedules), NamesIn(due), now)
      ensures jobs.table == EnqueueTo(old(jobs.table), old(schedules), due, ids, |ids|, now, true)
    {
      assert forall k :: 0 <= k < |due| ==> due[k] in schedules;
      var names := schedules;
      ghost var before := jobs.table;
      AdvancedIs(names, due, now);
      hide Enqueued, ScheduledRequest, Advanced, Ticked, NamesIn, Distinct, PutOnQueue;
      schedules := Advanced(schedules, NamesIn(due), now);
      for i := 0 to |due|
        invariant schedules == Advanced(names, NamesIn(due), now)
        invariant jobs.table == EnqueueTo(old(jobs.table), names, due, ids, i, now, true)
        invariant forall k :: i <= k < |ids| ==> ids[k] !in jobs.table
      {
        var request := ScheduledRequest(due[i], names[due[i]], true);
        OthersStayFresh(jobs.table, ids, i, request, now);
        var _ := jobs.Enqueue(ids[i], request, now);
      }
      TickPuts(before, names, due, ids, |ids|, now);
    }
  }

  lemma AdvancedIs(s: Schedules, due: seq<string>, now: int)
    ensures var s' := Advanced(s, NamesIn(due), now);
            && s'.Keys == s.Keys
            && forall name :: name in s ==>
                 s'[name] == if name in due then s[name].(nextRunAt := now + s[name].interval) else s[name]
  {
  }

  // ---- the whole system ----

  /** `handed` records every job ever handed to a worker; `dead` the workers that were killed. */
  datatype World = World(table: Table, schedules: Schedules, handed: set<(WorkerId, JobId)>, dead: set<WorkerId>)

  /** A tick enqueues for as many of its due schedules as it has ids: the worker may be killed half-way. */
  datatype Event =
    | Tick(due: seq<string>, locked: set<string>, ids: seq<JobId>, now: int)
    | OnQueue(step: Q.Event)
    | RunReaper(worker: WorkerId, id: JobId, now: int)
    | Crash(worker: WorkerId)

  /** Only the scheduler enqueues reapers, only living workers claim or report, only a claimed reaper reaps. */
  ghost predicate Enabled(w: World, e: Event) {
    match e
    case Tick(due, locked, ids, now) =>
      && Ticked(w.schedules, due, locked, now)
      && |ids| <= |due| && Distinct(ids) && forall id :: id in ids ==> id !in w.table
    case OnQueue(step) =>
      && Q.Enabled(w.table, step)
      && (match step
          case Enqueue(_, request, _) => request.jobType != REAPER
          case Claim(worker, queue, _, _, _, _) => worker !in w.dead && queue in QUEUES
          case Complete(id, ownedBy, _) => ownedBy.Some? && ownedBy.value !in w.dead && (ownedBy.value, id) in w.handed
          case Fail(h, _, _, _) => h.worker !in w.dead && (h.worker, h.id) in w.handed
          case Reap(_) => false
          case Retry(_, _) => true)
    case RunReaper(worker, id, now) =>
      worker !in w.dead && (worker, id) in w.handed && id in w.table && w.table[id].jobType == REAPER
    case Crash(worker) => true
  }

  ghost function Next(w: World, e: Event, exempt: bool): World
    requires Enabled(w, e)
  {
    match e
    case Tick(due, _, ids, now) =>
      w.(schedules := Advanced(w.schedules, NamesIn(due), now),
         table := EnqueueTo(w.table, w.schedules, due, ids, |ids|, now, exempt))
    case OnQueue(step) =>
      w.(table := Q.Next(w.table, step),
         handed := if step.Claim? then w.handed + (set id | id in step.chosen :: (step.worker, id)) else w.handed)
    case RunReaper(worker, id, now) => w.(table := Reaped(w.table, now))
    case Crash(worker) => w.(dead := w.dead + {worker})
  }

  /** When an event happens; a crash has no clock. */
  function TimeOf(e: Event): Option<int> {
    match e
    case Tick(_, _, _, now) => Some(now)
    case OnQueue(Claim(_, _, _, now, _, _)) => Some(now)
    case OnQueue(Enqueue(_, _, now)) => Some(now)
    case OnQueue(Complete(_, _, now)) => Some(now)
    case OnQueue(Fail(_, _, _, now)) => Some(now)
    case OnQueue(Reap(now)) => Some(now)
    case OnQueue(Retry(_, now)) => Some(now)
    case RunReaper(_, _, now) => Some(now)
    case Crash(_) => None
  }

  /** tr[i] is the world before event i. */
  ghost predicate Trace(start: World, evs: seq<Event>, tr: seq<World>, exempt: bool) {
    && |tr| == |evs| + 1
    && tr[0] == start
    && forall i :: 0 <= i < |evs| ==> Enabled(tr[i], evs[i]) && tr[i + 1] == Next(tr[i], evs[i], exempt)
  }

  lemma TraceCons(w: World, e: Event, evs: seq<Event>, tr: seq<World>, exempt: bool)
    requires Enabled(w, e) && Trace(Next(w, e, exempt), evs, tr, exempt)
    ensures Trace(w, [e] + evs, [w] + tr, exempt) && ([w] + tr)[|evs| + 1] == tr[|evs|]
  {
    hide Enabled, Next;
    var evs', tr' := [e] + evs, [w] + tr;
    forall i | 0 <= i < |evs'| ensures Enabled(tr'[i], evs'[i]) && tr'[i + 1] == Next(tr'[i], evs'[i], exempt) {
      if i > 0 {
        assert evs'[i] == evs[i - 1] && tr'[i] == tr[i - 1] && tr'[i + 1] == tr[i];
      }
    }
  }

  /** A fresh deployment: no jobs yet, and every schedule posts to a queue the workers poll. */
  ghost predicate Start(w: World) {
    && w.table == map[] && w.handed == {} && w.dead == {}
    && (forall name :: name in w.schedules ==> w.schedules[name].queue in QUEUES)
    && exists name :: name in w.schedules && w.schedules[name].enabled && w.schedules[name].jobType == REAPER
  }

  ghost predicate Sound(w: World) {
    && Q.LockInv(w.table) && Q.UniqueInv(w.table)
    && (forall name :: name in w.schedules ==> w.schedules[name].queue in QUEUES)
    && exists name :: name in w.schedules && w.schedules[name].enabled && w.schedules[name].jobType == REAPER
  }

  /** An enqueue leaves every row alone and adds at most the one it was asked for. */
  lemma EnqueueAddsOne(t: Table, id: JobId, p: Request, now: int)
    requires id !in t
    ensures var t' := Enqueued(t, id, p, now);
            && (forall r :: r in t ==> r in t' && t'[r] == t[r])
            && (forall r :: r in t' && r !in t ==> t'[r].jobType == p.jobType)
            && t' == Q.Next(t, Q.Enqueue(id, p, now))
  {
  }

  lemma {:induction false} TickKeepsTable(t: Table, s: Schedules, due: seq<string>, ids: seq<JobId>, n: nat, now: int,
      exempt: bool)
    requires Q.LockInv(t) && Q.UniqueInv(t)
    requires n <= |ids| <= |due| && forall i :: 0 <= i < |due| ==> due[i] in s
    ensures var t' := EnqueueTo(t, s, due, ids, n, now, exempt);
            && Q.LockInv(t') && Q.UniqueInv(t')
            && (forall id :: id in t ==> id in t' && t'[id] == t[id])
  {
    hide Enqueued, ScheduledRequest, Q.LockInv, Q.UniqueInv, Q.Next;
    if n > 0 {
      TickKeepsTable(t, s, due, ids, n - 1, now, exempt);
      var t' := EnqueueTo(t, s, due, ids, n - 1, now, exempt);
      if ids[n - 1] !in t' {
        var request := ScheduledRequest(due[n - 1], s[due[n - 1]], exempt);
        EnqueueAddsOne(t', ids[n - 1], request, now);
        Q.StepKeepsInvariants(t', Q.Enqueue(ids[n - 1], request, now));
      }
    }
  }

  lemma StepKeepsSound(w: World, e: Event, exempt: bool)
    requires Sound(w) && Enabled(w, e)
    ensures Sound(Next(w, e, exempt))
  {
    StepKeepsSchedules(w, e, exempt);
    var name :| name in w.schedules && w.schedules[name].enabled && w.schedules[name].jobType == REAPER;
    assert name in Next(w, e, exempt).schedules;
    hide Q.LockInv, Q.UniqueInv, Q.Enabled, Q.Next, EnqueueTo, Advanced, Reaped;
    match e {
      case Tick(due, _, ids, now) => TickKeepsTable(w.table, w.schedules, due, ids, |ids|, now, exempt);
      case OnQueue(step) => Q.StepKeepsInvariants(w.table, step);
      case RunReaper(_, _, now) => ReapKeepsInvariants(w.table, now);
      case Crash(_) =>
    }
  }

  lemma ReapKeepsInvariants(t: Table, now: int)
    requires Q.LockInv(t) && Q.UniqueInv(t)
    ensures Q.LockInv(Reaped(t, now)) && Q.UniqueInv(Reaped(t, now))
  {
    hide Q.LockInv, Q.UniqueInv;
    assert Q.Next(t, Q.Reap(now)) == Reaped(t, now) && Q.Enabled(t, Q.Reap(now));
    Q.StepKeepsInvariants(t, Q.Reap(now));
  }

  lemma StepKeepsSchedules(w: World, e: Event, exempt: bool)
    requires Sound(w) && Enabled(w, e)
    ensures KeepsSchedules(w.schedules, Next(w, e, exempt).schedules)
  {
  }

  lemma {:induction false} RunKeepsSound(start: World, evs: seq<Event>, tr: seq<World>, exempt: bool, k: nat)
    requires Sound(start) && Trace(start, evs, tr, exempt) && k < |tr|
    ensures Sound(tr[k])
  {
    hide Enabled, Next, Sound;
    if k > 0 {
      RunKeepsSound(start, evs, tr, exempt, k - 1);
      StepKeepsSound(tr[k - 1], evs[k - 1], exempt);
    }
  }

  // ---- one live job per schedule ----

  predicate SameJob(a: Job, b: Job) {
    a.jobType == b.jobType && a.queue == b.queue && a.dedupeKey == b.dedupeKey
  }

  ghost predicate KeepsJobs(t: Table, t': Table) {
    forall id :: id in t ==> id in t' && SameJob(t'[id], t[id])
  }

  ghost predicate KeepsSchedules(s: Schedules, s': Schedules) {
    && s'.Keys == s.Keys
    && forall name :: name in s ==>
         s'[name].queue == s[name].queue && s'[name].jobType == s[name].jobType && s'[name].enabled == s[name].enabled
  }

  lemma QueueKeepsJobs(t: Table, step: Q.Event)
    requires Q.Enabled(t, step)
    ensures KeepsJobs(t, Q.Next(t, step))
  {
  }

  /** No step moves a job to another queue, key or type, or edits a schedule. */
  lemma StepKeepsJobs(w: World, e: Event, exempt: bool)
    requires Sound(w) && Enabled(w, e)
    ensures KeepsJobs(w.table, Next(w, e, exempt).table) && KeepsSchedules(w.schedules, Next(w, e, exempt).schedules)
  {
    match e {
      case Tick(due, _, ids, now) => TickKeepsTable(w.table, w.schedules, due, ids, |ids|, now, exempt);
      case OnQueue(step) => QueueKeepsJobs(w.table, step);
      case RunReaper(_, _, now) => QueueKeepsJobs(w.table, Q.Reap(now));
      case Crash(_) =>
    }
  }

  lemma {:induction false} RunKeepsJobs(start: World, evs: seq<Event>, tr: seq<World>, exempt: bool, i: nat, k: nat)
    requires Sound(start) && Trace(start, evs, tr, exempt) && i <= k < |tr|
    ensures KeepsJobs(tr[i].table, tr[k].table) && KeepsSchedules(tr[i].schedules, tr[k].schedules)
    decreases k
  {
    hide Enabled, Next, Sound;
    if i < k {
      RunKeepsJobs(start, evs, tr, exempt, i, k - 1);
      RunKeepsSound(start, evs, tr, exempt, k - 1);
      StepKeepsJobs(tr[k - 1], evs[k - 1], exempt);
    }
  }

  /** Tick `i` of the run queued a job for schedule `name`, as the m-th it came to. */
  ghost predicate QueuedBy(evs: seq<Event>, tr: seq<World>, i: nat, m: nat, name: string)
    requires |tr| == |evs| + 1
  {
    && i < |evs| && evs[i].Tick? && m < |evs[i].ids| <= |evs[i].due| && evs[i].due[m] == name
    && evs[i].ids[m] in tr[i + 1].table
  }

  /** What a tick queued carries its schedule's queue and key. */
  lemma {:induction false} QueuedRow(t: Table, s: Schedules, due: seq<string>, ids: seq<JobId>, m: nat, n: nat,
      now: int, exempt: bool)
    requires m < n <= |ids| <= |due| && (forall i :: 0 <= i < |due| ==> due[i] in s)
    requires Distinct(ids) && ids[m] !in t && ids[m] in EnqueueTo(t, s, due, ids, n, now, exempt)
    ensures EnqueueTo(t, s, due, ids, n, now, exempt)[ids[m]]
            == NewJob(ScheduledRequest(due[m], s[due[m]], exempt), now)
  {
    if m < n - 1 {
      assert ids[n - 1] != ids[m];
      QueuedRow(t, s, due, ids, m, n - 1, now, exempt);
    } else {
      NotQueuedEarlier(t, s, due, ids, m, n - 1, now, exempt);
    }
  }

  lemma {:induction false} NotQueuedEarlier(t: Table, s: Schedules, due: seq<string>, ids: seq<JobId>, m: nat, n: nat,
      now: int, exempt: bool)
    requires n <= m < |ids| <= |due| && (forall i :: 0 <= i < |due| ==> due[i] in s)
    requires Distinct(ids) && ids[m] !in t
    ensures ids[m] !in EnqueueTo(t, s, due, ids, n, now, exempt)
  {
    if n > 0 {
      NotQueuedEarlier(t, s, due, ids, m, n - 1, now, exempt);
    }
  }

  /** The row a tick queued is on its schedule's queue under its schedule's key from then on. */
  lemma QueuedJobKeepsKey(start: World, evs: seq<Event>, tr: seq<World>, exempt: bool, name: string, i: nat, m: nat,
      k: nat)
    requires Start(start) && Trace(start, evs, tr, exempt) && QueuedBy(evs, tr, i, m, name) && i < k < |tr|
    ensures name in start.schedules && evs[i].ids[m] in tr[k].table && evs[i].ids[m] !in tr[i].table
    ensures var row, s := tr[k].table[evs[i].ids[m]], start.schedules[name];
            row.queue == s.queue
            && row.dedupeKey == if exempt && s.jobType == REAPER then None else Some(ScheduleKey(name))
  {
    hide Sound, ScheduleKey, EnqueueTo;
    Starts(start);
    assert Enabled(tr[i], evs[i]) && tr[i + 1] == Next(tr[i], evs[i], exempt);
    var e := evs[i];
    assert forall n :: 0 <= n < |e.due| ==> e.due[n] in tr[i].schedules;
    RunKeepsJobs(start, evs, tr, exempt, 0, i);
    RunKeepsJobs(start, evs, tr, exempt, i + 1, k);
    QueuedRow(tr[i].table, tr[i].schedules, e.due, e.ids, m, |e.ids|, e.now, exempt);
  }

  lemma Starts(start: World)
    requires Start(start)
    ensures Sound(start)
  {
  }

  /**
   * Of all the jobs that ticks queued for a schedule that is not exempt, at most one is live at any time.
   */
  lemma OneLiveJobPerSchedule(start: World, evs: seq<Event>, tr: seq<World>, exempt: bool, name: string, i: nat, m: nat,
      j: nat, n: nat, k: nat)
    requires Start(start) && Trace(start, evs, tr, exempt) && i < k < |tr| && j < k
    requires QueuedBy(evs, tr, i, m, name) && QueuedBy(evs, tr, j, n, name)
    requires !(exempt && name in start.schedules && start.schedules[name].jobType == REAPER)
    requires var a, b := evs[i].ids[m], evs[j].ids[n];
             a in tr[k].table && b in tr[k].table && Live(tr[k].table[a]) && Live(tr[k].table[b])
    ensures i == j && m == n
  {
    hide Start, Sound, Enabled, Next, ScheduleKey, Live;
    QueuedJobKeepsKey(start, evs, tr, exempt, name, i, m, k);
    QueuedJobKeepsKey(start, evs, tr, exempt, name, j, n, k);
    Starts(start);
    RunKeepsSound(start, evs, tr, exempt, k);
    SoundKeys(tr[k]);
    assert evs[i].ids[m] == evs[j].ids[n];
    if i < j {
      QueuedJobKeepsKey(start, evs, tr, exempt, name, i, m, j);
    } else if j < i {
      QueuedJobKeepsKey(start, evs, tr, exempt, name, j, n, i);
    } else {
      DistinctIds(tr[i], evs[i]);
    }
  }

  lemma SoundKeys(w: World)
    requires Sound(w)
    ensures Q.UniqueInv(w.table)
  {
  }

  lemma DistinctIds(w: World, e: Event)
    requires Enabled(w, e) && e.Tick?
    ensures Distinct(e.ids)
  {
  }

  // ---- with the exemption a stuck row can always be freed ----

  lemma Above(ids: set<nat>) returns (bound: nat)
    ensures forall id :: id in ids ==> id < bound
  {
    bound := 0;
    var rest := ids;
    while rest != {}
      invariant rest <= ids
      invariant forall id :: id in ids ==> id in rest || id < bound
      decreases rest
    {
      var id :| id in rest;
      rest := rest - {id};
      bound := Max(bound, id + 1);
    }
  }

  /** A tick that includes one given due schedule is among the answers of the select. */
  lemma TickIncluding(s: Schedules, name: string, now: int) returns (due: seq<string>)
    requires name in DueSchedules(s, now)
    ensures Ticked(s, due, {}, now) && |due| > 0 && due[0] == name
  {
    due := [name];
    var rest := DueSchedules(s, now) - {name};
    while rest != {} && |due| < TICK_LIMIT
      invariant 0 < |due| <= TICK_LIMIT && due[0] == name && Distinct(due)
      invariant forall x :: x in due ==> x in DueSchedules(s, now) && x !in rest
      invariant forall x :: x in DueSchedules(s, now) ==> x in due || x in rest
      invariant rest <= DueSchedules(s, now)
      decreases rest
    {
      var x :| x in rest;
      due := due + [x];
      rest := rest - {x};
    }
  }

  /** The reaper job the tick just queued is there, due now, on its schedule's queue. */
  lemma {:induction false} TickQueuesFirst(t: Table, s: Schedules, due: seq<string>, ids: seq<JobId>, n: nat, now: int)
    requires 0 < n <= |ids| <= |due| && (forall i :: 0 <= i < |due| ==> due[i] in s)
    requires Distinct(ids) && ids[0] !in t && s[due[0]].jobType == REAPER
    ensures var t' := EnqueueTo(t, s, due, ids, n, now, true);
            ids[0] in t' && t'[ids[0]] == NewJob(ScheduledRequest(due[0], s[due[0]], true), now)
  {
    if n == 1 {
      assert EnqueueTo(t, s, due, ids, 0, now, true) == t;
    } else {
      TickQueuesFirst(t, s, due, ids, n - 1, now);
    }
  }

  /** Nothing due on the queues polled before this one. */
  ghost predicate FirstBusyQueue(t: Table, queue: string, now: int) {
    exists q :: 0 <= q < |QUEUES| && QUEUES[q] == queue && Candidates(t, queue, now, {}) != {}
                && forall p :: 0 <= p < q ==> Candidates(t, QUEUES[p], now, {}) == {}
  }

  /** A worker with one free slot polls its queues in order for one job, runs it and has the slot free again. */
  ghost predicate Turn(w: World, worker: WorkerId, claim: Event, ran: Event, now: int) {
    && claim.OnQueue? && claim.step.Claim? && FirstBusyQueue(w.table, claim.step.queue, now)
    && exists id :: id in w.table && claim.step == Q.Claim(worker, claim.step.queue, 1, now, {}, {id})
         && ran == if w.table[id].jobType == REAPER then RunReaper(worker, id, now)
                   else OnQueue(Q.Complete(id, Some(worker), now))
  }

  /** One turn after the other, up to the first that runs a reaper. */
  ghost predicate OneSlotRun(evs: seq<Event>, tr: seq<World>, worker: WorkerId, now: int)
    requires |tr| == |evs| + 1
    decreases |evs|
  {
    && |evs| >= 2 && Turn(tr[0], worker, evs[0], evs[1], now)
    && if evs[1].RunReaper? then |evs| == 2 else OneSlotRun(evs[2..], tr[2..], worker, now)
  }

  function AllDue(t: Table, now: int): set<JobId> {
    set id | id in t && t[id].queue in QUEUES && Due(t[id], t[id].queue, now)
  }

  lemma SomeFirstQueue(t: Table, id: JobId, now: int) returns (queue: string)
    requires id in AllDue(t, now)
    ensures FirstBusyQueue(t, queue, now)
  {
    var q :| 0 <= q < |QUEUES| && QUEUES[q] == t[id].queue;
    assert id in Candidates(t, QUEUES[q], now, {});
    while exists p :: 0 <= p < q && Candidates(t, QUEUES[p], now, {}) != {}
      invariant 0 <= q < |QUEUES| && Candidates(t, QUEUES[q], now, {}) != {}
      decreases q
    {
      var p :| 0 <= p < q && Candidates(t, QUEUES[p], now, {}) != {};
      q := p;
    }
    queue := QUEUES[q];
  }

  /** Whatever is due is run and reported job by job, until the job is a reaper; that one frees the target. */
  lemma {:induction false} DrainToReaper(w: World, reaper: JobId, worker: WorkerId, target: JobId, now: int)
      returns (evs: seq<Event>, tr: seq<World>)
    requires reaper in AllDue(w.table, now) && w.table[reaper].jobType == REAPER && worker !in w.dead
    requires target in w.table && Stuck(w.table[target], now)
    ensures Trace(w, evs, tr, true) && OneSlotRun(evs, tr, worker, now)
    ensures target in tr[|evs|].table && tr[|evs|].table[target].lockedBy == None
    decreases AllDue(w.table, now)
  {
    hide Turn, Next, Enabled, FirstBusyQueue, AllDue, Stuck;
    var claim, ran, w1, w2 := TakeTurn(w, reaper, worker, target, now);
    if ran.RunReaper? {
      evs, tr := [], [w2];
    } else {
      evs, tr := DrainToReaper(w2, reaper, worker, target, now);
    }
    TraceCons(w1, ran, evs, tr, true);
    TraceCons(w, claim, [ran] + evs, [w1] + tr, true);
    OneMoreTurn(w, w1, claim, ran, evs, tr, worker, now);
    evs, tr := [claim] + ([ran] + evs), [w] + ([w1] + tr);
  }

  lemma BestIsSelected(t: Table, queue: string, now: int, best: JobId)
    requires var due := Candidates(t, queue, now, {}); best in due && IsBest(t, due, best)
    ensures Selection(t, queue, 1, now, {}, {best})
  {
  }

  /** The worker's next turn: either it runs a reaper, and the target is free, or there is one due job less. */
  lemma TakeTurn(w: World, reaper: JobId, worker: WorkerId, target: JobId, now: int)
      returns (claim: Event, ran: Event, w1: World, w2: World)
    requires reaper in AllDue(w.table, now) && w.table[reaper].jobType == REAPER && worker !in w.dead
    requires target in w.table && Stuck(w.table[target], now)
    ensures Turn(w, worker, claim, ran, now)
    ensures Enabled(w, claim) && w1 == Next(w, claim, true) && Enabled(w1, ran) && w2 == Next(w1, ran, true)
    ensures target in w2.table
    ensures if ran.RunReaper? then w2.table[target].lockedBy == None
            else w2.table[target] == w.table[target] && AllDue(w2.table, now) < AllDue(w.table, now)
                 && reaper in AllDue(w2.table, now) && w2.table[reaper].jobType == REAPER && w2.dead == w.dead
  {
    var queue := SomeFirstQueue(w.table, reaper, now);
    var due := Candidates(w.table, queue, now, {});
    HasBest(w.table, due);
    var best :| IsBest(w.table, due, best);
    BestIsSelected(w.table, queue, now, best);
    claim, ran, w1, w2 := TurnOn(w, queue, best, worker, now);
    assert best in AllDue(w.table, now) && best != target;
    hide FirstBusyQueue, Selection, IsBest, Enabled, Next, Candidates, Turn;
    if ran.RunReaper? {
      assert w1.table[target] == w.table[target];
    } else {
      OneLessDue(w.table, best, worker, now);
    }
  }

  lemma OneLessDue(t: Table, id: JobId, worker: WorkerId, now: int)
    requires id in t
    ensures AllDue(Completed(Claimed(t, {id}, worker, now), id, Some(worker), now), now) == AllDue(t, now) - {id}
  {
  }

  lemma TurnOn(w: World, queue: string, best: JobId, worker: WorkerId, now: int)
      returns (claim: Event, ran: Event, w1: World, w2: World)
    requires FirstBusyQueue(w.table, queue, now) && worker !in w.dead && best in w.table
    requires Selection(w.table, queue, 1, now, {}, {best})
    ensures Turn(w, worker, claim, ran, now) && (ran.RunReaper? <==> w.table[best].jobType == REAPER)
    ensures Enabled(w, claim) && w1 == Next(w, claim, true) && Enabled(w1, ran) && w2 == Next(w1, ran, true)
    ensures w2.dead == w.dead && w1.table == Claimed(w.table, {best}, worker, now)
    ensures w2.table == if ran.RunReaper? then Reaped(w1.table, now) else Completed(w1.table, best, Some(worker), now)
  {
    claim := OnQueue(Q.Claim(worker, queue, 1, now, {}, {best}));
    ran := if w.table[best].jobType == REAPER then RunReaper(worker, best, now)
           else OnQueue(Q.Complete(best, Some(worker), now));
    assert queue in QUEUES;
    hide Selection, FirstBusyQueue;
    w1 := Next(w, claim, true);
    w2 := Next(w1, ran, true);
  }

  lemma {:induction false} OneMoreTurn(w: World, w1: World, claim: Event, ran: Event, evs: seq<Event>, tr: seq<World>,
      worker: WorkerId, now: int)
    requires Turn(w, worker, claim, ran, now) && |tr| == |evs| + 1
    requires if ran.RunReaper? then evs == [] else OneSlotRun(evs, tr, worker, now)
    ensures OneSlotRun([claim] + ([ran] + evs), [w] + ([w1] + tr), worker, now)
  {
    hide Turn;
    var evs', tr' := [claim] + ([ran] + evs), [w] + ([w1] + tr);
    assert evs'[2..] == evs && tr'[2..] == tr;
  }

  /** A tick at `now` that queues a fresh reaper job and leaves every existing row alone. */
  lemma TickQueuesReaper(w: World, name: string, now: int) returns (tick: Event, reaper: JobId)
    requires Sound(w) && name in DueSchedules(w.schedules, now) && w.schedules[name].jobType == REAPER
    ensures tick.Tick? && tick.now == now && Enabled(w, tick)
    ensures var t := Next(w, tick, true).table;
            && reaper in AllDue(t, now) && t[reaper].jobType == REAPER
            && forall id :: id in w.table ==> id in t && t[id] == w.table[id]
    ensures Next(w, tick, true).dead == w.dead && Next(w, tick, true).handed == w.handed
  {
    var due := TickIncluding(w.schedules, name, now);
    var bound := Above(w.table.Keys);
    var ids := seq(|due|, i => bound + i);
    tick, reaper := Tick(due, {}, ids, now), ids[0];
    TickQueuesFirst(w.table, w.schedules, due, ids, |ids|, now);
    TickKeepsTable(w.table, w.schedules, due, ids, |ids|, now, true);
  }

  lemma FreeingRun(w: World, target: JobId, from: int)
      returns (tick: Event, worker: WorkerId, evs: seq<Event>, tr: seq<World>)
    requires Sound(w) && target in w.table && w.table[target].status == Running
    ensures tick.Tick? && tick.now >= from && Enabled(w, tick)
    ensures worker !in w.dead && forall id :: (worker, id) !in w.handed
    ensures Trace(Next(w, tick, true), evs, tr, true) && OneSlotRun(evs, tr, worker, tick.now)
    ensures target in tr[|evs|].table && tr[|evs|].table[target].lockedBy == None
  {
    var name :| name in w.schedules && w.schedules[name].enabled && w.schedules[name].jobType == REAPER;
    var row := w.table[target];
    var now := Max(from, Max(w.schedules[name].nextRunAt, row.lockedAt.value + row.timeoutSeconds + 1));
    var reaper: JobId;
    tick, reaper := TickQueuesReaper(w, name, now);
    var workers := w.dead + set p | p in w.handed :: p.0;
    worker := Above(workers);
    assert forall p :: p in w.handed ==> p.0 in workers;
    evs, tr := DrainToReaper(Next(w, tick, true), reaper, worker, target, now);
  }

  /**
   * From every reachable state and any moment on, a new worker with one slot frees any running row: it ticks, then
   * runs what is due, one job at a time, until a reaper's turn comes.
   */
  lemma StuckRowCanBeFreed(start: World, past: seq<Event>, before: seq<World>, target: JobId, from: int)
      returns (tick: Event, worker: WorkerId, evs: seq<Event>, tr: seq<World>)
    requires Start(start) && Trace(start, past, before, true)
    requires target in before[|past|].table && before[|past|].table[target].status == Running
    ensures tick.Tick? && tick.now >= from && Enabled(before[|past|], tick)
    ensures worker !in before[|past|].dead && forall id :: (worker, id) !in before[|past|].handed
    ensures Trace(Next(before[|past|], tick, true), evs, tr, true) && OneSlotRun(evs, tr, worker, tick.now)
    ensures target in tr[|evs|].table && tr[|evs|].table[target].lockedBy == None
  {
    hide Sound, Next, Enabled;
    Starts(start);
    RunKeepsSound(start, past, before, true, |past|);
    tick, worker, evs, tr := FreeingRun(before[|past|], target, from);
  }

  // ---- without it one killed reaper stops everything ----

  /**
   * A reaper row left running by a dead worker, holding the dedupe key every later reaper would carry,
   * and no living worker with a reaper in hand.
   */
  ghost predicate Corpse(w: World, id: JobId, name: string) {
    && Q.UniqueInv(w.table)
    && id in w.table && w.table[id].status == Running && w.table[id].jobType == REAPER
    && w.table[id].lockedBy.Some? && w.table[id].lockedBy.value in w.dead
    && (forall s :: s in w.schedules && w.schedules[s].jobType == REAPER ==> s == name)
    && name in w.schedules && w.schedules[name].queue == w.table[id].queue
    && (forall r :: r in w.table && w.table[r].jobType == REAPER ==>
          w.table[r].queue == w.table[id].queue && w.table[r].dedupeKey == Some(ScheduleKey(name)))
    && (forall p :: p in w.handed && p.1 in w.table && w.table[p.1].jobType == REAPER ==> p.0 in w.dead)
    && (forall p :: p in w.handed ==> p.1 in w.table)
  }

  /** While a live row holds the reaper schedule's key, the schedule adds nothing. */
  lemma NoSecondReaper(t: Table, id: JobId, x: JobId, name: string, s: Schedule, now: int)
    requires id in t && Live(t[id]) && t[id].queue == s.queue && t[id].dedupeKey == Some(ScheduleKey(name)) && x !in t
    ensures Enqueued(t, x, ScheduledRequest(name, s, false), now) == t
  {
  }

  lemma {:induction false} TickBesideCorpse(w: World, id: JobId, name: string, due: seq<string>, ids: seq<JobId>,
      n: nat, now: int)
    requires Corpse(w, id, name)
    requires n <= |ids| <= |due| && forall i :: 0 <= i < |due| ==> due[i] in w.schedules
    ensures var t := EnqueueTo(w.table, w.schedules, due, ids, n, now, false);
            && Q.UniqueInv(t)
            && (forall r :: r in w.table ==> r in t && t[r] == w.table[r])
            && (forall r :: r in t && r !in w.table ==> t[r].jobType != REAPER)
  {
    hide Enqueued, Q.UniqueInv, Q.Next, ScheduleKey;
    if n > 0 {
      TickBesideCorpse(w, id, name, due, ids, n - 1, now);
      var t := EnqueueTo(w.table, w.schedules, due, ids, n - 1, now, false);
      var s := w.schedules[due[n - 1]];
      if ids[n - 1] !in t {
        if s.jobType == REAPER {
          NoSecondReaper(t, id, ids[n - 1], name, s, now);
        } else {
          var request := ScheduledRequest(due[n - 1], s, false);
          EnqueueAddsOne(t, ids[n - 1], request, now);
          Q.StepKeepsKeysUnique(t, Q.Enqueue(ids[n - 1], request, now));
        }
      }
    }
  }

  lemma CorpseStays(w: World, id: JobId, name: string, e: Event)
    requires Corpse(w, id, name) && Enabled(w, e)
    ensures Corpse(Next(w, e, false), id, name)
  {
    match e {
      case Tick(due, _, ids, now) =>
        TickBesideCorpse(w, id, name, due, ids, |ids|, now);
      case OnQueue(step) =>
        Q.StepKeepsKeysUnique(w.table, step);
        ReaperRowsRest(w, id, name, step);
      case RunReaper(worker, r, now) => assert false;
      case Crash(worker) =>
    }
  }

  /** A queue step enabled beside the corpse moves no reaper row to or from running. */
  lemma ReaperRowsRest(w: World, id: JobId, name: string, step: Q.Event)
    requires Corpse(w, id, name) && Enabled(w, OnQueue(step))
    ensures var t := Q.Next(w.table, step);
            && (forall r :: r in w.table ==> r in t && SameJob(t[r], w.table[r]))
            && (forall r :: r in t && r !in w.table ==> t[r].jobType != REAPER)
            && t[id] == w.table[id]
            && (step.Claim? ==> forall r :: r in step.chosen ==> r in w.table && w.table[r].jobType != REAPER)
  {
    QueueKeepsJobs(w.table, step);
    assert forall r :: r in w.table && w.table[r].jobType == REAPER && r != id ==> !Live(w.table[r]);
    CorpseRowRests(w, id, name, step);
  }

  lemma CorpseRowRests(w: World, id: JobId, name: string, step: Q.Event)
    requires Corpse(w, id, name) && Enabled(w, OnQueue(step))
    ensures id in Q.Next(w.table, step) && Q.Next(w.table, step)[id] == w.table[id]
  {
    if step.Claim? {
      assert w.table[id].status == Running;
    }
  }

  lemma {:induction false} CorpseIsForever(w: World, id: JobId, name: string, evs: seq<Event>, tr: seq<World>, k: nat)
    requires Corpse(w, id, name) && Trace(w, evs, tr, false) && k < |tr|
    ensures Corpse(tr[k], id, name)
  {
    hide Corpse, Enabled, Next;
    if k > 0 {
      CorpseIsForever(w, id, name, evs, tr, k - 1);
      CorpseStays(tr[k - 1], id, name, evs[k - 1]);
    }
  }

  function ReaperRow(s: Schedule): Job {
    NewJob(ScheduledRequest("reap", s, false), 0)
  }

  function Rescheduled(s: Schedule): Schedules {
    map["reap" := s.(nextRunAt := s.interval)]
  }

  lemma FirstTick(s: Schedule)
    requires s.jobType == REAPER && s.enabled && s.queue in QUEUES && s.nextRunAt <= 0
    ensures var start, tick := World(map[], map["reap" := s], {}, {}), Tick(["reap"], {}, [0], 0);
            && Start(start) && Enabled(start, tick)
            && Next(start, tick, false) == World(map[0 := ReaperRow(s)], Rescheduled(s), {}, {})
  {
    var start, tick := World(map[], map["reap" := s], {}, {}), Tick(["reap"], {}, [0], 0);
    assert "reap" in start.schedules;
    assert DueSchedules(start.schedules, 0) == {"reap"};
    assert EnqueueTo(start.table, start.schedules, ["reap"], [0], 0, 0, false) == map[];
    assert Next(start, tick, false).table == map[0 := ReaperRow(s)];
    assert NamesIn(["reap"]) == {"reap"};
    assert Advanced(start.schedules, {"reap"}, 0) == Rescheduled(s);
  }

  lemma FirstClaim(s: Schedule)
    requires s.queue in QUEUES
    ensures var w := World(map[0 := ReaperRow(s)], Rescheduled(s), {}, {});
            var claim := OnQueue(Q.Claim(1, s.queue, 1, 0, {}, {0}));
            && Enabled(w, claim)
            && Next(w, claim, false) == World(map[0 := TakenBy(ReaperRow(s), 1, 0)], Rescheduled(s), {(1, 0)}, {})
  {
    var w, claim := World(map[0 := ReaperRow(s)], Rescheduled(s), {}, {}), OnQueue(Q.Claim(1, s.queue, 1, 0, {}, {0}));
    assert Candidates(w.table, s.queue, 0, {}) == {0};
    assert Next(w, claim, false).table == map[0 := TakenBy(ReaperRow(s), 1, 0)];
    assert Next(w, claim, false).handed == {(1, 0)};
  }

  lemma FirstCorpse(s: Schedule)
    requires s.jobType == REAPER
    ensures var w := World(map[0 := TakenBy(ReaperRow(s), 1, 0)], Rescheduled(s), {(1, 0)}, {1});
            Corpse(w, 0, "reap") && Stuck(w.table[0], 301)
  {
  }

  lemma CrashOf(w: World, worker: WorkerId)
    ensures Enabled(w, Crash(worker)) && Next(w, Crash(worker), false) == w.(dead := w.dead + {worker})
  {
  }

  /** Tick, claim, kill. */
  lemma KilledReaper(s: Schedule) returns (start: World, evs: seq<Event>, tr: seq<World>)
    requires s.jobType == REAPER && s.enabled && s.queue in QUEUES && s.nextRunAt <= 0
    ensures Start(start) && start.schedules == map["reap" := s]
    ensures Trace(start, evs, tr, false)
    ensures Corpse(tr[|evs|], 0, "reap") && Stuck(tr[|evs|].table[0], 301)
  {
    hide Start, Stuck, Next, Enabled, Corpse, ReaperRow, Rescheduled, TakenBy;
    start := World(map[], map["reap" := s], {}, {});
    var tick, claim := Tick(["reap"], {}, [0], 0), OnQueue(Q.Claim(1, s.queue, 1, 0, {}, {0}));
    FirstTick(s);
    FirstClaim(s);
    FirstCorpse(s);
    var w1 := World(map[0 := ReaperRow(s)], Rescheduled(s), {}, {});
    var w2 := World(map[0 := TakenBy(ReaperRow(s), 1, 0)], Rescheduled(s), {(1, 0)}, {});
    CrashOf(w2, 1);
    evs, tr := [tick, claim, Crash(1)], [start, w1, w2, w2.(dead := {1})];
  }

  /**
   * Were the reaper deduplicated like every other schedule: tick, claim, kill. From there the row is stuck
   * and no continuation of any kind or length ever releases it.
   */
  lemma WithoutExemptionOneCrashIsFinal(s: Schedule)
      returns (start: World, evs: seq<Event>, tr: seq<World>)
    requires s.jobType == REAPER && s.enabled && s.queue in QUEUES && s.nextRunAt <= 0
    ensures Start(start) && start.schedules == map["reap" := s] && Trace(start, evs, tr, false)
    ensures 0 in tr[|evs|].table && Stuck(tr[|evs|].table[0], 301)
    ensures forall more: seq<Event>, after: seq<World>, k: nat ::
              Trace(tr[|evs|], more, after, false) && k < |after| ==>
                0 in after[k].table && after[k].table[0].status == Running
  {
    hide Start, Stuck, Corpse, Enabled, Next;
    start, evs, tr := KilledReaper(s);
    CorpseRuns(tr[|evs|], 0, "reap");
    forall more: seq<Event>, after: seq<World>, k: nat | Trace(tr[|evs|], more, after, false) && k < |after|
      ensures 0 in after[k].table && after[k].table[0].status == Running
    {
      CorpseIsForever(tr[|evs|], 0, "reap", more, after, k);
      CorpseRuns(after[k], 0, "reap");
    }
  }

  lemma CorpseRuns(w: World, id: JobId, name: string)
    requires Corpse(w, id, name)
    ensures id in w.table && w.table[id].status == Running
  {
  }
}

/**
 * The worker of src/jobs/runner.ts: how many jobs it takes on between one await and the next,
 * what it reports about each, and what stopping it still lets through.
 */
module Runner {
  import opened Prelude
  import opened JobQueue
  import Q = JobRuns

  // ---- one job ----

  /** How running the handler ended; a handler that timed out is no longer waited for, but not stopped. */
  datatype Ended = NoHandler | Finished | ThrewPermanent | ThrewOther | TimedOut

  /** Whether storing the report throws: the completion, and after that, or instead of it, the failure. */
  datatype Storing = Storing(completeThrows: bool, failThrows: bool)

  /** What reaches the queue. A completion that cannot be stored is reported as a failure of the job. */
  function Report(h: Handed, ended: Ended, storing: Storing, delay: int, now: int): Option<Q.Event> {
    if ended == Finished && !storing.completeThrows then Some(Q.Complete(h.id, Some(h.worker), now))
    else if storing.failThrows then None
    else Some(Q.Fail(h, ended in {NoHandler, ThrewPermanent}, delay, now))
  }

  method ProcessJob(jobs: Jobs, h: Handed, ended: Ended, storing: Storing, jitter: real, now: int)
    requires 0.0 <= jitter < 1.0
    modifies jobs
    ensures jobs.table == match Report(h, ended, storing, RetryDelay(h.attempts, jitter), now)
                          case Some(report) => Q.Next(old(jobs.table), report)
                          case None => old(jobs.table)
    ensures OnlyRow(old(jobs.table), jobs.table, h.id)
    ensures storing.failThrows && (ended != Finished || storing.completeThrows) ==> jobs.table == old(jobs.table)
    ensures ended == Finished && !storing.completeThrows ==>
              if h.id in old(jobs.table) && old(jobs.table)[h.id].status == Running
                 && old(jobs.table)[h.id].lockedBy == Some(h.worker)
              then jobs.table[h.id].status == Succeeded && jobs.table[h.id].finishedAt == Some(now)
              else jobs.table == old(jobs.table)
    ensures (ended != Finished || storing.completeThrows) && !storing.failThrows && jobs.table != old(jobs.table) ==>
              var row, before := jobs.table[h.id], old(jobs.table)[h.id];
              && row.errorCount == before.errorCount + 1 && row.attempts == before.attempts
              && row.lockedBy == None
              && if ended == NoHandler || ended == ThrewPermanent || h.attempts >= h.maxAttempts
                 then row.status == Dead && row.finishedAt == Some(now)
                 else row.status == Failed && row.runAt == now + RetryDelay(h.attempts, jitter)
  {
    if ended == Finished && !storing.completeThrows {
      var _ := jobs.CompleteJob(h.id, Some(h.worker), now);
      return;
    }
    if !storing.failThrows {
      var _ := jobs.FailJob(h, ended in {NoHandler, ThrewPermanent}, jitter, now);
    }
  }

  /**
   * One report moves the row the worker was handed to succeeded, dead or failed, if it still holds it and the
   * index lets the row be; with no report stored the row stays as it is, for the reaper.
   */
  lemma ReportSettlesTheRow(t: Table, h: Handed, ended: Ended, storing: Storing, delay: int, now: int)
    requires Q.FromCurrentAttempt(t, h)
    requires Q.UniqueInv(t)
    ensures var report := Report(h, ended, storing, delay, now);
            report.Some? ==>
              var row := Q.Next(t, report.value)[h.id];
              && row.lockedBy == None
              && row.status == if ended == Finished && !storing.completeThrows then Succeeded
                               else if ended in {NoHandler, ThrewPermanent} || h.attempts >= h.maxAttempts then Dead
                               else Failed
    ensures Report(h, ended, storing, delay, now) == None <==>
              storing.failThrows && (ended == Finished ==> storing.completeThrows)
  {
    assert Live(t[h.id]);
    assert !KeyTaken(t, Some(h.id), t[h.id].queue, t[h.id].dedupeKey);
  }

  // ---- the loop ----

  /**
   * `asked` is the limit of a claim in the air; `abandoned` counts handlers that timed out and still run;
   * `started` every job ever begun.
   */
  datatype State = State(inFlight: nat, asked: Option<nat>, abandoned: nat, started: nat, shuttingDown: bool)

  /** What can happen between two awaits of anyone. */
  datatype Event = Ask | Begin(jobs: nat) | Settle(ended: Ended) | HandlerStops | Stop

  predicate Enabled(s: State, e: Event, concurrency: nat) {
    match e
    case Ask => !s.shuttingDown && s.asked == None && s.inFlight < concurrency
    case Begin(jobs) => s.asked.Some? && jobs <= s.asked.value
    case Settle(_) => s.inFlight > 0
    case HandlerStops => s.abandoned > 0
    case Stop => true
  }

  function Next(s: State, e: Event, concurrency: nat): State
    requires Enabled(s, e, concurrency)
  {
    match e
    case Ask => s.(asked := Some(concurrency - s.inFlight))
    case Begin(jobs) => s.(asked := None, inFlight := s.inFlight + jobs, started := s.started + jobs)
    case Settle(ended) => s.(inFlight := s.inFlight - 1, abandoned := s.abandoned + if ended == TimedOut then 1 else 0)
    case HandlerStops => s.(abandoned := s.abandoned - 1)
    case Stop => s.(shuttingDown := true)
  }

  class Worker {
    const concurrency: nat
    var inFlight: nat
    var asked: Option<nat>
    ghost var abandoned: nat
    ghost var started: nat
    var shuttingDown: bool

    ghost function Value(): State
      reads this
    {
      State(inFlight, asked, abandoned, started, shuttingDown)
    }

    constructor (concurrency: nat)
      ensures this.concurrency == concurrency && Value() == State(0, None, 0, 0, false)
    {
      this.concurrency := concurrency;
      inFlight, asked, abandoned, started, shuttingDown := 0, None, 0, 0, false;
    }

    /** One turn of the loop up to the claim; None is a turn that does not claim. */
    method AskForJobs() returns (limit: Option<nat>)
      requires asked == None
      modifies this
      ensures limit.Some? <==> Enabled(old(Value()), Ask, concurrency)
      ensures Value() == if limit.Some? then Next(old(Value()), Ask, concurrency) else old(Value())
      ensures limit == asked
      ensures limit.Some? <==> !shuttingDown && inFlight < concurrency
      ensures limit.Some? ==> inFlight + limit.value == concurrency
      ensures inFlight == old(inFlight) && shuttingDown == old(shuttingDown)
    {
      if shuttingDown {
        return None;
      }
      var remaining := concurrency - inFlight;
      if remaining <= 0 {
        return None;
      }
      asked := Some(remaining);
      return asked;
    }

    /** The claim answered: each job starts, and counts before it first waits. */
    method StartJobs(jobs: seq<Handed>)
      requires Enabled(Value(), Begin(|jobs|), concurrency)
      modifies this
      ensures Value() == Next(old(Value()), Begin(|jobs|), concurrency)
      ensures inFlight == old(inFlight) + |jobs| && asked == None && started == old(started) + |jobs|
    {
      asked := None;
      for i := 0 to |jobs|
        invariant Value() == old(Value()).(asked := None, inFlight := old(inFlight) + i, started := old(started) + i)
      {
        inFlight := inFlight + 1;
        started := started + 1;
      }
    }

    method SettleJob(ended: Ended)
      requires Enabled(Value(), Settle(ended), concurrency)
      modifies this
      ensures Value() == Next(old(Value()), Settle(ended), concurrency)
      ensures inFlight == old(inFlight) - 1 && abandoned == old(abandoned) + if ended == TimedOut then 1 else 0
    {
      inFlight := inFlight - 1;
      if ended == TimedOut {
        abandoned := abandoned + 1;
      }
    }

    method StopWorker()
      modifies this
      ensures Value() == Next(old(Value()), Stop, concurrency)
    {
      shuttingDown := true;
    }
  }

  ghost predicate Run(s: State, evs: seq<Event>, tr: seq<State>, concurrency: nat) {
    && |tr| == |evs| + 1
    && tr[0] == s
    && forall i :: 0 <= i < |evs| ==>
         Enabled(tr[i], evs[i], concurrency) && tr[i + 1] == Next(tr[i], evs[i], concurrency)
  }

  const IDLE := State(0, None, 0, 0, false)

  ghost predicate Trace(evs: seq<Event>, tr: seq<State>, concurrency: nat) {
    Run(IDLE, evs, tr, concurrency)
  }

  /** Jobs in flight, even with a claim still in the air for the rest, never exceed the concurrency. */
  lemma WithinConcurrency(evs: seq<Event>, tr: seq<State>, concurrency: nat, k: nat)
    requires Trace(evs, tr, concurrency) && k < |tr|
    ensures tr[k].inFlight + tr[k].asked.GetOr(0) <= concurrency
  {
    CapIsKept(IDLE, evs, tr, concurrency, k);
  }

  lemma {:induction false} CapIsKept(s: State, evs: seq<Event>, tr: seq<State>, concurrency: nat, k: nat)
    requires Run(s, evs, tr, concurrency) && k < |tr|
    requires s.inFlight + s.asked.GetOr(0) <= concurrency
    ensures tr[k].inFlight + tr[k].asked.GetOr(0) <= concurrency
  {
    if k > 0 {
      CapIsKept(s, evs, tr, concurrency, k - 1);
      assert Enabled(tr[k - 1], evs[k - 1], concurrency) && tr[k] == Next(tr[k - 1], evs[k - 1], concurrency);
    }
  }

  /**
   * After a stop nothing more is claimed, except by a claim that was already in the air: that one may still
   * start jobs, at most as many as it asked for.
   */
  lemma {:induction false} StopLetsOneClaimThrough(s: State, evs: seq<Event>, tr: seq<State>, concurrency: nat, k: nat)
    requires Run(s, evs, tr, concurrency) && k < |tr| && s.shuttingDown
    ensures tr[k].shuttingDown && s.started <= tr[k].started
    ensures tr[k].started + tr[k].asked.GetOr(0) <= s.started + s.asked.GetOr(0)
    ensures s.asked == None ==> tr[k].asked == None && tr[k].started == s.started && tr[k].inFlight <= s.inFlight
  {
    if k > 0 {
      StopLetsOneClaimThrough(s, evs, tr, concurrency, k - 1);
      assert Enabled(tr[k - 1], evs[k - 1], concurrency) && tr[k] == Next(tr[k - 1], evs[k - 1], concurrency);
    }
  }

  /** Once stopped, a worker can still start a job exactly when a claim for at least one is in the air. */
  lemma StartsAfterStopIff(s: State, concurrency: nat)
    requires s.shuttingDown
    ensures (exists evs: seq<Event>, tr: seq<State> :: Run(s, evs, tr, concurrency) && tr[|evs|].started > s.started)
            <==> s.asked.Some? && s.asked.value > 0
  {
    forall evs: seq<Event>, tr: seq<State> | Run(s, evs, tr, concurrency) && tr[|evs|].started > s.started
      ensures s.asked.Some? && s.asked.value > 0
    {
      StopLetsOneClaimThrough(s, evs, tr, concurrency, |evs|);
    }
    if s.asked.Some? && s.asked.value > 0 {
      var begun := Next(s, Begin(1), concurrency);
      assert Run(s, [Begin(1)], [s, begun], concurrency);
      assert [s, begun][|[Begin(1)]|].started > s.started;
    }
  }

  /** It does happen: ask, stop, and the answer starts as many jobs as there are slots. */
  lemma StartsAfterStop(concurrency: nat) returns (evs: seq<Event>, tr: seq<State>)
    requires concurrency > 0
    ensures Trace(evs, tr, concurrency) && evs == [Ask, Stop, Begin(concurrency)]
    ensures tr[2].shuttingDown && tr[2].started == 0 && tr[3].started == tr[3].inFlight == concurrency
  {
    evs := [Ask, Stop, Begin(concurrency)];
    var asked := Next(IDLE, Ask, concurrency);
    var stopped := Next(asked, Stop, concurrency);
    tr := [IDLE, asked, stopped, Next(stopped, Begin(concurrency), concurrency)];
  }

  /**
   * The cap is on jobs, not on handlers: a handler that timed out gives its slot back and runs on. With one slot
   * any number of handlers can be running at once.
   */
  lemma {:induction false} HandlersCanPileUp(n: nat) returns (evs: seq<Event>, tr: seq<State>)
    ensures Trace(evs, tr, 1) && tr[|evs|] == State(0, None, n, n, false)
  {
    if n == 0 {
      evs, tr := [], [State(0, None, 0, 0, false)];
    } else {
      evs, tr := HandlersCanPileUp(n - 1);
      var s := tr[|evs|];
      var a := Next(s, Ask, 1);
      var b := Next(a, Begin(1), 1);
      var c := Next(b, Settle(TimedOut), 1);
      Extended(IDLE, evs, tr, Ask, 1);
      Extended(IDLE, evs + [Ask], tr + [a], Begin(1), 1);
      Extended(IDLE, evs + [Ask] + [Begin(1)], tr + [a] + [b], Settle(TimedOut), 1);
      evs, tr := evs + [Ask] + [Begin(1)] + [Settle(TimedOut)], tr + [a] + [b] + [c];
    }
  }

  ghost predicate NoTimeouts(evs: seq<Event>) {
    Settle(TimedOut) !in evs
  }

  /** From s on, as long as no further handler times out, the handlers running stay within the concurrency. */
  ghost predicate HandlersStayWithin(s: State, concurrency: nat) {
    forall evs: seq<Event>, tr: seq<State>, n: nat :: Run(s, evs, tr, concurrency) && NoTimeouts(evs) && n < |tr| ==>
      tr[n].inFlight + tr[n].abandoned <= concurrency
  }

  lemma {:induction false} NoneAreAbandoned(s: State, evs: seq<Event>, tr: seq<State>, concurrency: nat, n: nat)
    requires Run(s, evs, tr, concurrency) && NoTimeouts(evs) && n < |tr|
    ensures s.abandoned == 0 ==> tr[n].abandoned == 0
    ensures s.shuttingDown ==> tr[n].shuttingDown
                               && tr[n].inFlight + tr[n].asked.GetOr(0) + tr[n].abandoned
                                  <= s.inFlight + s.asked.GetOr(0) + s.abandoned
  {
    if n > 0 {
      NoneAreAbandoned(s, evs, tr, concurrency, n - 1);
      assert evs[n - 1] in evs;
      assert Enabled(tr[n - 1], evs[n - 1], concurrency) && tr[n] == Next(tr[n - 1], evs[n - 1], concurrency);
    }
  }

  /** Answering the claim in the air and, unless stopped, asking for the rest fills every slot. */
  lemma SlotsFill(s: State, concurrency: nat) returns (evs: seq<Event>, tr: seq<State>)
    requires s.inFlight + s.asked.GetOr(0) <= concurrency
    ensures Run(s, evs, tr, concurrency) && NoTimeouts(evs)
    ensures tr[|evs|].abandoned == s.abandoned
    ensures tr[|evs|].inFlight == if s.shuttingDown then s.inFlight + s.asked.GetOr(0) else concurrency
  {
    evs, tr := [], [s];
    if s.asked.Some? {
      Extended(s, evs, tr, Begin(s.asked.value), concurrency);
      evs, tr := evs + [Begin(s.asked.value)], tr + [Next(s, Begin(s.asked.value), concurrency)];
    }
    var now := tr[|evs|];
    if !s.shuttingDown && now.inFlight < concurrency {
      var asked := Next(now, Ask, concurrency);
      Extended(s, evs, tr, Ask, concurrency);
      evs, tr := evs + [Ask], tr + [asked];
      Extended(s, evs, tr, Begin(asked.asked.value), concurrency);
      evs, tr := evs + [Begin(asked.asked.value)], tr + [Next(asked, Begin(asked.asked.value), concurrency)];
    }
  }

  /**
   * The handlers running are bound to stay within the concurrency exactly when none has been abandoned, or the
   * worker is stopped and they fit beside all it holds and asked for.
   */
  lemma HandlersStayWithinIff(evs: seq<Event>, tr: seq<State>, concurrency: nat, k: nat)
    requires Trace(evs, tr, concurrency) && k < |tr|
    ensures var s := tr[k];
            HandlersStayWithin(s, concurrency) <==>
              s.abandoned == 0 || (s.shuttingDown && s.inFlight + s.asked.GetOr(0) + s.abandoned <= concurrency)
  {
    var s := tr[k];
    WithinConcurrency(evs, tr, concurrency, k);
    forall more: seq<Event>, to: seq<State>, n: nat | Run(s, more, to, concurrency) && NoTimeouts(more) && n < |to|
      ensures to[n].inFlight + to[n].asked.GetOr(0) <= concurrency
      ensures s.abandoned == 0 ==> to[n].abandoned == 0
      ensures s.shuttingDown ==> to[n].inFlight + to[n].abandoned <= s.inFlight + s.asked.GetOr(0) + s.abandoned
    {
      CapIsKept(s, more, to, concurrency, n);
      NoneAreAbandoned(s, more, to, concurrency, n);
    }
    var more, to := SlotsFill(s, concurrency);
    assert to[|more|].inFlight + to[|more|].abandoned > concurrency ==> !HandlersStayWithin(s, concurrency);
  }

  lemma Extended(s: State, evs: seq<Event>, tr: seq<State>, e: Event, concurrency: nat)
    requires Run(s, evs, tr, concurrency) && Enabled(tr[|evs|], e, concurrency)
    ensures Run(s, evs + [e], tr + [Next(tr[|evs|], e, concurrency)], concurrency)
  {
    var evs', tr' := evs + [e], tr + [Next(tr[|evs|], e, concurrency)];
    forall i | 0 <= i < |evs'|
      ensures Enabled(tr'[i], evs'[i], concurrency) && tr'[i + 1] == Next(tr'[i], evs'[i], concurrency)
    {
      if i < |evs| {
        assert evs'[i] == evs[i] && tr'[i] == tr[i] && tr'[i + 1] == tr[i + 1];
      }
    }
  }
}

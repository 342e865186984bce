/** The migration runner of src/db/migrate.ts: one deploy, and any number of deploys at once. */
module Migrations {
  import opened Prelude

  type Version = string
  type ProcId = nat

  datatype Migration = Migration(version: Version, sql: string)

  type Checksum = string -> string

  /** `applied` is schema_migrations; `effects` the migrations whose own statements committed, in order. */
  datatype Db = Db(applied: map<Version, string>, effects: seq<Version>)

  /** The directory listing, sorted: every version once. */
  ghost predicate Listing(files: seq<Migration>) {
    forall i, j :: 0 <= i < j < |files| ==> files[i].version != files[j].version
  }

  // ---- one deploy ----

  predicate Modified(db: Db, m: Migration, sum: Checksum) {
    m.version in db.applied && db.applied[m.version] != sum(m.sql)
  }

  /** The files from position i on that the snapshot does not list. */
  function PendingFrom(db: Db, files: seq<Migration>, i: nat): seq<Migration>
    requires i <= |files|
    decreases |files| - i
  {
    if i == |files| then []
    else (if files[i].version in db.applied then [] else [files[i]]) + PendingFrom(db, files, i + 1)
  }

  function Pending(db: Db, files: seq<Migration>): seq<Migration> {
    PendingFrom(db, files, 0)
  }

  /** One migration's transaction: its statements and its record, together. */
  function Applied(db: Db, m: Migration, sum: Checksum): Db {
    Db(db.applied[m.version := sum(m.sql)], db.effects + [m.version])
  }

  function AppliedAll(db: Db, ms: seq<Migration>, n: nat, sum: Checksum): Db
    requires n <= |ms|
  {
    if n == 0 then db else Applied(AppliedAll(db, ms, n - 1, sum), ms[n - 1], sum)
  }

  datatype Result = UpToDate | Done(count: nat) | EditedAfterApply(version: Version) | FailedAt(done: nat)

  class Deploy {
    var db: Db

    constructor (db: Db)
      ensures this.db == db
    {
      this.db := db;
    }

    /** `breaks` says which migrations' statements raise an error. */
    method Run(files: seq<Migration>, sum: Checksum, breaks: Migration -> bool) returns (r: Result)
      requires Listing(files)
      modifies this
      ensures r.EditedAfterApply? <==>
                (exists m :: m in files && m.version in old(db).applied && old(db).applied[m.version] != sum(m.sql))
      ensures var pending := Pending(old(db), files);
              match r
              case EditedAfterApply(v) =>
                && db == old(db)
                && (exists m :: m in files && m.version == v && v in db.applied && db.applied[v] != sum(m.sql))
              case UpToDate => pending == [] && db == old(db)
              case Done(count) =>
                && count == |pending| && db == AppliedAll(old(db), pending, count, sum)
                && forall m :: m in pending ==> !breaks(m)
              case FailedAt(done) =>
                && done < |pending| && db == AppliedAll(old(db), pending, done, sum)
                && breaks(pending[done]) && forall i :: 0 <= i < done ==> !breaks(pending[i])
    {
      hide PendingFrom, Applied, Listing;
      for i := 0 to |files|
        invariant db == old(db) && forall j :: 0 <= j < i ==> !Modified(db, files[j], sum)
      {
        if Modified(db, files[i], sum) {
          return EditedAfterApply(files[i].version);
        }
      }
      var pending := Pending(db, files);
      if |pending| == 0 {
        return UpToDate;
      }
      for i := 0 to |pending|
        invariant db == AppliedAll(old(db), pending, i, sum) && forall j :: 0 <= j < i ==> !breaks(pending[j])
      {
        if breaks(pending[i]) {
          return FailedAt(i);
        }
        db := Applied(db, pending[i], sum);
      }
      return Done(|pending|);
    }
  }

  ghost predicate Ascending(at: seq<nat>, low: nat, high: nat) {
    && (forall k :: 0 <= k < |at| ==> low <= at[k] < high)
    && (forall j, k :: 0 <= j < k < |at| ==> at[j] < at[k])
  }

  ghost predicate StandAt(files: seq<Migration>, pending: seq<Migration>, at: seq<nat>) {
    |at| == |pending| && forall k :: 0 <= k < |at| ==> at[k] < |files| && pending[k] == files[at[k]]
  }

  ghost predicate Unrecorded(db: Db, files: seq<Migration>, i: nat, at: seq<nat>) {
    forall n :: i <= n < |files| ==> (n in at <==> files[n].version !in db.applied)
  }

  /** `at` says where each pending file stands in the directory, from position i on. */
  ghost predicate Positions(db: Db, files: seq<Migration>, i: nat, pending: seq<Migration>, at: seq<nat>) {
    Ascending(at, i, |files|) && StandAt(files, pending, at) && Unrecorded(db, files, i, at)
  }

  lemma AscendingFrom(at: seq<nat>, low: nat, high: nat)
    requires Ascending(at, low + 1, high) && low < high
    ensures Ascending([low] + at, low, high) && Ascending(at, low, high) && low !in at
  {
  }

  lemma StandFrom(files: seq<Migration>, pending: seq<Migration>, at: seq<nat>, i: nat)
    requires StandAt(files, pending, at) && i < |files|
    ensures StandAt(files, [files[i]] + pending, [i] + at)
  {
  }

  lemma UnrecordedFrom(db: Db, files: seq<Migration>, i: nat, at: seq<nat>)
    requires i < |files| && Unrecorded(db, files, i + 1, at) && i !in at
    ensures Unrecorded(db, files, i, if files[i].version in db.applied then at else [i] + at)
  {
  }

  lemma OneEarlier(db: Db, files: seq<Migration>, i: nat, pending: seq<Migration>, at: seq<nat>)
    requires i < |files| && Positions(db, files, i + 1, pending, at)
    ensures files[i].version !in db.applied ==> Positions(db, files, i, [files[i]] + pending, [i] + at)
    ensures files[i].version in db.applied ==> Positions(db, files, i, pending, at)
  {
    hide Ascending, StandAt, Unrecorded;
    AscendingFrom(at, i, |files|);
    StandFrom(files, pending, at, i);
    UnrecordedFrom(db, files, i, at);
  }

  /** The pending files are those without a record, in the order of the directory. */
  lemma {:induction false} PendingAre(db: Db, files: seq<Migration>, i: nat) returns (at: seq<nat>)
    requires i <= |files|
    ensures Positions(db, files, i, PendingFrom(db, files, i), at)
    decreases |files| - i
  {
    at := [];
    if i < |files| {
      hide Positions;
      at := PendingAre(db, files, i + 1);
      OneEarlier(db, files, i, PendingFrom(db, files, i + 1), at);
      assert [] + PendingFrom(db, files, i + 1) == PendingFrom(db, files, i + 1);
      if files[i].version !in db.applied {
        at := [i] + at;
      }
    }
  }

  /** Of the first n migrations: each one's statements ran once, in order, and has its record; older records stay. */
  ghost predicate Recorded(after: Db, db: Db, ms: seq<Migration>, n: nat, sum: Checksum)
    requires n <= |ms|
  {
    && |after.effects| == |db.effects| + n && db.effects <= after.effects
    && (forall i :: 0 <= i < n ==> after.effects[|db.effects| + i] == ms[i].version)
    && (forall i :: 0 <= i < n ==> ms[i].version in after.applied && after.applied[ms[i].version] == sum(ms[i].sql))
    && (forall v :: v in db.applied ==> v in after.applied)
    && (forall v :: v in after.applied && (forall i :: 0 <= i < n ==> ms[i].version != v) ==>
          v in db.applied && after.applied[v] == db.applied[v])
  }

  lemma OneMoreRecorded(before: Db, db: Db, ms: seq<Migration>, n: nat, sum: Checksum)
    requires n < |ms| && Recorded(before, db, ms, n, sum)
    requires forall i :: 0 <= i < n ==> ms[i].version != ms[n].version
    ensures Recorded(Applied(before, ms[n], sum), db, ms, n + 1, sum)
  {
    var after := Applied(before, ms[n], sum);
    assert forall i :: 0 <= i < |before.effects| ==> after.effects[i] == before.effects[i];
  }

  lemma NoneRecorded(db: Db, ms: seq<Migration>, sum: Checksum)
    ensures Recorded(db, db, ms, 0, sum)
  {
  }

  lemma {:induction false} AppliedAre(db: Db, ms: seq<Migration>, n: nat, sum: Checksum)
    requires n <= |ms| && Listing(ms)
    ensures Recorded(AppliedAll(db, ms, n, sum), db, ms, n, sum)
  {
    hide Recorded, Applied;
    if n == 0 {
      NoneRecorded(db, ms, sum);
    } else {
      AppliedAre(db, ms, n - 1, sum);
      OneMoreRecorded(AppliedAll(db, ms, n - 1, sum), db, ms, n - 1, sum);
    }
  }

  /** Exactly the first n files have been applied, in order, and recorded with their checksums. */
  ghost predicate PrefixApplied(db: Db, files: seq<Migration>, sum: Checksum, n: nat) {
    && n <= |files| && |db.effects| == n
    && (forall i :: 0 <= i < n ==> db.effects[i] == files[i].version)
    && (forall v :: v in db.applied <==> v in db.effects)
    && (forall i :: 0 <= i < n ==> files[i].version in db.applied && db.applied[files[i].version] == sum(files[i].sql))
  }

  lemma {:induction false} PendingAfterPrefix(db: Db, files: seq<Migration>, sum: Checksum, n: nat, i: nat)
    requires Listing(files) && PrefixApplied(db, files, sum, n) && i <= |files|
    ensures PendingFrom(db, files, i) == files[Max(i, n)..]
    decreases |files| - i
  {
    if i < |files| {
      PendingAfterPrefix(db, files, sum, n, i + 1);
      assert files[i].version in db.applied <==> i < n;
    }
  }

  lemma ApplyingExtendsPrefix(db: Db, files: seq<Migration>, sum: Checksum, n: nat)
    requires Listing(files) && PrefixApplied(db, files, sum, n) && n < |files|
    ensures PrefixApplied(Applied(db, files[n], sum), files, sum, n + 1)
  {
    var db' := Applied(db, files[n], sum);
    assert db'.effects[n] == files[n].version && forall i :: 0 <= i < n ==> db'.effects[i] == db.effects[i];
  }

  /** A deploy that meets no error brings any prefix up to the whole list, each missing migration once and in order. */
  lemma {:induction false} DeployCompletes(db: Db, files: seq<Migration>, sum: Checksum, n: nat, k: nat)
    requires Listing(files) && PrefixApplied(db, files, sum, n) && k <= |files| - n
    ensures Pending(db, files) == files[n..]
    ensures PrefixApplied(AppliedAll(db, files[n..], k, sum), files, sum, n + k)
  {
    hide PrefixApplied, PendingFrom, Applied, Listing;
    PendingAfterPrefix(db, files, sum, n, 0);
    if k > 0 {
      DeployCompletes(db, files, sum, n, k - 1);
      assert files[n..][k - 1] == files[n + k - 1];
      ApplyingExtendsPrefix(AppliedAll(db, files[n..], k - 1, sum), files, sum, n + k - 1);
    }
  }

  // ---- many deploys at once ----

  /** Waiting for the lock, between two migrations, or with one applied and recorded but not committed. */
  datatype Phase = Waiting | Working | Uncommitted

  datatype Proc = Proc(pending: seq<Migration>, next: nat, phase: Phase)

  datatype System = System(db: Db, procs: map<ProcId, Proc>, lock: Option<ProcId>, ended: set<ProcId>)

  datatype Event =
    | Snapshot(p: ProcId)
    | Lock(p: ProcId)
    | Insert(p: ProcId)
    | Commit(p: ProcId)
    | Fail(p: ProcId)

  /** `p` has inserted the record of `v` and not committed: the primary key makes others wait for it. */
  predicate Inserting(s: System, p: ProcId, v: Version) {
    && p in s.procs && s.procs[p].phase == Uncommitted
    && s.procs[p].next < |s.procs[p].pending| && s.procs[p].pending[s.procs[p].next].version == v
  }

  /** `locking` is whether deploys take the advisory lock at all. */
  ghost predicate Enabled(s: System, e: Event, locking: bool) {
    match e
    case Snapshot(p) => p !in s.procs && p !in s.ended
    case Lock(p) => p in s.procs && s.procs[p].phase == Waiting && (locking ==> s.lock == None)
    case Insert(p) =>
      && p in s.procs && s.procs[p].phase == Working && s.procs[p].next < |s.procs[p].pending|
      && forall q :: q != p ==> !Inserting(s, q, s.procs[p].pending[s.procs[p].next].version)
    case Commit(p) => p in s.procs && s.procs[p].phase == Uncommitted && s.procs[p].next < |s.procs[p].pending|
    case Fail(p) => p in s.procs
  }

  /** The connection closes: an open transaction rolls back and a held lock is released. */
  function End(s: System, p: ProcId): System {
    s.(procs := s.procs - {p}, ended := s.ended + {p}, lock := if s.lock == Some(p) then None else s.lock)
  }

  ghost function Next(s: System, e: Event, files: seq<Migration>, sum: Checksum, locking: bool): System
    requires Enabled(s, e, locking)
  {
    match e
    case Snapshot(p) =>
      var pending := Pending(s.db, files);
      if pending == [] || exists m :: m in files && Modified(s.db, m, sum) then s.(ended := s.ended + {p})
      else s.(procs := s.procs[p := Proc(pending, 0, Waiting)])
    case Lock(p) =>
      s.(procs := s.procs[p := s.procs[p].(phase := Working)], lock := if locking then Some(p) else s.lock)
    case Insert(p) =>
      if s.procs[p].pending[s.procs[p].next].version in s.db.applied then End(s, p)
      else s.(procs := s.procs[p := s.procs[p].(phase := Uncommitted)])
    case Commit(p) =>
      var db := Applied(s.db, s.procs[p].pending[s.procs[p].next], sum);
      if s.procs[p].next + 1 == |s.procs[p].pending| then End(s.(db := db), p)
      else s.(db := db, procs := s.procs[p := s.procs[p].(phase := Working, next := s.procs[p].next + 1)])
    case Fail(p) => End(s, p)
  }

  /** tr[i] is the system before event i; earlier deploys left some prefix of the list. */
  ghost predicate Trace(evs: seq<Event>, tr: seq<System>, files: seq<Migration>, sum: Checksum, locking: bool) {
    && |tr| == |evs| + 1 && Listing(files)
    && PrefixApplied(tr[0].db, files, sum, |tr[0].db.effects|)
    && tr[0].procs == map[] && tr[0].lock == None && tr[0].ended == {}
    && forall i :: 0 <= i < |evs| ==>
         Enabled(tr[i], evs[i], locking) && tr[i + 1] == Next(tr[i], evs[i], files, sum, locking)
  }

  /** The position in the list of the migration a deploy is at. */
  function Position(files: seq<Migration>, proc: Proc): int {
    |files| - |proc.pending| + proc.next
  }

  /** A deploy works through a suffix of the list and is never ahead of what is applied. */
  ghost predicate ProcInv(s: System, files: seq<Migration>, p: ProcId)
    requires p in s.procs
  {
    var proc := s.procs[p];
    && proc.next < |proc.pending| <= |files|
    && proc.pending == files[|files| - |proc.pending|..]
    && Position(files, proc) <= |s.db.effects|
    && (proc.phase == Uncommitted ==> Position(files, proc) == |s.db.effects|)
  }

  ghost predicate Inv(s: System, files: seq<Migration>, sum: Checksum, locking: bool) {
    && PrefixApplied(s.db, files, sum, |s.db.effects|)
    && (forall p :: p in s.procs ==> ProcInv(s, files, p) && p !in s.ended)
    && (forall p, q :: p in s.procs && q in s.procs && s.procs[p].phase == Uncommitted == s.procs[q].phase ==> p == q)
    && (locking ==> forall p :: p in s.procs && s.procs[p].phase != Waiting ==> s.lock == Some(p))
  }

  lemma RecordedIff(db: Db, files: seq<Migration>, sum: Checksum, j: nat)
    requires Listing(files) && PrefixApplied(db, files, sum, |db.effects|) && j < |files|
    ensures files[j].version in db.applied <==> j < |db.effects|
  {
  }

  /** Other deploys' commits only help a deploy that has nothing uncommitted. */
  lemma ProcStays(s: System, s': System, files: seq<Migration>, p: ProcId)
    requires p in s.procs && ProcInv(s, files, p) && p in s'.procs && s'.procs[p] == s.procs[p]
    requires |s'.db.effects| == |s.db.effects| || (|s.db.effects| <= |s'.db.effects| && s.procs[p].phase != Uncommitted)
    ensures ProcInv(s', files, p)
  {
  }

  lemma PrefixLength(db: Db, files: seq<Migration>, sum: Checksum)
    requires PrefixApplied(db, files, sum, |db.effects|)
    ensures |db.effects| <= |files|
  {
  }

  lemma FreshProc(s: System, files: seq<Migration>, sum: Checksum, p: ProcId)
    requires Listing(files) && PrefixApplied(s.db, files, sum, |s.db.effects|)
    requires p in s.procs && s.procs[p] == Proc(Pending(s.db, files), 0, Waiting) && Pending(s.db, files) != []
    ensures ProcInv(s, files, p)
  {
    hide PrefixApplied;
    PrefixLength(s.db, files, sum);
    PendingAfterPrefix(s.db, files, sum, |s.db.effects|, 0);
  }

  lemma SnapshotKeepsInv(s: System, p: ProcId, files: seq<Migration>, sum: Checksum, locking: bool)
    requires Listing(files) && Inv(s, files, sum, locking) && Enabled(s, Snapshot(p), locking)
    ensures Inv(Next(s, Snapshot(p), files, sum, locking), files, sum, locking)
  {
    hide PrefixApplied, PendingFrom, ProcInv, Modified;
    var s' := Next(s, Snapshot(p), files, sum, locking);
    forall q | q in s'.procs ensures ProcInv(s', files, q) {
      if q in s.procs {
        ProcStays(s, s', files, q);
      } else {
        FreshProc(s', files, sum, q);
      }
    }
  }

  lemma InsertKeepsInv(s: System, p: ProcId, files: seq<Migration>, sum: Checksum, locking: bool)
    requires Listing(files) && Inv(s, files, sum, locking) && Enabled(s, Insert(p), locking)
    ensures Inv(Next(s, Insert(p), files, sum, locking), files, sum, locking)
  {
    hide PrefixApplied, ProcInv;
    var v := s.procs[p].pending[s.procs[p].next].version;
    var s' := Next(s, Insert(p), files, sum, locking);
    forall q | q in s'.procs && q != p ensures ProcInv(s', files, q) {
      ProcStays(s, s', files, q);
    }
    if v !in s.db.applied {
      InsertedProc(s, p, s', files, sum);
      forall q | q in s.procs && s.procs[q].phase == Uncommitted ensures false {
        SamePlace(s, p, q, files, sum);
      }
    }
  }

  lemma InsertedProc(s: System, p: ProcId, s': System, files: seq<Migration>, sum: Checksum)
    requires Listing(files) && PrefixApplied(s.db, files, sum, |s.db.effects|) && p in s.procs && ProcInv(s, files, p)
    requires s.procs[p].pending[s.procs[p].next].version !in s.db.applied
    requires s'.db == s.db && p in s'.procs && s'.procs[p] == s.procs[p].(phase := Uncommitted)
    ensures ProcInv(s', files, p)
  {
    hide PrefixApplied;
    RecordedIff(s.db, files, sum, Position(files, s.procs[p]));
  }

  /** A deploy whose next migration is not recorded yet is at the one that another is inserting. */
  lemma SamePlace(s: System, p: ProcId, q: ProcId, files: seq<Migration>, sum: Checksum)
    requires Listing(files) && PrefixApplied(s.db, files, sum, |s.db.effects|)
    requires p in s.procs && ProcInv(s, files, p) && q in s.procs && ProcInv(s, files, q)
    requires s.procs[p].pending[s.procs[p].next].version !in s.db.applied && s.procs[q].phase == Uncommitted
    ensures Inserting(s, q, s.procs[p].pending[s.procs[p].next].version)
  {
    hide PrefixApplied;
    RecordedIff(s.db, files, sum, Position(files, s.procs[p]));
  }

  lemma CommitKeepsInv(s: System, p: ProcId, files: seq<Migration>, sum: Checksum, locking: bool)
    requires Listing(files) && Inv(s, files, sum, locking) && Enabled(s, Commit(p), locking)
    ensures Inv(Next(s, Commit(p), files, sum, locking), files, sum, locking)
  {
    hide PrefixApplied, ProcInv;
    var s' := Next(s, Commit(p), files, sum, locking);
    CommittedProc(s, p, s', files, sum);
    forall q | q in s'.procs && q != p ensures ProcInv(s', files, q) {
      ProcStays(s, s', files, q);
    }
  }

  lemma CommittedProc(s: System, p: ProcId, s': System, files: seq<Migration>, sum: Checksum)
    requires Listing(files) && PrefixApplied(s.db, files, sum, |s.db.effects|) && p in s.procs && ProcInv(s, files, p)
    requires s.procs[p].phase == Uncommitted && s'.db == Applied(s.db, s.procs[p].pending[s.procs[p].next], sum)
    requires p in s'.procs ==>
               && s.procs[p].next + 1 < |s.procs[p].pending|
               && s'.procs[p] == s.procs[p].(phase := Working, next := s.procs[p].next + 1)
    ensures PrefixApplied(s'.db, files, sum, |s'.db.effects|) && |s'.db.effects| == |s.db.effects| + 1
    ensures p in s'.procs ==> ProcInv(s', files, p)
  {
    hide PrefixApplied;
    ApplyingExtendsPrefix(s.db, files, sum, |s.db.effects|);
  }

  lemma OthersStay(s: System, e: Event, files: seq<Migration>, sum: Checksum, locking: bool)
    requires Listing(files) && Inv(s, files, sum, locking) && Enabled(s, e, locking) && (e.Lock? || e.Fail?)
    ensures Inv(Next(s, e, files, sum, locking), files, sum, locking)
  {
    hide PrefixApplied, ProcInv;
    var s' := Next(s, e, files, sum, locking);
    forall q | q in s'.procs && q != e.p ensures ProcInv(s', files, q) {
      ProcStays(s, s', files, q);
    }
    if e.Lock? {
      LockedProc(s, e.p, s', files);
    }
  }

  lemma LockedProc(s: System, p: ProcId, s': System, files: seq<Migration>)
    requires p in s.procs && ProcInv(s, files, p)
    requires s'.db == s.db && p in s'.procs && s'.procs[p] == s.procs[p].(phase := Working)
    ensures ProcInv(s', files, p)
  {
  }

  lemma StepKeepsInv(s: System, e: Event, files: seq<Migration>, sum: Checksum, locking: bool)
    requires Listing(files) && Inv(s, files, sum, locking) && Enabled(s, e, locking)
    ensures Inv(Next(s, e, files, sum, locking), files, sum, locking)
  {
    match e {
      case Snapshot(p) => SnapshotKeepsInv(s, p, files, sum, locking);
      case Insert(p) => InsertKeepsInv(s, p, files, sum, locking);
      case Commit(p) => CommitKeepsInv(s, p, files, sum, locking);
      case _ => OthersStay(s, e, files, sum, locking);
    }
  }

  lemma {:induction false} RunKeepsInv(evs: seq<Event>, tr: seq<System>, files: seq<Migration>, sum: Checksum,
      locking: bool, k: nat)
    requires Trace(evs, tr, files, sum, locking) && k < |tr|
    ensures Inv(tr[k], files, sum, locking)
  {
    hide Next, Enabled, Inv;
    if k == 0 {
      Idle(tr[0], files, sum, locking);
    } else {
      RunKeepsInv(evs, tr, files, sum, locking, k - 1);
      StepKeepsInv(tr[k - 1], evs[k - 1], files, sum, locking);
    }
  }

  lemma Idle(s: System, files: seq<Migration>, sum: Checksum, locking: bool)
    requires PrefixApplied(s.db, files, sum, |s.db.effects|) && s.procs == map[]
    ensures Inv(s, files, sum, locking)
  {
  }

  /**
   * With any number of deploys, crashing anywhere, with or without the lock: what has committed is a prefix of
   * the list, each migration at most once, and the recorded versions are exactly those, with their checksums.
   */
  lemma AppliedIsAlwaysAPrefix(evs: seq<Event>, tr: seq<System>, files: seq<Migration>, sum: Checksum, locking: bool,
      k: nat)
    requires Trace(evs, tr, files, sum, locking) && k < |tr|
    ensures var db := tr[k].db;
            && |db.effects| <= |files|
            && (forall i :: 0 <= i < |db.effects| ==> db.effects[i] == files[i].version)
            && (forall i, j :: 0 <= i < j < |db.effects| ==> db.effects[i] != db.effects[j])
            && (forall v :: v in db.applied <==> v in db.effects)
            && (forall m :: m in files && m.version in db.applied ==> db.applied[m.version] == sum(m.sql))
  {
    RunKeepsInv(evs, tr, files, sum, locking, k);
  }

  /** The lock adds that deploys take turns. */
  lemma LockSerialises(evs: seq<Event>, tr: seq<System>, files: seq<Migration>, sum: Checksum, k: nat, p: ProcId,
      q: ProcId)
    requires Trace(evs, tr, files, sum, true) && k < |tr| && p in tr[k].procs && q in tr[k].procs
    requires tr[k].procs[p].phase != Waiting && tr[k].procs[q].phase != Waiting
    ensures p == q
  {
    RunKeepsInv(evs, tr, files, sum, true, k);
  }

  /**
   * A deploy at position j gets its record in exactly when j migrations are applied; behind that, it fails and
   * changes nothing.
   */
  lemma InsertSucceedsIff(evs: seq<Event>, tr: seq<System>, files: seq<Migration>, sum: Checksum, locking: bool, k: nat,
      p: ProcId)
    requires Trace(evs, tr, files, sum, locking) && k < |evs| && evs[k] == Insert(p)
    ensures p in tr[k + 1].procs <==> Position(files, tr[k].procs[p]) == |tr[k].db.effects|
    ensures tr[k + 1].db == tr[k].db
  {
    RunKeepsInv(evs, tr, files, sum, locking, k);
    assert Enabled(tr[k], evs[k], locking) && tr[k + 1] == Next(tr[k], evs[k], files, sum, locking);
    RecordedIff(tr[k].db, files, sum, Position(files, tr[k].procs[p]));
  }

  /** `p` took its snapshot before a migration it still means to apply was committed by another. */
  ghost predicate Stale(s: System, files: seq<Migration>, p: ProcId) {
    p in s.procs && Position(files, s.procs[p]) < |s.db.effects|
  }

  lemma StaleStays(s: System, e: Event, files: seq<Migration>, sum: Checksum, locking: bool, p: ProcId)
    requires Inv(s, files, sum, locking) && Enabled(s, e, locking)
             && (Stale(s, files, p) || (p !in s.procs && p in s.ended))
    ensures e != Commit(p)
    ensures var s' := Next(s, e, files, sum, locking); Stale(s', files, p) || (p !in s'.procs && p in s'.ended)
  {
    hide PrefixApplied, PendingFrom;
  }

  /** A deploy overtaken while it waited never commits anything: it stays behind until it ends. */
  lemma {:induction false} OvertakenDeployNeverCommits(evs: seq<Event>, tr: seq<System>, files: seq<Migration>,
      sum: Checksum, locking: bool, i: nat, k: nat, p: ProcId)
    requires Trace(evs, tr, files, sum, locking) && i <= k < |evs| && Stale(tr[i], files, p)
    ensures Stale(tr[k], files, p) || (p !in tr[k].procs && p in tr[k].ended)
    ensures evs[k] != Commit(p)
    decreases k
  {
    hide Inv, Enabled, Next, Stale;
    RunKeepsInv(evs, tr, files, sum, locking, k);
    if i < k {
      OvertakenDeployNeverCommits(evs, tr, files, sum, locking, i, k - 1, p);
      RunKeepsInv(evs, tr, files, sum, locking, k - 1);
      StaleStays(tr[k - 1], evs[k - 1], files, sum, locking, p);
    }
    StaleStays(tr[k], evs[k], files, sum, locking, p);
  }

  lemma Extended(evs: seq<Event>, tr: seq<System>, files: seq<Migration>, sum: Checksum, locking: bool, e: Event,
      s': System)
    requires Trace(evs, tr, files, sum, locking) && Enabled(tr[|evs|], e, locking)
    requires s' == Next(tr[|evs|], e, files, sum, locking)
    ensures Trace(evs + [e], tr + [s'], files, sum, locking)
  {
    hide Enabled, Next, PrefixApplied, Listing;
    var evs', tr' := evs + [e], tr + [s'];
    forall i | 0 <= i < |evs'|
      ensures Enabled(tr'[i], evs'[i], locking) && tr'[i + 1] == Next(tr'[i], evs'[i], files, sum, locking)
    {
      if i < |evs| {
        assert evs'[i] == evs[i] && tr'[i] == tr[i] && tr'[i + 1] == tr[i + 1];
      }
    }
  }

  lemma SnapshotOfOne(s: System, p: ProcId, m: Migration, sum: Checksum, locking: bool)
    requires s.db == Db(map[], []) && p !in s.procs && p !in s.ended
    ensures Enabled(s, Snapshot(p), locking)
    ensures Next(s, Snapshot(p), [m], sum, locking) == s.(procs := s.procs[p := Proc([m], 0, Waiting)])
  {
    assert PendingFrom(s.db, [m], 1) == [] && Pending(s.db, [m]) == [m];
  }

  /** Two deploys have taken their snapshot of an empty database. */
  lemma TwoSnapshots(m: Migration, sum: Checksum, locking: bool)
      returns (evs: seq<Event>, tr: seq<System>)
    ensures Trace(evs, tr, [m], sum, locking) && evs == [Snapshot(1), Snapshot(2)]
    ensures tr[0] == System(Db(map[], []), map[], None, {})
    ensures tr[2] == tr[0].(procs := map[1 := Proc([m], 0, Waiting), 2 := Proc([m], 0, Waiting)])
  {
    var s0 := System(Db(map[], []), map[], None, {});
    var s1 := s0.(procs := map[1 := Proc([m], 0, Waiting)]);
    var s2 := s0.(procs := map[1 := Proc([m], 0, Waiting), 2 := Proc([m], 0, Waiting)]);
    SnapshotOfOne(s0, 1, m, sum, locking);
    SnapshotOfOne(s1, 2, m, sum, locking);
    evs, tr := [Snapshot(1), Snapshot(2)], [s0, s1, s2];
  }

  /** A working deploy with one migration to go, not yet recorded, records it and is done. */
  lemma FirstDeploy(s: System, m: Migration, sum: Checksum, locking: bool)
      returns (s1: System, s2: System, s3: System)
    requires s.procs == map[1 := Proc([m], 0, Waiting), 2 := Proc([m], 0, Waiting)] && s.lock == None
    requires m.version !in s.db.applied
    ensures Enabled(s, Lock(1), locking) && s1 == Next(s, Lock(1), [m], sum, locking)
    ensures Enabled(s1, Insert(1), locking) && s2 == Next(s1, Insert(1), [m], sum, locking)
    ensures Enabled(s2, Commit(1), locking) && s3 == Next(s2, Commit(1), [m], sum, locking)
    ensures s3.db == Applied(s.db, m, sum) && s3.lock == None && s3.ended == s.ended + {1}
    ensures s3.procs == map[2 := Proc([m], 0, Waiting)]
  {
    s1 := Next(s, Lock(1), [m], sum, locking);
    s2 := Next(s1, Insert(1), [m], sum, locking);
    s3 := Next(s2, Commit(1), [m], sum, locking);
  }

  /** A deploy whose migration is recorded by now stops there. */
  lemma SecondDeploy(s: System, m: Migration, sum: Checksum, locking: bool)
      returns (s1: System, s2: System)
    requires s.procs == map[2 := Proc([m], 0, Waiting)] && s.lock == None && m.version in s.db.applied
    ensures Enabled(s, Lock(2), locking) && s1 == Next(s, Lock(2), [m], sum, locking)
    ensures Enabled(s1, Insert(2), locking) && s2 == Next(s1, Insert(2), [m], sum, locking)
    ensures s2.db == s.db && s2.procs == map[] && s2.ended == s.ended + {2}
  {
    s1 := Next(s, Lock(2), [m], sum, locking);
    s2 := Next(s1, Insert(2), [m], sum, locking);
  }

  /**
   * Deploys do get overtaken, lock or no lock: both take their snapshot, the first applies the migration, and the
   * second, whose turn comes after that, stops at a record that is already there.
   */
  lemma DeployIsOvertaken(m: Migration, sum: Checksum, locking: bool)
      returns (evs: seq<Event>, tr: seq<System>)
    ensures Trace(evs, tr, [m], sum, locking)
    ensures evs == [Snapshot(1), Snapshot(2), Lock(1), Insert(1), Commit(1), Lock(2), Insert(2)]
    ensures tr[0].db == Db(map[], []) && Stale(tr[5], [m], 2)
    ensures tr[7].db == Applied(tr[0].db, m, sum) && tr[7].procs == map[] && tr[7].ended == {1, 2}
  {
    hide Trace, Enabled, Next;
    evs, tr := TwoSnapshots(m, sum, locking);
    var s3, s4, s5 := FirstDeploy(tr[2], m, sum, locking);
    var s6, s7 := SecondDeploy(s5, m, sum, locking);
    Extended(evs, tr, [m], sum, locking, Lock(1), s3);
    Extended(evs + [Lock(1)], tr + [s3], [m], sum, locking, Insert(1), s4);
    evs, tr := evs + [Lock(1)] + [Insert(1)], tr + [s3] + [s4];
    Extended(evs, tr, [m], sum, locking, Commit(1), s5);
    Extended(evs + [Commit(1)], tr + [s5], [m], sum, locking, Lock(2), s6);
    evs, tr := evs + [Commit(1)] + [Lock(2)], tr + [s5] + [s6];
    Extended(evs, tr, [m], sum, locking, Insert(2), s7);
    evs, tr := evs + [Insert(2)], tr + [s7];
  }
}

/**
 * The document checklist of one permit application, src/routes/permitApplications.ts: reconciled with the
 * rules, filled in, checked at submission, and the application turned into at most one permit.
 */
module Checklist {
  import opened Prelude
  import opened Intake

  type DocumentId = nat

  datatype DocStatus = Missing | Provided | Accepted | Rejected | Waived

  datatype Row = Row(required: bool, status: DocStatus, document: Option<DocumentId>)

  type Rows = map<DocType, Row>

  datatype AppStatus = Draft | Submitted | InReview | InfoRequested | AppAccepted | AppRejected | Converted | Withdrawn

  /** The stored columns that the rules read; septic and HOA are not among them. */
  datatype Stored = Stored(
    permitType: PermitType, valuationCents: Option<int>, isNewConstruction: bool, isOwnerBuilder: bool, inHvhz: bool,
    floodZone: Option<string>, isSubstantialImprovement: bool)

  function FactsOf(s: Stored, hasSubs: bool, septic: Option<bool>, hoa: Option<bool>, extras: seq<DocType>): Facts {
    Facts(s.permitType, s.valuationCents, s.isNewConstruction, s.isOwnerBuilder, s.inHvhz, s.floodZone,
          s.isSubstantialImprovement, hasSubs, septic, hoa, extras)
  }

  /** The rules see every stored column under its own name, and the answers of the request. */
  lemma FactsCarried(s: Stored, hasSubs: bool, septic: Option<bool>, hoa: Option<bool>, extras: seq<DocType>)
    ensures var f := FactsOf(s, hasSubs, septic, hoa, extras);
            && f.permitType == s.permitType && f.valuationCents == s.valuationCents && f.floodZone == s.floodZone
            && f.isNewConstruction == s.isNewConstruction && f.isOwnerBuilder == s.isOwnerBuilder
            && f.inHvhz == s.inHvhz && f.isSubstantialImprovement == s.isSubstantialImprovement
            && f.hasSubcontractors == hasSubs && f.hasSeptic == septic && f.hasHoa == hoa && f.extras == extras
  {
  }

  // ---- reconciling ----

  predicate IsProvided(rows: Rows, d: DocType) {
    d in rows && rows[d].status != Missing
  }

  predicate IsMissing(rows: Rows, d: DocType) {
    d in rows && rows[d].status == Missing
  }

  /** The upsert: a wanted row is required, and keeps whatever it holds. */
  function Upserted(rows: Rows, d: DocType): Rows {
    rows[d := if d in rows then rows[d].(required := true) else Row(true, Missing, None)]
  }

  function UpsertedTo(rows: Rows, docs: seq<DocType>, n: nat): Rows
    requires n <= |docs|
  {
    if n == 0 then rows else Upserted(UpsertedTo(rows, docs, n - 1), docs[n - 1])
  }

  /** Then rows no longer wanted go, if nothing was provided. */
  function Synced(rows: Rows, wanted: seq<DocType>): Rows {
    var upserted := UpsertedTo(rows, wanted, |wanted|);
    map d | d in upserted && (d in wanted || upserted[d].status != Missing) :: upserted[d]
  }

  lemma {:induction false} UpsertedAt(rows: Rows, docs: seq<DocType>, n: nat, d: DocType)
    requires n <= |docs|
    ensures var after := UpsertedTo(rows, docs, n);
            && (d in after <==> d in rows || d in docs[..n])
            && (d in after ==>
                  after[d] == if d in docs[..n]
                              then (if d in rows then rows[d].(required := true) else Row(true, Missing, None))
                              else rows[d])
  {
    if n > 0 {
      UpsertedAt(rows, docs, n - 1, d);
      assert docs[..n] == docs[..n - 1] + [docs[n - 1]];
    }
  }

  /** Every row after a sync, from the row before. */
  lemma SyncedAt(rows: Rows, wanted: seq<DocType>, d: DocType)
    ensures var after := Synced(rows, wanted);
            && (d in after <==> d in wanted || IsProvided(rows, d))
            && (d in after ==>
                  after[d] == if d in wanted
                              then (if d in rows then rows[d].(required := true) else Row(true, Missing, None))
                              else rows[d])
  {
    hide UpsertedTo;
    UpsertedAt(rows, wanted, |wanted|, d);
    assert wanted[..|wanted|] == wanted;
  }

  /**
   * Right after a sync the missing rows are exactly the wanted documents not yet provided, nothing provided
   * is lost or changed, and syncing again changes nothing.
   */
  lemma SyncIsExact(rows: Rows, wanted: seq<DocType>)
    ensures forall d :: IsMissing(Synced(rows, wanted), d) <==> d in wanted && !IsProvided(rows, d)
    ensures forall d :: IsProvided(rows, d) ==>
              && IsProvided(Synced(rows, wanted), d)
              && Synced(rows, wanted)[d].status == rows[d].status
              && Synced(rows, wanted)[d].document == rows[d].document
    ensures Synced(Synced(rows, wanted), wanted) == Synced(rows, wanted)
  {
    hide Synced;
    var once := Synced(rows, wanted);
    var twice := Synced(once, wanted);
    forall d
      ensures IsMissing(once, d) <==> d in wanted && !IsProvided(rows, d)
      ensures IsProvided(rows, d) ==>
                IsProvided(once, d) && once[d].status == rows[d].status && once[d].document == rows[d].document
      ensures d in twice <==> d in once
      ensures d in once ==> twice[d] == once[d]
    {
      SyncedAt(rows, wanted, d);
      SyncedAt(once, wanted, d);
    }
  }

  /** What a sync leaves, from the facts alone: what they demand, and what was provided before. */
  function Reconciled(rows: Rows, f: Facts): Rows {
    map d: DocType | Demanded(f, d) || IsProvided(rows, d) ::
      if Demanded(f, d) then (if d in rows then rows[d].(required := true) else Row(true, Missing, None)) else rows[d]
  }

  lemma SyncedIsReconciled(rows: Rows, wanted: seq<DocType>, f: Facts)
    requires forall d :: d in wanted <==> Demanded(f, d)
    ensures Synced(rows, wanted) == Reconciled(rows, f)
  {
    hide Synced, Demanded;
    forall d
      ensures d in Synced(rows, wanted) <==> d in Reconciled(rows, f)
      ensures d in Synced(rows, wanted) ==> Synced(rows, wanted)[d] == Reconciled(rows, f)[d]
    {
      SyncedAt(rows, wanted, d);
    }
  }

  /**
   * A checklist brought in line with some facts: the rows are what they demand and what was provided before; the
   * demanded ones not provided are missing, the provided ones are as they were, and the demanded ones are required.
   */
  ghost predicate InLine(after: Rows, before: Rows, f: Facts) {
    forall d ::
      && (d in after <==> Demanded(f, d) || IsProvided(before, d))
      && (IsMissing(after, d) <==> Demanded(f, d) && !IsProvided(before, d))
      && (IsProvided(before, d) ==> after[d].status == before[d].status)
      && (d in after && d in before ==> after[d].document == before[d].document)
      && (d in after && d !in before ==> after[d].document == None)
      && (d in after ==> after[d].required == (Demanded(f, d) || before[d].required))
  }

  lemma ReconciledIsInLine(rows: Rows, f: Facts)
    ensures InLine(Reconciled(rows, f), rows, f)
  {
    hide Demanded;
  }

  // ---- one application ----

  /** `permits` counts the permits made from it. */
  datatype App = App(status: AppStatus, stored: Stored, subs: nat, rows: Rows, permits: nat)

  /**
   * An edit counts the subcontractors, and adding one reads the stored columns, without a lock: `counted` and `seen`
   * are what was read, and may be out of date by the time the rows are synced.
   */
  datatype Event =
    | Edit(stored: Stored, counted: nat, septic: Option<bool>, hoa: Option<bool>, extras: seq<DocType>)
    | AddSub(seen: Stored, carriesComp: Option<bool>, exempt: bool, extras: seq<DocType>)
    | RemoveSub
    | Attach(docType: DocType, document: DocumentId)
    | Submit(form: Form)
    | Review(decision: AppStatus, reason: bool, notes: bool)
    | Convert

  predicate MissingRequired(rows: Rows, d: DocType) {
    d in rows && rows[d].required && rows[d].status == Missing
  }

  predicate CanSubmit(rows: Rows, form: Form) {
    Complete(form) && forall d :: d in rows ==> !MissingRequired(rows, d)
  }

  function Attached(rows: Rows, d: DocType, document: DocumentId): Rows {
    rows[d := if d in rows then rows[d].(status := Provided, document := Some(document))
              else Row(true, Provided, Some(document))]
  }

  /** Whether a request goes through rather than being refused. */
  predicate Allowed(a: App, e: Event) {
    match e
    case Edit(_, _, _, _, _) => a.status !in {AppAccepted, Converted, AppRejected, Withdrawn}
    case AddSub(_, carriesComp, exempt, _) => carriesComp != Some(false) || exempt
    case RemoveSub => a.subs > 0
    case Attach(_, _) => true
    case Submit(form) => a.status in {Draft, InfoRequested} && CanSubmit(a.rows, form)
    case Review(decision, reason, notes) =>
      && decision in {AppAccepted, AppRejected, InfoRequested, InReview}
      && (decision == AppRejected ==> reason) && (decision == InfoRequested ==> notes)
      && a.status !in {Converted, Withdrawn}
    case Convert => a.status == AppAccepted
  }

  /** The facts a request syncs with: only an edit carries septic and HOA, and only when its body names them. */
  function SyncFacts(e: Event): Option<Facts> {
    match e
    case Edit(stored, counted, septic, hoa, extras) => Some(FactsOf(stored, counted > 0, septic, hoa, extras))
    case AddSub(seen, _, _, extras) => Some(FactsOf(seen, true, None, None, extras))
    case _ => None
  }

  function Next(a: App, e: Event): App {
    if !Allowed(a, e) then a
    else
      match e
      case Edit(stored, _, _, _, _) => a.(stored := stored, rows := Reconciled(a.rows, SyncFacts(e).value))
      case AddSub(_, _, _, _) => a.(subs := a.subs + 1, rows := Reconciled(a.rows, SyncFacts(e).value))
      case RemoveSub => a.(subs := a.subs - 1)
      case Attach(d, document) => a.(rows := Attached(a.rows, d, document))
      case Submit(_) => a.(status := Submitted)
      case Review(decision, _, _) => a.(status := decision)
      case Convert => a.(status := Converted, permits := a.permits + 1)
  }

  function Created(stored: Stored, septic: Option<bool>, hoa: Option<bool>, extras: seq<DocType>): App {
    App(Draft, stored, 0, Reconciled(map[], FactsOf(stored, false, septic, hoa, extras)), 0)
  }

  class Application {
    var status: AppStatus
    var stored: Stored
    var subs: nat
    var rows: Rows
    var permits: nat

    function Value(): App
      reads this
    {
      App(status, stored, subs, rows, permits)
    }

    constructor (stored: Stored)
      ensures Value() == App(Draft, stored, 0, map[], 0)
    {
      this.status, this.stored, this.subs, this.rows, this.permits := Draft, stored, 0, map[], 0;
    }

    method SyncChecklist(f: Facts)
      modifies this`rows
      ensures rows == Reconciled(old(rows), f)
      ensures InLine(rows, old(rows), f)
    {
      ReconciledIsInLine(rows, f);
      hide InLine;
      var wanted := RequiredDocumentsFor(f);
      for i := 0 to |wanted|
        invariant rows == UpsertedTo(old(rows), wanted, i)
      {
        rows := Upserted(rows, wanted[i]);
      }
      rows := map d | d in rows && (d in wanted || rows[d].status != Missing) :: rows[d];
      SyncedIsReconciled(old(rows), wanted, f);
    }

    /** The rest of the create request: the first checklist. */
    method Start(septic: Option<bool>, hoa: Option<bool>, extras: seq<DocType>)
      requires Value() == App(Draft, stored, 0, map[], 0)
      modifies this
      ensures Value() == Created(old(stored), septic, hoa, extras)
      ensures InLine(rows, map[], FactsOf(stored, false, septic, hoa, extras))
      ensures status == Draft && stored == old(stored) && subs == 0 && permits == 0
    {
      SyncChecklist(FactsOf(stored, false, septic, hoa, extras));
    }

    /** `counted` is the answer to the count of subcontractors. */
    method Edit(changed: Stored, counted: nat, septic: Option<bool>, hoa: Option<bool>, extras: seq<DocType>)
        returns (ok: bool)
      modifies this
      ensures Value() == Next(old(Value()), Event.Edit(changed, counted, septic, hoa, extras))
      ensures ok == Allowed(old(Value()), Event.Edit(changed, counted, septic, hoa, extras))
      ensures ok <==> old(status) in {Draft, Submitted, InReview, InfoRequested}
      ensures !ok ==> Value() == old(Value())
      ensures ok ==> stored == changed
                     && InLine(rows, old(rows), FactsOf(changed, counted > 0, septic, hoa, extras))
      ensures status == old(status) && subs == old(subs) && permits == old(permits)
    {
      hide Reconciled, InLine;
      if status in {AppAccepted, Converted, AppRejected, Withdrawn} {
        return false;
      }
      assert status.Draft? || status.Submitted? || status.InReview? || status.InfoRequested?;
      stored := changed;
      SyncChecklist(FactsOf(stored, counted > 0, septic, hoa, extras));
      return true;
    }

    /** `seen` is the application as the request read it. */
    method AddSubcontractor(seen: Stored, carriesComp: Option<bool>, exempt: bool, extras: seq<DocType>)
        returns (ok: bool)
      modifies this
      ensures Value() == Next(old(Value()), AddSub(seen, carriesComp, exempt, extras))
      ensures ok == Allowed(old(Value()), AddSub(seen, carriesComp, exempt, extras))
      ensures !ok <==> carriesComp == Some(false) && !exempt
      ensures !ok ==> Value() == old(Value())
      ensures ok ==> subs == old(subs) + 1 && InLine(rows, old(rows), FactsOf(seen, true, None, None, extras))
      ensures status == old(status) && stored == old(stored) && permits == old(permits)
    {
      hide Reconciled, InLine;
      if carriesComp == Some(false) && !exempt {
        return false;
      }
      subs := subs + 1;
      SyncChecklist(FactsOf(seen, true, None, None, extras));
      return true;
    }

    method RemoveSubcontractor() returns (ok: bool)
      modifies this
      ensures Value() == Next(old(Value()), RemoveSub) && ok == Allowed(old(Value()), RemoveSub)
      ensures (ok <==> old(subs) > 0) && subs == old(subs) - (if ok then 1 else 0)
      ensures rows == old(rows) && status == old(status) && stored == old(stored) && permits == old(permits)
    {
      if subs == 0 {
        return false;
      }
      subs := subs - 1;
      return true;
    }

    /** The document is provided in its row, whatever the row said before; no other row and nothing else changes. */
    method AttachDocument(d: DocType, document: DocumentId)
      modifies this
      ensures IsProvided(rows, d) && rows[d].status == Provided && rows[d].document == Some(document)
      ensures rows[d].required == (d in old(rows) ==> old(rows)[d].required)
      ensures rows.Keys == old(rows).Keys + {d}
      ensures forall other :: other in old(rows) && other != d ==> rows[other] == old(rows)[other]
      ensures status == old(status) && stored == old(stored) && subs == old(subs) && permits == old(permits)
      ensures Value() == Next(old(Value()), Attach(d, document))
    {
      if d in rows {
        rows := rows[d := rows[d].(status := Provided, document := Some(document))];
      } else {
        rows := rows[d := Row(true, Provided, Some(document))];
      }
    }

    /** loadFull's list of missing required documents. */
    method LoadMissing() returns (missing: seq<DocType>)
      ensures missing == [] <==> forall d :: d in rows ==> !MissingRequired(rows, d)
      ensures forall d :: d in missing ==> MissingRequired(rows, d)
    {
      missing := [];
      var rest := rows.Keys;
      while rest != {}
        invariant rest <= rows.Keys
        invariant forall d :: d in missing ==> MissingRequired(rows, d)
        invariant missing == [] ==> forall d :: d in rows && d !in rest ==> !MissingRequired(rows, d)
        decreases rest
      {
        var d :| d in rest;
        if rows[d].required && rows[d].status == Missing {
          missing := missing + [d];
        }
        rest := rest - {d};
      }
      if missing != [] {
        assert MissingRequired(rows, missing[0]);
      }
    }

    method Submit(form: Form) returns (ok: bool)
      modifies this
      ensures Value() == Next(old(Value()), Event.Submit(form)) && ok == Allowed(old(Value()), Event.Submit(form))
      ensures ok <==> old(status) in {Draft, InfoRequested} && Complete(form)
                      && forall d :: d in rows && rows[d].required ==> rows[d].status != Missing
      ensures status == if ok then Submitted else old(status)
      ensures rows == old(rows) && stored == old(stored) && subs == old(subs) && permits == old(permits)
    {
      if status !in {Draft, InfoRequested} {
        return false;
      }
      var missing := LoadMissing();
      var issues := AssessReadiness(form, missing);
      if !IsSubmittable(issues) {
        return false;
      }
      status := Submitted;
      return true;
    }

    method Review(decision: AppStatus, reason: bool, notes: bool) returns (ok: bool)
      modifies this
      ensures Value() == Next(old(Value()), Event.Review(decision, reason, notes))
      ensures ok == Allowed(old(Value()), Event.Review(decision, reason, notes))
      ensures ok <==> decision in {AppAccepted, AppRejected, InfoRequested, InReview}
                      && (decision == AppRejected ==> reason) && (decision == InfoRequested ==> notes)
                      && old(status) !in {Converted, Withdrawn}
      ensures status == if ok then decision else old(status)
      ensures rows == old(rows) && stored == old(stored) && subs == old(subs) && permits == old(permits)
    {
      if decision !in {AppAccepted, AppRejected, InfoRequested, InReview} {
        return false;
      }
      if decision == AppRejected && !reason {
        return false;
      }
      if decision == InfoRequested && !notes {
        return false;
      }
      if status in {Converted, Withdrawn} {
        return false;
      }
      status := decision;
      return true;
    }

    method Convert() returns (ok: bool)
      modifies this
      ensures Value() == Next(old(Value()), Event.Convert) && ok == Allowed(old(Value()), Event.Convert)
      ensures ok <==> old(status) == AppAccepted
      ensures status == (if ok then Converted else old(status)) && permits == old(permits) + (if ok then 1 else 0)
      ensures rows == old(rows) && stored == old(stored) && subs == old(subs)
    {
      if status == Converted {
        return false;
      }
      if status != AppAccepted {
        return false;
      }
      permits := permits + 1;
      status := Converted;
      return true;
    }
  }

  // ---- runs ----

  /** The application, and the facts of the last sync. */
  datatype World = World(app: App, facts: Facts)

  function NextWorld(w: World, e: Event): World {
    World(Next(w.app, e), if Allowed(w.app, e) && SyncFacts(e).Some? then SyncFacts(e).value else w.facts)
  }

  /** tr[0] is a fresh application, synced once. */
  ghost predicate Trace(evs: seq<Event>, tr: seq<World>) {
    && |tr| == |evs| + 1
    && tr[0].facts == FactsOf(tr[0].app.stored, false, tr[0].facts.hasSeptic, tr[0].facts.hasHoa, tr[0].facts.extras)
    && tr[0].app == App(Draft, tr[0].app.stored, 0, Reconciled(map[], tr[0].facts), 0)
    && forall i :: 0 <= i < |evs| ==> tr[i + 1] == NextWorld(tr[i], evs[i])
  }

  /** Missing rows are what the last sync demanded minus what is provided by now; every missing row is required. */
  ghost predicate Exact(w: World) {
    forall d ::
      && (IsMissing(w.app.rows, d) <==> Demanded(w.facts, d) && !IsProvided(w.app.rows, d))
      && (IsMissing(w.app.rows, d) ==> w.app.rows[d].required)
  }

  lemma ReconciledIsExact(rows: Rows, f: Facts, a: App)
    requires a.rows == Reconciled(rows, f)
    ensures Exact(World(a, f))
  {
    hide Demanded;
  }

  lemma StepKeepsExact(w: World, e: Event)
    requires Exact(w)
    ensures Exact(NextWorld(w, e))
  {
    hide Demanded;
    if Allowed(w.app, e) && SyncFacts(e).Some? {
      ReconciledIsExact(w.app.rows, SyncFacts(e).value, Next(w.app, e));
    }
  }

  /**
   * In any run of requests the missing rows are exactly the documents demanded at the last sync and not yet provided.
   */
  lemma {:induction false} ChecklistIsExact(evs: seq<Event>, tr: seq<World>, k: nat)
    requires Trace(evs, tr) && k < |tr|
    ensures Exact(tr[k])
  {
    hide Exact;
    if k == 0 {
      ReconciledIsExact(map[], tr[0].facts, tr[0].app);
    } else {
      ChecklistIsExact(evs, tr, k - 1);
      StepKeepsExact(tr[k - 1], evs[k - 1]);
    }
  }

  // ---- the current facts ----

  /** The facts as they are now; what is not stored, as the last sync had it. */
  function Current(w: World): Facts {
    FactsOf(w.app.stored, w.app.subs > 0, w.facts.hasSeptic, w.facts.hasHoa, w.facts.extras)
  }

  /** A checklist synced with one set of facts suits another exactly when both demand the same of what is unprovided. */
  lemma ExactForIff(w: World, f: Facts)
    requires Exact(w)
    ensures Exact(World(w.app, f)) <==>
              forall d :: !IsProvided(w.app.rows, d) ==> (Demanded(f, d) <==> Demanded(w.facts, d))
  {
    hide Demanded;
    forall d | !IsProvided(w.app.rows, d)
      ensures Demanded(w.facts, d) <==> IsMissing(w.app.rows, d)
    {
    }
  }

  /** Having subcontractors or not matters to the affidavit alone. */
  lemma SubcontractorsMatter(f: Facts, some: bool, d: DocType)
    ensures Demanded(f.(hasSubcontractors := some), d) <==>
              if d == SubcontractorAffidavit then some || Trade(f.permitType) || d in f.extras else Demanded(f, d)
  {
    hide InFloodZone, WindBorne, Structural, Trade;
  }

  /** For facts that differ in having subcontractors at most. */
  lemma ExactWithIff(w: World, some: bool)
    requires Exact(w)
    ensures Exact(World(w.app, w.facts.(hasSubcontractors := some))) <==>
              (|| some == w.facts.hasSubcontractors || Trade(w.facts.permitType)
               || SubcontractorAffidavit in w.facts.extras || IsProvided(w.app.rows, SubcontractorAffidavit))
  {
    hide Demanded, Trade, Exact;
    var f := w.facts.(hasSubcontractors := some);
    ExactForIff(w, f);
    forall d ensures Demanded(f, d) <==>
      if d == SubcontractorAffidavit then some || Trade(w.facts.permitType) || d in w.facts.extras
      else Demanded(w.facts, d)
    {
      SubcontractorsMatter(w.facts, some, d);
    }
    SubcontractorsMatter(w.facts, w.facts.hasSubcontractors, SubcontractorAffidavit);
    assert w.facts.(hasSubcontractors := w.facts.hasSubcontractors) == w.facts;
  }

  /** Removing a subcontractor leaves the checklist right exactly if another is left or the affidavit stands anyway. */
  lemma RemovalKeepsExactIff(w: World)
    requires Exact(w) && w.app.subs > 0 && w.facts.hasSubcontractors
    ensures var w' := NextWorld(w, RemoveSub);
            Exact(World(w'.app, w.facts.(hasSubcontractors := w'.app.subs > 0))) <==>
              (|| w.app.subs > 1 || Trade(w.facts.permitType) || SubcontractorAffidavit in w.facts.extras
               || IsProvided(w.app.rows, SubcontractorAffidavit))
  {
    hide Exact, Trade;
    var w' := NextWorld(w, RemoveSub);
    StepKeepsExact(w, RemoveSub);
    ExactWithIff(w', w'.app.subs > 0);
  }

  /** The request read what was there when it synced. */
  predicate FreshRead(a: App, e: Event) {
    match e
    case Edit(_, counted, _, _, _) => counted == a.subs
    case AddSub(seen, _, _, _) => seen == a.stored
    case _ => true
  }

  ghost predicate FreshReads(evs: seq<Event>, tr: seq<World>, k: nat)
    requires k <= |evs| <= |tr|
  {
    forall i :: 0 <= i < k ==> FreshRead(tr[i].app, evs[i])
  }

  /** The facts of the last sync are the current ones, but perhaps for having subcontractors. */
  ghost predicate InStep(w: World) {
    && w.facts == Current(w).(hasSubcontractors := w.facts.hasSubcontractors)
    && (w.app.subs > 0 ==> w.facts.hasSubcontractors)
  }

  lemma FreshStep(w: World, e: Event)
    requires InStep(w) && FreshRead(w.app, e)
    ensures InStep(NextWorld(w, e))
  {
    hide Reconciled, Attached, CanSubmit;
  }

  lemma {:induction false} FactsAreCurrent(evs: seq<Event>, tr: seq<World>, k: nat)
    requires Trace(evs, tr) && k < |tr| && FreshReads(evs, tr, k)
    ensures InStep(tr[k])
  {
    hide Reconciled, FreshRead, NextWorld;
    if k > 0 {
      hide InStep;
      FactsAreCurrent(evs, tr, k - 1);
      FreshStep(tr[k - 1], evs[k - 1]);
    }
  }

  /**
   * With fresh reads, the missing rows are what the current facts demand and nobody provided exactly when the last
   * subcontractor was not removed since the last sync, or the affidavit is demanded anyway or provided.
   */
  lemma CurrentlyExactIff(evs: seq<Event>, tr: seq<World>, k: nat)
    requires Trace(evs, tr) && k < |tr| && FreshReads(evs, tr, k)
    ensures Exact(World(tr[k].app, Current(tr[k]))) <==>
              (|| tr[k].app.subs > 0 || !tr[k].facts.hasSubcontractors || Trade(tr[k].app.stored.permitType)
               || SubcontractorAffidavit in tr[k].facts.extras || IsProvided(tr[k].app.rows, SubcontractorAffidavit))
  {
    hide Exact, Trade, Trace;
    ChecklistIsExact(evs, tr, k);
    FactsAreCurrent(evs, tr, k);
    var w := tr[k];
    ExactWithIff(w, w.app.subs > 0);
    assert w.facts.(hasSubcontractors := w.app.subs > 0) == Current(w);
  }

  /**
   * Whatever a request read, its sync suits the current facts exactly when they demand the same of what is
   * unprovided.
   */
  lemma SyncIsCurrentIff(w: World, e: Event)
    requires Exact(w) && Allowed(w.app, e) && SyncFacts(e).Some?
    ensures var w' := NextWorld(w, e);
            Exact(World(w'.app, Current(w'))) <==>
              forall d :: !IsProvided(w.app.rows, d) ==> (Demanded(Current(w'), d) <==> Demanded(SyncFacts(e).value, d))
  {
    hide Exact, Demanded;
    var w' := NextWorld(w, e);
    StepKeepsExact(w, e);
    ExactForIff(w', Current(w'));
    forall d | !IsProvided(w.app.rows, d) ensures IsProvided(w'.app.rows, d) == IsProvided(w.app.rows, d) {
    }
    forall d | IsProvided(w.app.rows, d) ensures IsProvided(w'.app.rows, d) {
    }
  }

  lemma SurveyDemanded(f: Facts)
    requires f.extras == []
    ensures Demanded(f, AsbestosSurvey) <==> f.permitType == Demolition
  {
  }

  /**
   * A subcontractor is added by a request that read the application before an edit that makes it a demolition: the
   * asbestos survey the edit put on the checklist is gone, though the application demands it.
   */
  lemma StaleReadDropsRow(stored: Stored) returns (evs: seq<Event>, tr: seq<World>)
    requires stored.permitType != Demolition
    ensures Trace(evs, tr) && |evs| == 2 && evs[0].Edit? && evs[1].AddSub? && evs[1].seen == tr[0].app.stored == stored
    ensures IsMissing(tr[1].app.rows, AsbestosSurvey)
    ensures AsbestosSurvey !in tr[2].app.rows && Demanded(Current(tr[2]), AsbestosSurvey)
  {
    var edit := Edit(stored.(permitType := Demolition), 0, None, None, []);
    var add := AddSub(stored, Some(true), false, []);
    var w0 := World(Created(stored, None, None, []), FactsOf(stored, false, None, None, []));
    var w1 := NextWorld(w0, edit);
    var w2 := NextWorld(w1, add);
    evs, tr := [edit, add], [w0, w1, w2];
    hide InFloodZone, WindBorne, Structural, Trade, DrawingDemanded;
    SurveyDemanded(SyncFacts(edit).value);
    SurveyDemanded(SyncFacts(add).value);
    SurveyDemanded(Current(w2));
    hide Demanded;
  }

  // ---- what was provided ----

  lemma StepKeepsProvided(a: App, e: Event, d: DocType)
    requires IsProvided(a.rows, d)
    ensures IsProvided(Next(a, e).rows, d)
    ensures !(e.Attach? && e.docType == d) ==>
              Next(a, e).rows[d].status == a.rows[d].status && Next(a, e).rows[d].document == a.rows[d].document
  {
    hide Demanded;
  }

  /** What has been provided is never lost, whatever is edited, added or removed afterwards. */
  lemma {:induction false} ProvidedIsNeverLost(evs: seq<Event>, tr: seq<World>, i: nat, k: nat, d: DocType)
    requires Trace(evs, tr) && i <= k < |tr| && IsProvided(tr[i].app.rows, d)
    ensures IsProvided(tr[k].app.rows, d)
    ensures (forall n :: i <= n < k ==> !(evs[n].Attach? && evs[n].docType == d)) ==>
              && tr[k].app.rows[d].status == tr[i].app.rows[d].status
              && tr[k].app.rows[d].document == tr[i].app.rows[d].document
    decreases k
  {
    if i < k {
      ProvidedIsNeverLost(evs, tr, i, k - 1, d);
      StepKeepsProvided(tr[k - 1].app, evs[k - 1], d);
    }
  }

  /**
   * A submission goes through exactly when the form is complete and everything demanded at the last sync is provided.
   */
  lemma SubmitsIff(evs: seq<Event>, tr: seq<World>, k: nat, form: Form)
    requires Trace(evs, tr) && k < |tr|
    ensures Allowed(tr[k].app, Submit(form)) <==>
              (&& tr[k].app.status in {Draft, InfoRequested} && Complete(form)
               && forall d :: Demanded(tr[k].facts, d) ==> IsProvided(tr[k].app.rows, d))
  {
    hide Demanded, Complete;
    ChecklistIsExact(evs, tr, k);
    var w := tr[k];
    assert (forall d :: d in w.app.rows ==> !MissingRequired(w.app.rows, d))
      <==> (forall d :: Demanded(w.facts, d) ==> IsProvided(w.app.rows, d)) by {
      assert forall d :: IsMissing(w.app.rows, d) <==> MissingRequired(w.app.rows, d);
    }
  }

  /** An application makes at most one permit: one exactly once it is converted, which it then stays. */
  lemma {:induction false} AtMostOnePermit(evs: seq<Event>, tr: seq<World>, i: nat, k: nat)
    requires Trace(evs, tr) && i <= k < |tr|
    ensures tr[k].app.permits == if tr[k].app.status == Converted then 1 else 0
    ensures tr[i].app.status == Converted ==> tr[k].app.status == Converted
    decreases k
  {
    if k > 0 {
      AtMostOnePermit(evs, tr, if i < k then i else k - 1, k - 1);
    }
  }

  // ---- what a permit needs ----

  /** The last request before event k that changed the status was a review that accepted. */
  ghost predicate AcceptedLast(evs: seq<Event>, tr: seq<World>, k: nat)
    requires k <= |evs| < |tr|
  {
    exists i :: 0 <= i < k && evs[i].Review? && evs[i].decision == AppAccepted
                && forall n :: i < n <= k ==> tr[n].app.status == AppAccepted
  }

  lemma {:induction false} AcceptedByReview(evs: seq<Event>, tr: seq<World>, k: nat)
    requires Trace(evs, tr) && k < |tr|
    ensures tr[k].app.status == AppAccepted ==> AcceptedLast(evs, tr, k)
  {
    hide Reconciled, Attached, CanSubmit, SyncFacts;
    if k > 0 {
      AcceptedByReview(evs, tr, k - 1);
      assert tr[k] == NextWorld(tr[k - 1], evs[k - 1]);
      if tr[k].app.status == AppAccepted {
        if tr[k - 1].app.status == AppAccepted {
          var i :| 0 <= i < k - 1 && evs[i].Review? && evs[i].decision == AppAccepted
                   && forall n :: i < n <= k - 1 ==> tr[n].app.status == AppAccepted;
          assert forall n :: i < n <= k ==> tr[n].app.status == AppAccepted;
        } else {
          assert evs[k - 1].Review? && evs[k - 1].decision == AppAccepted;
          assert forall n :: k - 1 < n <= k ==> tr[n].app.status == AppAccepted;
        }
      }
    }
  }

  /** Over any run a request makes a permit exactly if it is a conversion and the last word before it was yes. */
  lemma MakesPermitIff(evs: seq<Event>, tr: seq<World>, k: nat)
    requires Trace(evs, tr) && k < |evs|
    ensures tr[k + 1].app.permits == tr[k].app.permits + 1 <==> evs[k].Convert? && AcceptedLast(evs, tr, k)
    ensures tr[k + 1].app.permits != tr[k].app.permits ==> tr[k + 1].app.permits == tr[k].app.permits + 1
  {
    hide Reconciled, Attached, CanSubmit, SyncFacts;
    AcceptedByReview(evs, tr, k);
    assert tr[k + 1] == NextWorld(tr[k], evs[k]);
  }

  /** A submission is not needed: a draft can be accepted and converted while all its documents are missing. */
  lemma AcceptedUnsubmitted(stored: Stored) returns (evs: seq<Event>, tr: seq<World>)
    ensures Trace(evs, tr) && evs == [Review(AppAccepted, false, false), Convert]
    ensures tr[0].app.stored == stored && tr[2].app.permits == 1
    ensures forall d :: Demanded(tr[2].facts, d) ==> MissingRequired(tr[2].app.rows, d)
  {
    hide Demanded;
    var facts := FactsOf(stored, false, None, None, []);
    var w0 := World(Created(stored, None, None, []), facts);
    var w1 := NextWorld(w0, Review(AppAccepted, false, false));
    evs, tr := [Review(AppAccepted, false, false), Convert], [w0, w1, NextWorld(w1, Convert)];
  }

  // ---- facts that are not stored ----

  /**
   * Septic and HOA answers live only in the request that carries them. After the next request that syncs, the
   * row is still there exactly if that request says so again, the jurisdiction asks, or it was provided.
   */
  lemma SepticRowStaysIff(a: App, e: Event)
    requires Allowed(a, e) && SyncFacts(e).Some?
    ensures SepticApproval in Next(a, e).rows
       <==> SepticApproval in e.extras || (e.Edit? && e.septic == Some(true)) || IsProvided(a.rows, SepticApproval)
    ensures HoaApproval in Next(a, e).rows
       <==> HoaApproval in e.extras || (e.Edit? && e.hoa == Some(true)) || IsProvided(a.rows, HoaApproval)
  {
  }

  /**
   * An application created with a septic system: naming a subcontractor takes the septic approval off its checklist.
   */
  lemma SepticForgotten(stored: Stored)
    ensures var a := Created(stored, Some(true), None, []);
            && IsMissing(a.rows, SepticApproval)
            && SepticApproval !in Next(a, AddSub(stored, Some(true), false, [])).rows
  {
  }

  /** Removing the last subcontractor syncs nothing: the affidavit stays missing until some edit drops it. */
  lemma AffidavitLingers(a: App, e: Event)
    requires a.subs == 1 && IsMissing(a.rows, SubcontractorAffidavit) && e.Edit? && e.counted == 0 && Allowed(a, e)
    requires !Trade(e.stored.permitType) && SubcontractorAffidavit !in e.extras
    ensures IsMissing(Next(a, RemoveSub).rows, SubcontractorAffidavit)
    ensures SubcontractorAffidavit !in Next(Next(a, RemoveSub), e).rows
  {
    hide DrawingDemanded;
    NotADrawing(SyncFacts(e).value);
  }

  lemma NotADrawing(f: Facts)
    ensures !DrawingDemanded(f, SubcontractorAffidavit)
  {
  }
}

/** The filing gate of src/shared/compliance.ts. */
module Compliance {
  import opened Prelude
  import opened Calendar

  datatype Kind =
    | GeneralLiability | WorkersComp | WorkersCompExemption | AutoLiability | ExcessUmbrella | ProfessionalLiability
    | StateLicense | LocalRegistration | BusinessTaxReceipt | W9 | CertOfInsurance | Bond

  datatype Status = Missing | PendingReview | Valid | ExpiringSoon | Expired | Rejected | Waived

  /** `expiresAt` None also stands for an empty text. */
  datatype Item = Item(id: nat, kind: Kind, limit: Option<int>, expiresAt: Option<Stamp>, status: Status)

  datatype Spec = Spec(kind: Kind, required: bool, minLimit: Option<int>, blocksFiling: bool)

  datatype Gap = Gap(kind: Kind, status: Status, blocksFiling: bool, days: Option<int>)

  datatype Expiry = Expiry(kind: Kind, days: int)

  datatype Verdict = Verdict(clearedToFile: bool, gaps: seq<Gap>, completeness: int, nextExpiry: Option<Expiry>)

  const EXPIRING_SOON_DAYS := 30

  // ---- one item ----

  function DaysLeft(item: Item, now: int, florida: Clock): Option<int> {
    if item.expiresAt == None then None else DaysBetween(Some(Instant(now)), item.expiresAt, florida)
  }

  function StatusOf(item: Item, now: int, florida: Clock): Status {
    if item.status in {Rejected, Waived, PendingReview} then item.status
    else if item.status == Missing then Missing
    else if item.kind == W9 || item.expiresAt == None then Valid
    else
      match DaysLeft(item, now, florida)
      case None => Valid
      case Some(days) => if days < 0 then Expired else if days <= EXPIRING_SOON_DAYS then ExpiringSoon else Valid
  }

  predicate Current(item: Item, now: int, florida: Clock) {
    StatusOf(item, now, florida) in {Valid, ExpiringSoon}
  }

  /** Nobody has decided against the item, and the Florida calendar has not gone past its day, if it has one. */
  lemma CurrentIff(item: Item, now: int, florida: Clock)
    ensures Current(item, now, florida) <==>
              (&& item.status in {Valid, ExpiringSoon, Expired}
               && (item.kind == W9 || !IsPast(item.expiresAt, now, florida)))
  {
  }

  /** `Date.parse(expiresAt ?? '') || 0` */
  function Parsed(item: Item): int {
    match item.expiresAt
    case Some(Bare(date)) => DayNumber(date) * DAY_MS
    case Some(Instant(ms)) => ms
    case _ => 0
  }

  /** A later day is a later expiry; an undated or unreadable copy expires like one dated to the epoch. */
  lemma LaterDay(a: Item, b: Item)
    requires a.expiresAt.Some? && a.expiresAt.value.Bare?
    ensures b.expiresAt.Some? && b.expiresAt.value.Bare? ==>
              (Parsed(a) < Parsed(b) <==> Earlier(a.expiresAt.value.date, b.expiresAt.value.date))
    ensures b.expiresAt == None || b.expiresAt.value == Garbage ==>
              (Parsed(a) < Parsed(b) <==> Earlier(a.expiresAt.value.date, Civil(1970, 1, 1)))
    ensures forall ms :: b.expiresAt == Some(Instant(ms)) ==>
              (Parsed(a) <= Parsed(b) <==> DayNumber(a.expiresAt.value.date) <= ms / 86_400_000)
  {
    var d := a.expiresAt.value.date;
    EarlierIff(d, Civil(1970, 1, 1));
    DaysBefore(1970, 1);
    if b.expiresAt.Some? && b.expiresAt.value.Bare? {
      EarlierIff(d, b.expiresAt.value.date);
    }
    hide DayNumber;
  }

  // ---- the copy that counts ----

  /** Of the first n items, the copy of a kind kept: the latest-expiring, the first of equals. */
  function Latest(items: seq<Item>, n: nat, kind: Kind): Option<Item>
    requires n <= |items|
  {
    if n == 0 then None
    else
      var best, it := Latest(items, n - 1, kind), items[n - 1];
      if it.kind != kind then best
      else if best == None || Parsed(it) > Parsed(best.value) then Some(it) else best
  }

  function Kept(items: seq<Item>, kind: Kind): Option<Item> {
    Latest(items, |items|, kind)
  }

  /** Among the first n items, i is the latest-expiring of its kind, and the first of equals. */
  ghost predicate IsLatest(items: seq<Item>, n: nat, kind: Kind, i: int)
    requires n <= |items|
  {
    && 0 <= i < n && items[i].kind == kind
    && (forall j :: 0 <= j < n && items[j].kind == kind ==> Parsed(items[j]) <= Parsed(items[i]))
    && (forall j :: 0 <= j < i && items[j].kind == kind ==> Parsed(items[j]) < Parsed(items[i]))
  }

  lemma {:induction false} LatestAt(items: seq<Item>, n: nat, kind: Kind) returns (i: nat)
    requires n <= |items| && Latest(items, n, kind).Some?
    ensures IsLatest(items, n, kind, i) && items[i] == Latest(items, n, kind).value
  {
    hide Parsed, IsLatest;
    var it := items[n - 1];
    if it.kind == kind && Latest(items, n - 1, kind) == None {
      NoneOfKind(items, n - 1, kind);
      i := n - 1;
      FirstIsLatest(items, n, kind);
    } else {
      i := LatestAt(items, n - 1, kind);
      NextIsLatest(items, n, kind, i);
      if it.kind == kind && Parsed(it) > Parsed(items[i]) {
        i := n - 1;
      }
    }
  }

  lemma FirstIsLatest(items: seq<Item>, n: nat, kind: Kind)
    requires 0 < n <= |items| && items[n - 1].kind == kind && forall i :: 0 <= i < n - 1 ==> items[i].kind != kind
    ensures IsLatest(items, n, kind, n - 1)
  {
    hide Parsed;
  }

  lemma NextIsLatest(items: seq<Item>, n: nat, kind: Kind, i: nat)
    requires 0 < n <= |items| && IsLatest(items, n - 1, kind, i)
    ensures i < n - 1 && items[i].kind == kind
    ensures if items[n - 1].kind == kind && Parsed(items[n - 1]) > Parsed(items[i])
            then IsLatest(items, n, kind, n - 1) else IsLatest(items, n, kind, i)
  {
    hide Parsed;
  }

  lemma {:induction false} NoneOfKind(items: seq<Item>, n: nat, kind: Kind)
    requires n <= |items|
    ensures Latest(items, n, kind) == None <==> forall i :: 0 <= i < n ==> items[i].kind != kind
  {
    if n > 0 {
      NoneOfKind(items, n - 1, kind);
    }
  }

  function Exempt(items: seq<Item>, now: int, florida: Clock): bool {
    var ex := Kept(items, WorkersCompExemption);
    ex.Some? && Current(ex.value, now, florida)
  }

  predicate LimitShort(spec: Spec, item: Option<Item>) {
    spec.minLimit.Some? && item.Some? && item.value.limit.Some? && item.value.limit.value < spec.minLimit.value
  }

  /** A requirement is met: by a current exemption in place of workers' comp, or by a current copy with enough cover. */
  predicate Met(items: seq<Item>, spec: Spec, now: int, florida: Clock) {
    var item := Kept(items, spec.kind);
    || (spec.kind == WorkersComp && Exempt(items, now, florida))
    || (item.Some? && Current(item.value, now, florida) && !LimitShort(spec, item))
  }

  // ---- what the assessment says ----

  /** What is reported about one required kind; None is nothing. */
  function Report(items: seq<Item>, spec: Spec, now: int, florida: Clock): Option<Gap> {
    var item := Kept(items, spec.kind);
    if spec.kind == WorkersComp && Exempt(items, now, florida) then None
    else
      var status := if item.Some? then StatusOf(item.value, now, florida) else Missing;
      var days := if item.Some? then DaysLeft(item.value, now, florida) else None;
      var short := LimitShort(spec, item);
      if status == Valid && !short then None
      else if status == ExpiringSoon && !short then Some(Gap(spec.kind, ExpiringSoon, false, days))
      else Some(Gap(spec.kind, if short && status == Valid then Rejected else status, spec.blocksFiling, days))
  }

  function Reports(items: seq<Item>, policy: seq<Spec>, n: nat, now: int, florida: Clock): seq<Gap>
    requires n <= |policy|
  {
    if n == 0 then []
    else
      var report := if policy[n - 1].required then Report(items, policy[n - 1], now, florida) else None;
      Reports(items, policy, n - 1, now, florida) + if report.Some? then [report.value] else []
  }

  function Required(policy: seq<Spec>, n: nat): nat
    requires n <= |policy|
  {
    if n == 0 then 0 else Required(policy, n - 1) + if policy[n - 1].required then 1 else 0
  }

  function MetCount(items: seq<Item>, policy: seq<Spec>, n: nat, now: int, florida: Clock): nat
    requires n <= |policy|
  {
    if n == 0 then 0
    else MetCount(items, policy, n - 1, now, florida)
         + if policy[n - 1].required && Met(items, policy[n - 1], now, florida) then 1 else 0
  }

  /** Optional kinds on file and current. */
  function ExtraCount(items: seq<Item>, policy: seq<Spec>, n: nat, now: int, florida: Clock): nat
    requires n <= |policy|
  {
    if n == 0 then 0
    else
      var item := Kept(items, policy[n - 1].kind);
      ExtraCount(items, policy, n - 1, now, florida)
      + if !policy[n - 1].required && item.Some? && Current(item.value, now, florida) then 1 else 0
  }

  /** `Math.round(score / denom * 100)`, an optional kind counting half; an empty policy reads as complete. */
  function Meter(met: nat, required: nat, score: real, optional: int): int {
    var denom := required as real + optional as real * 0.5;
    if denom > 0.0 then ((met as real + score) / denom * 100.0 + 0.5).Floor else 100
  }

  function Completeness(items: seq<Item>, policy: seq<Spec>, now: int, florida: Clock): int {
    Meter(MetCount(items, policy, |policy|, now, florida), Required(policy, |policy|),
          ExtraCount(items, policy, |policy|, now, florida) as real * 0.5, |policy| - Required(policy, |policy|))
  }

  /** A kept copy with a readable day that is not past. */
  predicate Upcoming(items: seq<Item>, kind: Kind, days: int, now: int, florida: Clock) {
    var item := Kept(items, kind);
    && item.Some? && item.value.expiresAt.Some? && kind != W9
    && DaysLeft(item.value, now, florida) == Some(days) && 0 <= days
  }

  ghost predicate Soonest(items: seq<Item>, next: Option<Expiry>, now: int, florida: Clock) {
    match next
    case None => forall kind, days :: !Upcoming(items, kind, days, now, florida)
    case Some(e) =>
      && Upcoming(items, e.kind, e.days, now, florida)
      && forall kind, days :: Upcoming(items, kind, days, now, florida) ==> e.days <= days
  }

  function OnFile(byKind: map<Kind, Item>, kind: Kind): Option<Item> {
    if kind in byKind then Some(byKind[kind]) else None
  }

  /** byKind maps each kind seen to the copy kept; `order` lists the kinds as they were first seen. */
  ghost predicate Sorted(items: seq<Item>, n: nat, byKind: map<Kind, Item>, order: seq<Kind>)
    requires n <= |items|
  {
    && (forall kind :: OnFile(byKind, kind) == Latest(items, n, kind))
    && (forall kind :: kind in order <==> kind in byKind)
  }

  method KeepLatest(items: seq<Item>) returns (byKind: map<Kind, Item>, order: seq<Kind>)
    ensures Sorted(items, |items|, byKind, order)
  {
    byKind, order := map[], [];
    for i := 0 to |items|
      invariant Sorted(items, i, byKind, order)
    {
      var it := items[i];
      if it.kind !in byKind {
        byKind := byKind[it.kind := it];
        order := order + [it.kind];
      } else if Parsed(it) > Parsed(byKind[it.kind]) {
        byKind := byKind[it.kind := it];
      }
    }
  }

  method AssessRequired(items: seq<Item>, policy: seq<Spec>, byKind: map<Kind, Item>, order: seq<Kind>, now: int,
      florida: Clock)
      returns (gaps: seq<Gap>, satisfied: nat, requiredCount: nat)
    requires Sorted(items, |items|, byKind, order)
    ensures gaps == Reports(items, policy, |policy|, now, florida)
    ensures satisfied == MetCount(items, policy, |policy|, now, florida) && requiredCount == Required(policy, |policy|)
  {
    hide Latest, StatusOf, DaysLeft, LimitShort;
    assert OnFile(byKind, WorkersCompExemption) == Kept(items, WorkersCompExemption);
    var ex := OnFile(byKind, WorkersCompExemption);
    var hasValidExemption := ex.Some? && Current(ex.value, now, florida);
    gaps, satisfied, requiredCount := [], 0, 0;
    for i := 0 to |policy|
      invariant gaps == Reports(items, policy, i, now, florida)
      invariant satisfied == MetCount(items, policy, i, now, florida) && requiredCount == Required(policy, i)
    {
      var spec := policy[i];
      if !spec.required {
        continue;
      }
      requiredCount := requiredCount + 1;
      if spec.kind == WorkersComp && hasValidExemption {
        satisfied := satisfied + 1;
        continue;
      }
      assert OnFile(byKind, spec.kind) == Kept(items, spec.kind);
      var item := OnFile(byKind, spec.kind);
      var status := if item.Some? then StatusOf(item.value, now, florida) else Missing;
      var days := if item.Some? then DaysLeft(item.value, now, florida) else None;
      var limitShort := LimitShort(spec, item);
      if status == Valid && !limitShort {
        satisfied := satisfied + 1;
        continue;
      }
      if status == ExpiringSoon && !limitShort {
        satisfied := satisfied + 1;
        gaps := gaps + [Gap(spec.kind, status, false, days)];
        continue;
      }
      var shown := if limitShort && status == Valid then Rejected else status;
      gaps := gaps + [Gap(spec.kind, shown, spec.blocksFiling, days)];
    }
  }

  method OptionalScore(items: seq<Item>, policy: seq<Spec>, byKind: map<Kind, Item>, order: seq<Kind>, now: int,
      florida: Clock)
      returns (score: real)
    requires Sorted(items, |items|, byKind, order)
    ensures score == ExtraCount(items, policy, |policy|, now, florida) as real * 0.5
  {
    hide Latest;
    score := 0.0;
    for i := 0 to |policy|
      invariant score == ExtraCount(items, policy, i, now, florida) as real * 0.5
    {
      if !policy[i].required {
        assert OnFile(byKind, policy[i].kind) == Kept(items, policy[i].kind);
        var item := OnFile(byKind, policy[i].kind);
        if item.Some? && Current(item.value, now, florida) {
          score := score + 0.5;
        }
      }
    }
  }

  method NextExpiry(items: seq<Item>, byKind: map<Kind, Item>, order: seq<Kind>, now: int, florida: Clock)
      returns (next: Option<Expiry>)
    requires Sorted(items, |items|, byKind, order)
    ensures Soonest(items, next, now, florida)
  {
    hide Latest, DaysLeft;
    next := None;
    for i := 0 to |order|
      invariant next == None ==> forall k, days :: 0 <= k < i ==> !Upcoming(items, order[k], days, now, florida)
      invariant next.Some? ==>
                  && Upcoming(items, next.value.kind, next.value.days, now, florida)
                  && forall k, days :: 0 <= k < i && Upcoming(items, order[k], days, now, florida) ==>
                       next.value.days <= days
    {
      var kind := order[i];
      assert kind in order && OnFile(byKind, kind) == Kept(items, kind);
      var it := byKind[kind];
      if it.expiresAt == None || kind == W9 {
        continue;
      }
      var d := DaysLeft(it, now, florida);
      if d == None || d.value < 0 {
        continue;
      }
      if next == None || d.value < next.value.days {
        next := Some(Expiry(kind, d.value));
      }
    }
    forall kind, days | Upcoming(items, kind, days, now, florida) ensures kind in order {
      assert OnFile(byKind, kind) == Kept(items, kind);
    }
  }

  method AssessCompliance(items: seq<Item>, policy: seq<Spec>, now: int, florida: Clock) returns (v: Verdict)
    ensures v.gaps == Reports(items, policy, |policy|, now, florida)
    ensures InOrder(v.gaps, items, policy, |policy|, now, florida)
    ensures v.clearedToFile <==> Cleared(items, policy, now, florida)
    ensures v.completeness == Min(100, Completeness(items, policy, now, florida))
    ensures Soonest(items, v.nextExpiry, now, florida)
  {
    hide Sorted, Reports, Soonest, Meter, InOrder;
    ReportsInOrder(items, policy, |policy|, now, florida);
    var byKind, order := KeepLatest(items);
    var gaps, satisfied, requiredCount := AssessRequired(items, policy, byKind, order, now, florida);
    var score := OptionalScore(items, policy, byKind, order, now, florida);
    var next := NextExpiry(items, byKind, order, now, florida);
    ClearedIffNoBlockingGap(items, policy, now, florida);
    v := Verdict(forall g :: g in gaps ==> !g.blocksFiling, gaps,
                 Min(100, Meter(satisfied, requiredCount, score, |policy| - requiredCount)), next);
  }

  // ---- what it means ----

  /** Every required blocking kind of the policy is met. */
  ghost predicate Cleared(items: seq<Item>, policy: seq<Spec>, now: int, florida: Clock) {
    forall i :: 0 <= i < |policy| && policy[i].required && policy[i].blocksFiling ==>
      Met(items, policy[i], now, florida)
  }

  lemma BlocksIff(items: seq<Item>, spec: Spec, now: int, florida: Clock)
    ensures var report := Report(items, spec, now, florida);
            (report.Some? && report.value.blocksFiling) <==> spec.blocksFiling && !Met(items, spec, now, florida)
  {
    hide Latest, DaysLeft;
  }

  lemma {:induction false} ReportsBlockIff(items: seq<Item>, policy: seq<Spec>, n: nat, now: int, florida: Clock)
    requires n <= |policy|
    ensures (exists g :: g in Reports(items, policy, n, now, florida) && g.blocksFiling)
       <==> (exists i :: 0 <= i < n && policy[i].required && policy[i].blocksFiling
                         && !Met(items, policy[i], now, florida))
  {
    hide Met, Report;
    if n > 0 {
      ReportsBlockIff(items, policy, n - 1, now, florida);
      BlocksIff(items, policy[n - 1], now, florida);
      var before, report := Reports(items, policy, n - 1, now, florida), Report(items, policy[n - 1], now, florida);
      if policy[n - 1].required && report.Some? {
        assert forall g :: g in Reports(items, policy, n, now, florida) <==> g in before || g == report.value;
      } else {
        assert Reports(items, policy, n, now, florida) == before;
      }
    }
  }

  /** No blocking gap is reported exactly when every required blocking kind is met. */
  lemma ClearedIffNoBlockingGap(items: seq<Item>, policy: seq<Spec>, now: int, florida: Clock)
    ensures (forall g :: g in Reports(items, policy, |policy|, now, florida) ==> !g.blocksFiling)
       <==> Cleared(items, policy, now, florida)
  {
    hide Met, Reports;
    ReportsBlockIff(items, policy, |policy|, now, florida);
  }

  /**
   * The latest-expiring copy of a kind, the first of equals, is accepted, not past, and not known to cover too
   * little.
   */
  ghost predicate Good(items: seq<Item>, kind: Kind, minLimit: Option<int>, now: int, florida: Clock) {
    exists i :: IsLatest(items, |items|, kind, i) && Serves(items[i], minLimit, now, florida)
  }

  predicate Serves(item: Item, minLimit: Option<int>, now: int, florida: Clock) {
    && item.status in {Valid, ExpiringSoon, Expired}
    && (item.kind == W9 || !IsPast(item.expiresAt, now, florida))
    && (minLimit.Some? && item.limit.Some? ==> minLimit.value <= item.limit.value)
  }

  lemma GoodIff(items: seq<Item>, kind: Kind, minLimit: Option<int>, now: int, florida: Clock)
    ensures Good(items, kind, minLimit, now, florida) <==>
              Kept(items, kind).Some? && Serves(Kept(items, kind).value, minLimit, now, florida)
  {
    hide Latest, Serves, Parsed;
    NoneOfKind(items, |items|, kind);
    if Kept(items, kind).Some? {
      var i := LatestAt(items, |items|, kind);
      assert forall k :: IsLatest(items, |items|, kind, k) ==> k == i;
    }
  }

  /**
   * A kind is met exactly when an unexpired exemption stands in, or the latest-expiring copy is good and covers
   * enough.
   */
  lemma MetIff(items: seq<Item>, spec: Spec, now: int, florida: Clock)
    ensures Met(items, spec, now, florida) <==>
              || (spec.kind == WorkersComp && Good(items, WorkersCompExemption, None, now, florida))
              || Good(items, spec.kind, spec.minLimit, now, florida)
  {
    hide StatusOf, Latest, Good;
    GoodIff(items, spec.kind, spec.minLimit, now, florida);
    GoodIff(items, WorkersCompExemption, None, now, florida);
    var copy, ex := Kept(items, spec.kind), Kept(items, WorkersCompExemption);
    if copy.Some? {
      CurrentIff(copy.value, now, florida);
    }
    if ex.Some? {
      CurrentIff(ex.value, now, florida);
    }
  }

  // ---- the gaps, from the papers ----

  /** The kind never expires, no expiry is stored or readable, or it is more than thirty days away. */
  predicate LastsLong(item: Item, now: int, florida: Clock) {
    || item.kind == W9 || item.expiresAt == None
    || (var days := DaysBetween(Some(Instant(now)), item.expiresAt, florida); days == None || days.value > 30)
  }

  /** The copy of a kind that counts: the latest-expiring one, the first of equals; None if there is no copy. */
  ghost predicate IsCopy(items: seq<Item>, kind: Kind, copy: Option<Item>) {
    match copy
    case Some(item) => exists i :: IsLatest(items, |items|, kind, i) && items[i] == item
    case None => forall i :: 0 <= i < |items| ==> items[i].kind != kind
  }

  predicate Decided(item: Item) {
    item.status in {Rejected, Waived, PendingReview, Missing}
  }

  /** How an unmet requirement is shown: what was decided, else expired, else too little cover. */
  predicate ShownAs(item: Item, status: Status, now: int, florida: Clock) {
    if Decided(item) then status == item.status
    else if item.kind != W9 && IsPast(item.expiresAt, now, florida) then status == Expired
    else if LastsLong(item, now, florida) then status == Rejected
    else status == ExpiringSoon
  }

  /**
   * What a required kind is reported with. Nothing if an exemption stands in, or if it is met for more than thirty days
   * yet; a warning with the days left if it is met for less; and a gap that blocks as the policy says if it is not met.
   */
  ghost predicate Reported(report: Option<Gap>, items: seq<Item>, spec: Spec, now: int, florida: Clock) {
    if spec.kind == WorkersComp && Good(items, WorkersCompExemption, None, now, florida) then report == None
    else
      forall copy :: IsCopy(items, spec.kind, copy) ==>
        if Good(items, spec.kind, spec.minLimit, now, florida) then
          && copy.Some?
          && if LastsLong(copy.value, now, florida) then report == None
             else exists days :: 0 <= days <= 30 && report == Some(Gap(spec.kind, ExpiringSoon, false, Some(days)))
                                 && DaysBetween(Some(Instant(now)), copy.value.expiresAt, florida) == Some(days)
        else
          && report.Some? && report.value.kind == spec.kind && report.value.blocksFiling == spec.blocksFiling
          && match copy
             case None => report.value.status == Missing && report.value.days == None
             case Some(item) =>
               && ShownAs(item, report.value.status, now, florida)
               && report.value.days == if item.expiresAt == None then None
                                       else DaysBetween(Some(Instant(now)), item.expiresAt, florida)
  }

  /** The gaps are the reports on the first n kinds of the policy that are required, in its order. */
  ghost predicate InOrder(gaps: seq<Gap>, items: seq<Item>, policy: seq<Spec>, n: nat, now: int, florida: Clock)
    requires n <= |policy|
  {
    if n == 0 then gaps == []
    else if !policy[n - 1].required then InOrder(gaps, items, policy, n - 1, now, florida)
    else
      || (&& Reported(None, items, policy[n - 1], now, florida)
          && InOrder(gaps, items, policy, n - 1, now, florida))
      || (&& gaps != [] && Reported(Some(gaps[|gaps| - 1]), items, policy[n - 1], now, florida)
          && InOrder(gaps[..|gaps| - 1], items, policy, n - 1, now, florida))
  }

  lemma KeptIsCopy(items: seq<Item>, kind: Kind, copy: Option<Item>)
    ensures IsCopy(items, kind, copy) <==> copy == Kept(items, kind)
  {
    hide Latest, Parsed;
    NoneOfKind(items, |items|, kind);
    if Kept(items, kind).Some? {
      var i := LatestAt(items, |items|, kind);
      assert forall k :: IsLatest(items, |items|, kind, k) ==> k == i;
    }
  }

  lemma ReportIs(items: seq<Item>, spec: Spec, now: int, florida: Clock)
    ensures Reported(Report(items, spec, now, florida), items, spec, now, florida)
  {
    var copy, ex := Kept(items, spec.kind), Kept(items, WorkersCompExemption);
    forall any | IsCopy(items, spec.kind, any) ensures any == copy {
      KeptIsCopy(items, spec.kind, any);
    }
    hide IsCopy, Latest, Good, Parsed, Report, StatusOf;
    GoodIff(items, spec.kind, spec.minLimit, now, florida);
    GoodIff(items, WorkersCompExemption, None, now, florida);
    if ex.Some? {
      CurrentIff(ex.value, now, florida);
    }
    if copy.Some? {
      KeptHasKind(items, spec.kind);
      ReportOnCopy(items, spec, copy.value, now, florida);
    } else {
      ReportOnNothing(items, spec, now, florida);
    }
  }

  lemma ReportOnNothing(items: seq<Item>, spec: Spec, now: int, florida: Clock)
    requires Kept(items, spec.kind) == None
    ensures Report(items, spec, now, florida)
         == if spec.kind == WorkersComp && Exempt(items, now, florida) then None
            else Some(Gap(spec.kind, Missing, spec.blocksFiling, None))
  {
    hide Kept, Exempt;
  }

  lemma ReportOnCopy(items: seq<Item>, spec: Spec, item: Item, now: int, florida: Clock)
    requires Kept(items, spec.kind) == Some(item) && item.kind == spec.kind
    ensures var report := Report(items, spec, now, florida);
            var days := if item.expiresAt == None then None
                        else DaysBetween(Some(Instant(now)), item.expiresAt, florida);
            if spec.kind == WorkersComp && Exempt(items, now, florida) then report == None
            else if !Serves(item, spec.minLimit, now, florida) then
              && report.Some? && report.value.kind == spec.kind && report.value.blocksFiling == spec.blocksFiling
              && ShownAs(item, report.value.status, now, florida) && report.value.days == days
            else if LastsLong(item, now, florida) then report == None
            else && report == Some(Gap(spec.kind, ExpiringSoon, false, days)) && days.Some? && 0 <= days.value <= 30
  {
    hide Kept, Exempt;
  }

  lemma KeptHasKind(items: seq<Item>, kind: Kind)
    requires Kept(items, kind).Some?
    ensures Kept(items, kind).value.kind == kind
  {
    hide Latest, Parsed;
    var i := LatestAt(items, |items|, kind);
  }

  lemma {:induction false} ReportsInOrder(items: seq<Item>, policy: seq<Spec>, n: nat, now: int, florida: Clock)
    requires n <= |policy|
    ensures InOrder(Reports(items, policy, n, now, florida), items, policy, n, now, florida)
  {
    hide Report, Reported;
    if n > 0 {
      ReportsInOrder(items, policy, n - 1, now, florida);
      var before, report := Reports(items, policy, n - 1, now, florida), Report(items, policy[n - 1], now, florida);
      ReportIs(items, policy[n - 1], now, florida);
      if policy[n - 1].required && report.Some? {
        var gaps := before + [report.value];
        assert gaps[..|gaps| - 1] == before && gaps == Reports(items, policy, n, now, florida);
      } else {
        assert Reports(items, policy, n, now, florida) == before;
      }
    }
  }

  /** For the same papers, cleared at a later time means cleared at any earlier one. */
  lemma ClearedEarlier(items: seq<Item>, policy: seq<Spec>, earlier: int, later: int, florida: Clock)
    requires NeverBack(florida) && earlier <= later && Cleared(items, policy, later, florida)
    ensures Cleared(items, policy, earlier, florida)
  {
    hide Met;
    forall i | 0 <= i < |policy| && policy[i].required && policy[i].blocksFiling
      ensures Met(items, policy[i], earlier, florida)
    {
      MetIff(items, policy[i], earlier, florida);
      MetIff(items, policy[i], later, florida);
      GoodEarlier(items, policy[i].kind, policy[i].minLimit, earlier, later, florida);
      GoodEarlier(items, WorkersCompExemption, None, earlier, later, florida);
    }
  }

  lemma GoodEarlier(items: seq<Item>, kind: Kind, minLimit: Option<int>, earlier: int, later: int, florida: Clock)
    requires NeverBack(florida) && earlier <= later
    ensures Good(items, kind, minLimit, later, florida) ==> Good(items, kind, minLimit, earlier, florida)
  {
    hide Parsed;
    if i :| IsLatest(items, |items|, kind, i) && Serves(items[i], minLimit, later, florida) {
      assert florida(earlier) <= florida(later);
      assert Serves(items[i], minLimit, earlier, florida);
    }
  }

  // ---- the meter ----

  lemma {:induction false} CountsAreParts(items: seq<Item>, policy: seq<Spec>, n: nat, now: int, florida: Clock)
    requires n <= |policy|
    ensures MetCount(items, policy, n, now, florida) <= Required(policy, n) <= n
    ensures ExtraCount(items, policy, n, now, florida) <= n - Required(policy, n)
  {
    hide Met, Current, Latest;
    if n > 0 {
      CountsAreParts(items, policy, n - 1, now, florida);
    }
  }

  lemma PartOfHundred(part: real, whole: real)
    requires 0.0 <= part <= whole && whole > 0.0
    ensures 0.0 <= part / whole * 100.0 <= 100.0 && (part == whole ==> part / whole * 100.0 == 100.0)
  {
    var q := part / whole;
    assert (1.0 - q) * whole == whole - part;
    SelfQuotient(whole);
    if q > 1.0 {
      NegativeProduct(1.0 - q, whole);
    }
  }

  lemma SelfQuotient(x: real)
    requires x > 0.0
    ensures x / x == 1.0
  {
  }

  lemma NegativeProduct(a: real, b: real)
    requires a < 0.0 && b > 0.0
    ensures a * b < 0.0
  {
  }

  /** The meter lies in 0..100 before it is clamped, so clamping never changes it; with everything met it reads 100. */
  lemma MeterInRange(items: seq<Item>, policy: seq<Spec>, now: int, florida: Clock)
    ensures 0 <= Completeness(items, policy, now, florida) <= 100
    ensures MetCount(items, policy, |policy|, now, florida) == Required(policy, |policy|)
            && ExtraCount(items, policy, |policy|, now, florida) == |policy| - Required(policy, |policy|)
            ==> Completeness(items, policy, now, florida) == 100
  {
    hide MetCount, ExtraCount, Required;
    CountsAreParts(items, policy, |policy|, now, florida);
    var met, required := MetCount(items, policy, |policy|, now, florida), Required(policy, |policy|);
    var score := ExtraCount(items, policy, |policy|, now, florida) as real * 0.5;
    var optional := |policy| - required;
    if required as real + optional as real * 0.5 > 0.0 {
      PartOfHundred(met as real + score, required as real + optional as real * 0.5);
    }
  }

  function RequiredKinds(policy: seq<Spec>, n: nat): set<nat>
    requires n <= |policy|
  {
    set i | 0 <= i < n && policy[i].required
  }

  ghost function MetKinds(items: seq<Item>, policy: seq<Spec>, n: nat, now: int, florida: Clock): set<nat>
    requires n <= |policy|
  {
    set i | 0 <= i < n && policy[i].required && Met(items, policy[i], now, florida)
  }

  ghost function ExtraKinds(items: seq<Item>, policy: seq<Spec>, n: nat, now: int, florida: Clock): set<nat>
    requires n <= |policy|
  {
    set i | 0 <= i < n && !policy[i].required && Good(items, policy[i].kind, None, now, florida)
  }

  lemma {:induction false} RequiredIsSize(policy: seq<Spec>, n: nat)
    requires n <= |policy|
    ensures Required(policy, n) == |RequiredKinds(policy, n)|
  {
    if n > 0 {
      RequiredIsSize(policy, n - 1);
      assert RequiredKinds(policy, n)
          == RequiredKinds(policy, n - 1) + if policy[n - 1].required then {n - 1} else {};
    }
  }

  lemma {:induction false} MetIsSize(items: seq<Item>, policy: seq<Spec>, n: nat, now: int, florida: Clock)
    requires n <= |policy|
    ensures MetCount(items, policy, n, now, florida) == |MetKinds(items, policy, n, now, florida)|
  {
    hide Met, Kept;
    if n > 0 {
      MetIsSize(items, policy, n - 1, now, florida);
      var before, last := MetKinds(items, policy, n - 1, now, florida), n - 1;
      if policy[last].required && Met(items, policy[last], now, florida) {
        assert MetKinds(items, policy, n, now, florida) == before + {last};
      } else {
        assert MetKinds(items, policy, n, now, florida) == before;
      }
    }
  }

  lemma {:induction false} ExtraIsSize(items: seq<Item>, policy: seq<Spec>, n: nat, now: int, florida: Clock)
    requires n <= |policy|
    ensures ExtraCount(items, policy, n, now, florida) == |ExtraKinds(items, policy, n, now, florida)|
  {
    hide Good, Current, Kept;
    if n > 0 {
      ExtraIsSize(items, policy, n - 1, now, florida);
      CurrentIsGood(items, policy[n - 1].kind, now, florida);
      var before, last := ExtraKinds(items, policy, n - 1, now, florida), n - 1;
      if !policy[last].required && Good(items, policy[last].kind, None, now, florida) {
        assert ExtraKinds(items, policy, n, now, florida) == before + {last};
      } else {
        assert ExtraKinds(items, policy, n, now, florida) == before;
      }
    }
  }

  lemma CurrentIsGood(items: seq<Item>, kind: Kind, now: int, florida: Clock)
    ensures Kept(items, kind).Some? && Current(Kept(items, kind).value, now, florida)
       <==> Good(items, kind, None, now, florida)
  {
    hide Latest, StatusOf, Good;
    GoodIff(items, kind, None, now, florida);
    if Kept(items, kind).Some? {
      CurrentIff(Kept(items, kind).value, now, florida);
    }
  }

  /**
   * The meter is the share of the policy that is met, an optional kind counting half a required one, in percent
   * and rounded to the nearest whole number.
   */
  lemma MeterIsShare(items: seq<Item>, policy: seq<Spec>, now: int, florida: Clock)
    ensures var n := |policy|;
            var required, met := |RequiredKinds(policy, n)|, |MetKinds(items, policy, n, now, florida)|;
            var extra := |ExtraKinds(items, policy, n, now, florida)|;
            var whole, part := 2 * required + (n - required), 2 * met + extra;
            var meter := Completeness(items, policy, now, florida);
            if n == 0 then meter == 100
            else whole > 0 && (2 * meter - 1) * whole <= 200 * part < (2 * meter + 1) * whole
  {
    hide MetCount, ExtraCount, Required, RequiredKinds, MetKinds, ExtraKinds;
    RequiredIsSize(policy, |policy|);
    MetIsSize(items, policy, |policy|, now, florida);
    ExtraIsSize(items, policy, |policy|, now, florida);
    CountsAreParts(items, policy, |policy|, now, florida);
    var required, met := Required(policy, |policy|), MetCount(items, policy, |policy|, now, florida);
    var extra := ExtraCount(items, policy, |policy|, now, florida);
    if |policy| > 0 {
      MeterRounds(met, required, extra, |policy| - required);
    }
  }

  lemma MeterRounds(met: nat, required: nat, extra: nat, optional: nat)
    requires required + optional > 0
    ensures var meter := Meter(met, required, extra as real * 0.5, optional);
            var whole, part := 2 * required + optional, 2 * met + extra;
            (2 * meter - 1) * whole <= 200 * part < (2 * meter + 1) * whole
  {
    var meter := Meter(met, required, extra as real * 0.5, optional);
    var denom, score := required as real + optional as real * 0.5, met as real + extra as real * 0.5;
    RoundedShare(score, denom, meter);
    hide Meter;
    var whole, part := 2 * required + optional, 2 * met + extra;
    assert whole as real == 2.0 * denom && part as real == 2.0 * score;
    Doubled(2 * meter - 1, whole, denom);
    Doubled(2 * meter + 1, whole, denom);
  }

  lemma Doubled(a: int, whole: int, half: real)
    requires whole as real == 2.0 * half
    ensures (a * whole) as real == 2.0 * (a as real * half)
  {
    AsReals(a, whole);
    assert a as real * (2.0 * half) == 2.0 * (a as real * half);
  }

  lemma RoundedShare(score: real, denom: real, meter: int)
    requires denom > 0.0 && meter == (score / denom * 100.0 + 0.5).Floor
    ensures (2 * meter - 1) as real * denom <= 200.0 * score < (2 * meter + 1) as real * denom
  {
    var q, m := score / denom, meter as real;
    assert q * denom == score;
    Spread(q, score, denom);
    Between(q * 100.0 + 0.5, m, score, denom);
    assert (2 * meter - 1) as real == 2.0 * m - 1.0 && (2 * meter + 1) as real == 2.0 * m + 1.0;
  }

  function Times(a: real, b: real): real {
    a * b
  }

  lemma Spread(q: real, score: real, denom: real)
    requires q * denom == score
    ensures Times(q * 100.0 + 0.5, denom) == 100.0 * score + 0.5 * denom
  {
  }

  lemma Between(x: real, m: real, score: real, denom: real)
    requires denom > 0.0 && m <= x < m + 1.0 && Times(x, denom) == 100.0 * score + 0.5 * denom
    ensures Times(2.0 * m - 1.0, denom) <= 200.0 * score < Times(2.0 * m + 1.0, denom)
  {
    TimesGrows(x, m + 1.0, denom);
    TimesGrows(m, x, denom);
    TimesSpreads(1.0, m, 1.0, denom);
    TimesSpreads(2.0, m, 1.0, denom);
    TimesSpreads(2.0, m, -1.0, denom);
    hide Times;
    assert 1.0 * m + 1.0 == m + 1.0 && 2.0 * m + -1.0 == 2.0 * m - 1.0;
  }

  lemma TimesGrows(a: real, b: real, c: real)
    requires a <= b && 0.0 < c
    ensures Times(a, c) <= Times(b, c) && (a < b ==> Times(a, c) < Times(b, c))
  {
    if a < b {
      NegativeProduct(a - b, c);
      assert (a - b) * c == a * c - b * c;
    }
  }

  lemma TimesSpreads(k: real, m: real, j: real, c: real)
    ensures Times(k * m + j, c) == k * Times(m, c) + j * c
  {
    assert (k * m + j) * c == k * (m * c) + j * c;
  }

  lemma AsReals(a: int, b: int)
    ensures (a * b) as real == a as real * b as real
  {
  }

  // ---- what blocks without being missing ----

  /** A waived requirement is not met: nothing else on file for the kind, it blocks filing like a missing one. */
  lemma WaivedStillBlocks(items: seq<Item>, policy: seq<Spec>, now: int, florida: Clock, k: nat)
    requires k < |policy| && policy[k].required && policy[k].blocksFiling && policy[k].kind != WorkersComp
    requires Kept(items, policy[k].kind).Some? && Kept(items, policy[k].kind).value.status == Waived
    ensures !Cleared(items, policy, now, florida)
  {
    hide Latest;
    assert !Met(items, policy[k], now, florida);
  }

  /**
   * Uploading a renewal that expires later puts it in place of the copy on file: until it is reviewed,
   * a contractor who was cleared is not.
   */
  lemma UnreviewedRenewalBlocks(items: seq<Item>, renewal: Item, policy: seq<Spec>, now: int, florida: Clock, k: nat)
    requires k < |policy| && policy[k].required && policy[k].blocksFiling
             && policy[k].kind == renewal.kind != WorkersComp
    requires renewal.status == PendingReview && Kept(items, renewal.kind).Some?
    requires Parsed(renewal) > Parsed(Kept(items, renewal.kind).value)
    ensures Kept(items + [renewal], renewal.kind) == Some(renewal)
    ensures !Cleared(items + [renewal], policy, now, florida)
  {
    LatestPrefix(items, items + [renewal], |items|, renewal.kind);
    assert !Met(items + [renewal], policy[k], now, florida);
  }

  lemma {:induction false} LatestPrefix(a: seq<Item>, b: seq<Item>, n: nat, kind: Kind)
    requires n <= |a| && n <= |b| && forall i :: 0 <= i < n ==> a[i] == b[i]
    ensures Latest(a, n, kind) == Latest(b, n, kind)
  {
    hide Parsed;
    if n > 0 {
      LatestPrefix(a, b, n - 1, kind);
    }
  }

  /**
   * A copy without an expiry never lapses on its own, yet any dated copy since 1970 is kept instead of it, expired or
   * not.
   */
  lemma UndatedLosesToExpired(undated: Item, lapsed: Item, policy: seq<Spec>, now: int, florida: Clock, k: nat)
    requires k < |policy| && policy[k].required && policy[k].blocksFiling
             && policy[k].kind == undated.kind == lapsed.kind
    requires undated.kind !in {WorkersComp, W9} && undated.status == Valid && undated.expiresAt == None
    requires policy[k].minLimit == None && lapsed.status == Valid && Parsed(lapsed) > 0
             && IsPast(lapsed.expiresAt, now, florida)
    ensures Met([undated], policy[k], now, florida)
    ensures !Cleared([undated, lapsed], policy, now, florida)
  {
    assert Latest([undated], 0, undated.kind) == None && Kept([undated], undated.kind) == Some(undated);
    assert Latest([undated, lapsed], 0, undated.kind) == None
           && Latest([undated, lapsed], 1, undated.kind) == Some(undated);
    assert Kept([undated, lapsed], undated.kind) == Some(lapsed);
    assert !Met([undated, lapsed], policy[k], now, florida);
  }
}

/** The Florida permit intake rules of src/domain/permitIntake.ts. */
module Intake {
  import opened Prelude

  /** The permit types that some rule names; the others are alike. */
  datatype PermitType =
    | BuildingNewConstruction | BuildingAddition | Roofing | WindowsDoors | Siding | ShuttersImpactProtection
    | ScreenEnclosure | PoolSpa | DockSeawall | MobileHomeSetup | Electrical | Plumbing | MechanicalHvac | Gas
    | Demolition | OtherType(name: string)

  datatype DocType =
    | SitePlan | FloorPlan | ElevationDrawing | StructuralPlans | TrussEngineering | EnergyCalculation
    | ProductApproval | NoaHvhz | Survey | NoticeOfCommencement | OwnerAuthorization | OwnerBuilderAffidavit
    | ContractorLicense | InsuranceCertificate | WorkersCompExemption | SubcontractorAffidavit | SoilReport
    | SepticApproval | WellPermit | DepEnvironmental | HoaApproval | AsbestosSurvey | DemolitionPlan
    | FloodElevationCertificate | OtherDocument

  datatype Facts = Facts(
    permitType: PermitType, valuationCents: Option<int>, isNewConstruction: bool, isOwnerBuilder: bool, inHvhz: bool,
    floodZone: Option<string>, isSubstantialImprovement: bool, hasSubcontractors: bool,
    hasSeptic: Option<bool>, hasHoa: Option<bool>, extras: seq<DocType>)

  const NOC_THRESHOLD_CENTS := 750_000

  predicate WindBorne(t: PermitType) {
    t in {Roofing, WindowsDoors, Siding, ShuttersImpactProtection, ScreenEnclosure, BuildingNewConstruction,
          BuildingAddition}
  }

  predicate Structural(t: PermitType) {
    t in {BuildingNewConstruction, BuildingAddition, PoolSpa, DockSeawall, ScreenEnclosure, MobileHomeSetup}
  }

  predicate Trade(t: PermitType) {
    t in {Electrical, Plumbing, MechanicalHvac, Gas}
  }

  /** White space and line terminators, all that JavaScript's trim removes. */
  predicate Blank(ch: char) {
    var c := ch as int;
    || 0x9 <= c <= 0xD || 0x2000 <= c <= 0x200A
    || c in {0x20, 0xA0, 0x1680, 0x2028, 0x2029, 0x202F, 0x205F, 0x3000, 0xFEFF}
  }

  function TrimStart(s: string): string {
    if s != "" && Blank(s[0]) then TrimStart(s[1..]) else s
  }

  function TrimEnd(s: string): string {
    if s != "" && Blank(s[|s| - 1]) then TrimEnd(s[..|s| - 1]) else s
  }

  function Trim(s: string): string {
    TrimEnd(TrimStart(s))
  }

  /** A zone is named, and it is not X. */
  predicate InFloodZone(zone: Option<string>) {
    zone.Some? && zone.value != "" && Trim(zone.value) !in {"x", "X"}
  }

  /** A lone x, of either case, among blanks. */
  ghost predicate OnlyX(s: string) {
    exists i :: 0 <= i < |s| && s[i] in ['x', 'X'] && forall k :: 0 <= k < |s| && k != i ==> Blank(s[k])
  }

  /** Every zone that is stored counts as a flood zone but zone X, however it is written. */
  lemma InFloodZoneIff(zone: Option<string>)
    ensures InFloodZone(zone) <==> zone.Some? && zone.value != "" && !OnlyX(zone.value)
  {
    if zone.Some? {
      TrimsToXIff(zone.value);
    }
  }

  lemma TrimsToXIff(s: string)
    ensures Trim(s) in {"x", "X"} <==> OnlyX(s)
  {
    if Trim(s) in {"x", "X"} {
      TrimmedToX(s);
    }
    if OnlyX(s) {
      OnlyXTrims(s);
    }
  }

  lemma TrimmedToX(s: string)
    requires Trim(s) == "x" || Trim(s) == "X"
    ensures OnlyX(s)
  {
    var n := StartTrimmed(s);
    var t := TrimStart(s);
    var m := EndTrimmed(t);
    hide Blank, TrimStart, TrimEnd, OnlyX;
    assert m == 1 && t[0] == Trim(s)[0];
    forall k | 0 <= k < |s| && k != n ensures Blank(s[k]) {
      if k > n {
        assert s[k] == t[k - n];
      }
    }
    LoneX(s, n);
  }

  lemma LoneX(s: string, i: nat)
    requires i < |s| && s[i] in ['x', 'X'] && forall k :: 0 <= k < |s| && k != i ==> Blank(s[k])
    ensures OnlyX(s)
  {
  }

  lemma OnlyXTrims(s: string)
    requires OnlyX(s)
    ensures Trim(s) == "x" || Trim(s) == "X"
  {
    var i :| 0 <= i < |s| && s[i] in ['x', 'X'] && forall k :: 0 <= k < |s| && k != i ==> Blank(s[k]);
    var n := StartTrimmed(s);
    var t := TrimStart(s);
    var m := EndTrimmed(t);
    assert !Blank(s[i]);
    hide Blank, TrimStart, TrimEnd;
    assert n == i && t[0] == s[i];
    assert m >= 1 && t[m - 1] == s[n + m - 1];
    assert m == 1 && Trim(s) == [s[i]];
  }

  lemma {:induction false} StartTrimmed(s: string) returns (n: nat)
    ensures n <= |s| && TrimStart(s) == s[n..] && forall k :: 0 <= k < n ==> Blank(s[k])
    ensures n < |s| ==> !Blank(s[n])
  {
    if s != "" && Blank(s[0]) {
      var m := StartTrimmed(s[1..]);
      n := m + 1;
      assert s[1..][m..] == s[n..];
      forall k | 0 <= k < n ensures Blank(s[k]) {
        if k > 0 {
          assert s[k] == s[1..][k - 1];
        }
      }
      assert n < |s| ==> s[n] == s[1..][m];
    } else {
      n := 0;
    }
  }

  lemma {:induction false} EndTrimmed(s: string) returns (m: nat)
    ensures m <= |s| && TrimEnd(s) == s[..m] && forall k :: m <= k < |s| ==> Blank(s[k])
    ensures 0 < m ==> !Blank(s[m - 1])
  {
    if s != "" && Blank(s[|s| - 1]) {
      m := EndTrimmed(s[..|s| - 1]);
      assert s[..|s| - 1][..m] == s[..m];
    } else {
      m := |s|;
    }
  }

  /** Which groups a permit type is in: wind-borne debris, structural work, trades. */
  lemma TypesAre(t: PermitType)
    ensures (WindBorne(t), Structural(t), Trade(t)) ==
            match t
            case BuildingNewConstruction => (true, true, false)
            case BuildingAddition => (true, true, false)
            case ScreenEnclosure => (true, true, false)
            case Roofing => (true, false, false)
            case WindowsDoors => (true, false, false)
            case Siding => (true, false, false)
            case ShuttersImpactProtection => (true, false, false)
            case PoolSpa => (false, true, false)
            case DockSeawall => (false, true, false)
            case MobileHomeSetup => (false, true, false)
            case Electrical => (false, false, true)
            case Plumbing => (false, false, true)
            case MechanicalHvac => (false, false, true)
            case Gas => (false, false, true)
            case Demolition => (false, false, false)
            case OtherType(_) => (false, false, false)
  {
  }

  predicate NewBuild(f: Facts) {
    f.isNewConstruction || f.permitType == BuildingNewConstruction
  }

  /** When each drawing is demanded. */
  predicate DrawingDemanded(f: Facts, d: DocType) {
    match d
    case SitePlan => NewBuild(f) || Structural(f.permitType) || f.permitType == Roofing
    case StructuralPlans => NewBuild(f) || Structural(f.permitType)
    case Survey => NewBuild(f) || f.permitType == BuildingAddition
    case EnergyCalculation => NewBuild(f) || f.permitType == BuildingAddition
    case FloorPlan => NewBuild(f)
    case ElevationDrawing => NewBuild(f)
    case TrussEngineering => NewBuild(f)
    case _ => false
  }

  /** When each other paper is demanded. */
  predicate PaperDemanded(f: Facts, d: DocType) {
    match d
    case OwnerBuilderAffidavit => f.isOwnerBuilder
    case OwnerAuthorization => f.isOwnerBuilder
    case ContractorLicense => !f.isOwnerBuilder
    case InsuranceCertificate => !f.isOwnerBuilder
    case NoticeOfCommencement => f.valuationCents.Some? && f.valuationCents.value > 750_000
    case NoaHvhz => WindBorne(f.permitType) && f.inHvhz
    case ProductApproval => WindBorne(f.permitType) && !f.inHvhz
    case FloodElevationCertificate => InFloodZone(f.floodZone) || f.isSubstantialImprovement
    case DemolitionPlan => f.permitType == Demolition
    case AsbestosSurvey => f.permitType == Demolition
    case SubcontractorAffidavit => f.hasSubcontractors || Trade(f.permitType)
    case SepticApproval => f.hasSeptic == Some(true)
    case HoaApproval => f.hasHoa == Some(true)
    case _ => false
  }

  predicate Demanded(f: Facts, d: DocType) {
    d in f.extras || DrawingDemanded(f, d) || PaperDemanded(f, d)
  }

  // ---- building the list ----

  function Listed(rules: seq<DocType>): set<DocType> {
    set d | d in rules
  }

  ghost predicate Distinct(rules: seq<DocType>) {
    forall i, j :: 0 <= i < j < |rules| ==> rules[i] != rules[j]
  }

  /** The source's `add`: nothing is listed twice. */
  method Add(rules: seq<DocType>, d: DocType) returns (more: seq<DocType>)
    requires Distinct(rules)
    ensures Distinct(more) && Listed(more) == Listed(rules) + {d}
  {
    more := if d in rules then rules else rules + [d];
  }

  function PartyDocuments(f: Facts): set<DocType> {
    (if f.isOwnerBuilder then {OwnerBuilderAffidavit, OwnerAuthorization}
     else {ContractorLicense, InsuranceCertificate})
    + if f.valuationCents.GetOr(0) > NOC_THRESHOLD_CENTS then {NoticeOfCommencement} else {}
  }

  function Drawings(f: Facts): set<DocType> {
    (if NewBuild(f)
     then {SitePlan, Survey, FloorPlan, ElevationDrawing, StructuralPlans, TrussEngineering, EnergyCalculation}
     else if Structural(f.permitType) then {SitePlan, StructuralPlans} else {})
    + (if f.permitType == BuildingAddition then {Survey, EnergyCalculation} else {})
    + if f.permitType == Roofing then {SitePlan} else {}
  }

  function SiteDocuments(f: Facts): set<DocType> {
    (if WindBorne(f.permitType) then (if f.inHvhz then {NoaHvhz} else {ProductApproval}) else {})
    + (if InFloodZone(f.floodZone) || f.isSubstantialImprovement then {FloodElevationCertificate} else {})
    + if f.permitType == Demolition then {DemolitionPlan, AsbestosSurvey} else {}
  }

  function OtherDocuments(f: Facts): set<DocType> {
    (if f.hasSubcontractors || Trade(f.permitType) then {SubcontractorAffidavit} else {})
    + (if f.hasSeptic == Some(true) then {SepticApproval} else {})
    + if f.hasHoa == Some(true) then {HoaApproval} else {}
  }

  method AddParty(f: Facts) returns (rules: seq<DocType>)
    ensures Distinct(rules) && Listed(rules) == PartyDocuments(f)
  {
    rules := [];
    hide Distinct, Listed;
    Nothing();
    if f.isOwnerBuilder {
      rules := Add(rules, OwnerBuilderAffidavit);
      rules := Add(rules, OwnerAuthorization);
    } else {
      rules := Add(rules, ContractorLicense);
      rules := Add(rules, InsuranceCertificate);
    }
    if f.valuationCents.GetOr(0) > NOC_THRESHOLD_CENTS {
      rules := Add(rules, NoticeOfCommencement);
    }
  }

  lemma Nothing()
    ensures Distinct([]) && Listed([]) == {}
  {
  }

  method AddDrawings(f: Facts, before: seq<DocType>) returns (rules: seq<DocType>)
    requires Distinct(before)
    ensures Distinct(rules) && Listed(rules) == Listed(before) + Drawings(f)
  {
    hide Distinct, Listed;
    rules := before;
    if f.isNewConstruction || f.permitType == BuildingNewConstruction {
      rules := Add(rules, SitePlan);
      rules := Add(rules, Survey);
      rules := Add(rules, FloorPlan);
      rules := Add(rules, ElevationDrawing);
      rules := Add(rules, StructuralPlans);
      rules := Add(rules, TrussEngineering);
      rules := Add(rules, EnergyCalculation);
    } else if Structural(f.permitType) {
      rules := Add(rules, SitePlan);
      rules := Add(rules, StructuralPlans);
    }
    if f.permitType == BuildingAddition {
      rules := Add(rules, Survey);
      rules := Add(rules, EnergyCalculation);
    }
    if f.permitType == Roofing {
      rules := Add(rules, SitePlan);
    }
  }

  method AddSite(f: Facts, before: seq<DocType>) returns (rules: seq<DocType>)
    requires Distinct(before)
    ensures Distinct(rules) && Listed(rules) == Listed(before) + SiteDocuments(f)
  {
    hide Distinct, Listed, InFloodZone;
    rules := before;
    if WindBorne(f.permitType) {
      if f.inHvhz {
        rules := Add(rules, NoaHvhz);
      } else {
        rules := Add(rules, ProductApproval);
      }
    }
    if InFloodZone(f.floodZone) || f.isSubstantialImprovement {
      rules := Add(rules, FloodElevationCertificate);
    }
    if f.permitType == Demolition {
      rules := Add(rules, DemolitionPlan);
      rules := Add(rules, AsbestosSurvey);
    }
  }

  method AddOthers(f: Facts, before: seq<DocType>) returns (rules: seq<DocType>)
    requires Distinct(before)
    ensures Distinct(rules) && Listed(rules) == Listed(before) + OtherDocuments(f)
  {
    hide Distinct, Listed;
    rules := before;
    if f.hasSubcontractors || Trade(f.permitType) {
      rules := Add(rules, SubcontractorAffidavit);
    }
    if f.hasSeptic == Some(true) {
      rules := Add(rules, SepticApproval);
    }
    if f.hasHoa == Some(true) {
      rules := Add(rules, HoaApproval);
    }
  }

  /** Each document that the facts demand, once. */
  method RequiredDocumentsFor(f: Facts) returns (rules: seq<DocType>)
    ensures Distinct(rules) && forall d :: d in rules <==> Demanded(f, d)
  {
    hide Distinct, PartyDocuments, Drawings, SiteDocuments, OtherDocuments, Demanded;
    rules := AddParty(f);
    rules := AddDrawings(f, rules);
    rules := AddSite(f, rules);
    rules := AddOthers(f, rules);
    ghost var own := rules;
    for i := 0 to |f.extras|
      invariant Distinct(rules) && Listed(rules) == Listed(own) + Listed(f.extras[..i])
    {
      assert f.extras[..i + 1] == f.extras[..i] + [f.extras[i]];
      rules := Add(rules, f.extras[i]);
    }
    assert f.extras[..|f.extras|] == f.extras;
    forall d ensures d in rules <==> Demanded(f, d) {
      DemandedIff(f, d);
      assert d in rules <==> d in Listed(rules);
      assert d in f.extras <==> d in Listed(f.extras);
    }
  }

  lemma DrawingsIff(f: Facts, d: DocType)
    ensures d in Drawings(f) <==> DrawingDemanded(f, d)
  {
    hide Structural;
  }

  lemma PapersIff(f: Facts, d: DocType)
    ensures d in PartyDocuments(f) || d in SiteDocuments(f) || d in OtherDocuments(f) <==> PaperDemanded(f, d)
  {
    hide InFloodZone, WindBorne, Trade, SiteDocuments, OtherDocuments;
    SiteAndOthers(f, d);
  }

  lemma SiteAndOthers(f: Facts, d: DocType)
    ensures d in SiteDocuments(f) || d in OtherDocuments(f) <==>
              match d
              case NoaHvhz => WindBorne(f.permitType) && f.inHvhz
              case ProductApproval => WindBorne(f.permitType) && !f.inHvhz
              case FloodElevationCertificate => InFloodZone(f.floodZone) || f.isSubstantialImprovement
              case DemolitionPlan => f.permitType == Demolition
              case AsbestosSurvey => f.permitType == Demolition
              case SubcontractorAffidavit => f.hasSubcontractors || Trade(f.permitType)
              case SepticApproval => f.hasSeptic == Some(true)
              case HoaApproval => f.hasHoa == Some(true)
              case _ => false
  {
    hide InFloodZone, WindBorne, Trade;
  }

  /** Rule by rule and document by document say the same. */
  lemma DemandedIff(f: Facts, d: DocType)
    ensures Demanded(f, d) <==>
              || d in f.extras || d in PartyDocuments(f) || d in Drawings(f)
              || d in SiteDocuments(f) || d in OtherDocuments(f)
  {
    hide PartyDocuments, Drawings, SiteDocuments, OtherDocuments, DrawingDemanded, PaperDemanded;
    DrawingsIff(f, d);
    PapersIff(f, d);
  }

  // ---- completeness of the form ----

  /** Which fields of the stored application are filled in (or true). */
  datatype Form = Form(
    permitType: bool, municipality: bool, address: bool, city: bool, postalCode: bool, scope: bool, owner: bool,
    valuation: bool, parcel: bool, isOwnerBuilder: bool, qualifier: bool, requiresNoc: bool, nocRecorded: bool,
    inHvhz: bool, windSpeed: bool, email: bool)

  datatype Field =
    | FPermitType | FMunicipality | FAddress | FCity | FPostalCode | FScope | FOwner | FValuation | FParcel
    | FQualifier | FNoc | FWindSpeed | FEmail | FDocument(d: DocType)

  datatype Issue = Issue(field: Field, blocking: bool)

  predicate IsSubmittable(issues: seq<Issue>) {
    !exists i :: 0 <= i < |issues| && issues[i].blocking
  }

  /** The fields without which an application cannot be filed. */
  predicate Complete(a: Form) {
    && a.permitType && a.municipality && a.address && a.city && a.postalCode && a.scope && a.owner && a.valuation
    && (a.isOwnerBuilder || a.qualifier)
    && (a.requiresNoc ==> a.nocRecorded)
  }

  /** What a check adds to the list. */
  function Unless(holds: bool, field: Field, blocking: bool): seq<Issue> {
    if holds then [] else [Issue(field, blocking)]
  }

  function DocumentIssues(missing: seq<DocType>, n: nat): seq<Issue>
    requires n <= |missing|
  {
    seq(n, k requires 0 <= k < n => Issue(FDocument(missing[k]), true))
  }

  method Require(issues: seq<Issue>, field: Field, holds: bool) returns (more: seq<Issue>)
    ensures IsSubmittable(more) <==> IsSubmittable(issues) && holds
    ensures more == Then(issues, holds, field, true)
  {
    more := if holds then issues else issues + [Issue(field, true)];
    if !holds {
      assert more[|issues|].blocking;
    } else {
      assert more == issues;
    }
  }

  method Warn(issues: seq<Issue>, field: Field, holds: bool) returns (more: seq<Issue>)
    ensures IsSubmittable(more) <==> IsSubmittable(issues)
    ensures more == Then(issues, holds, field, false)
  {
    more := if holds then issues else issues + [Issue(field, false)];
    if !IsSubmittable(issues) {
      var i :| 0 <= i < |issues| && issues[i].blocking;
      assert more[i].blocking;
    }
  }

  function Then(issues: seq<Issue>, holds: bool, field: Field, blocking: bool): seq<Issue> {
    issues + Unless(holds, field, blocking)
  }

  function SiteIssues(a: Form): seq<Issue> {
    var s1 := Then([], a.permitType, FPermitType, true);
    var s2 := Then(s1, a.municipality, FMunicipality, true);
    var s3 := Then(s2, a.address, FAddress, true);
    var s4 := Then(s3, a.city, FCity, true);
    var s5 := Then(s4, a.postalCode, FPostalCode, true);
    s5
  }

  function JobIssues(a: Form): seq<Issue> {
    var s6 := Then(SiteIssues(a), a.scope, FScope, true);
    var s7 := Then(s6, a.owner, FOwner, true);
    var s8 := Then(s7, a.valuation, FValuation, true);
    var s9 := Then(s8, a.parcel, FParcel, false);
    s9
  }

  function FormIssues(a: Form): seq<Issue> {
    var s10 := Then(JobIssues(a), a.isOwnerBuilder || a.qualifier, FQualifier, true);
    var s11 := Then(s10, !a.requiresNoc || a.nocRecorded, FNoc, true);
    var s12 := Then(s11, !a.inHvhz || a.windSpeed, FWindSpeed, false);
    var s13 := Then(s12, a.email, FEmail, false);
    s13
  }

  method AssessSite(a: Form) returns (issues: seq<Issue>)
    ensures IsSubmittable(issues) <==> a.permitType && a.municipality && a.address && a.city && a.postalCode
    ensures issues == SiteIssues(a)
  {
    issues := [];
    assert IsSubmittable(issues);
    hide IsSubmittable, Then;
    issues := Require(issues, FPermitType, a.permitType);
    issues := Require(issues, FMunicipality, a.municipality);
    issues := Require(issues, FAddress, a.address);
    issues := Require(issues, FCity, a.city);
    issues := Require(issues, FPostalCode, a.postalCode);
  }

  method AssessJob(a: Form) returns (issues: seq<Issue>)
    ensures IsSubmittable(issues) <==> IsSubmittable(SiteIssues(a)) && a.scope && a.owner && a.valuation
    ensures IsSubmittable(SiteIssues(a)) <==>
              a.permitType && a.municipality && a.address && a.city && a.postalCode
    ensures issues == JobIssues(a)
  {
    hide IsSubmittable, Then, SiteIssues;
    issues := AssessSite(a);
    issues := Require(issues, FScope, a.scope);
    issues := Require(issues, FOwner, a.owner);
    issues := Require(issues, FValuation, a.valuation);
    issues := Warn(issues, FParcel, a.parcel);
  }

  /** What is lacking, in the order of the form: a needed field blocks, a useful one warns. */
  method AssessForm(a: Form) returns (issues: seq<Issue>)
    ensures IsSubmittable(issues) <==> Complete(a)
    ensures issues == FormIssues(a)
  {
    hide IsSubmittable, Then, SiteIssues, JobIssues;
    issues := AssessJob(a);
    issues := Require(issues, FQualifier, a.isOwnerBuilder || a.qualifier);
    issues := Require(issues, FNoc, !a.requiresNoc || a.nocRecorded);
    issues := Warn(issues, FWindSpeed, !a.inHvhz || a.windSpeed);
    issues := Warn(issues, FEmail, a.email);
  }

  lemma InThen(issues: seq<Issue>, holds: bool, field: Field, blocking: bool, i: Issue)
    ensures i in Then(issues, holds, field, blocking) <==> i in issues || (!holds && i == Issue(field, blocking))
  {
  }

  lemma SiteIssuesAre(a: Form, i: Issue)
    ensures i in SiteIssues(a) <==>
              match i.field
              case FPermitType => i.blocking && !a.permitType
              case FMunicipality => i.blocking && !a.municipality
              case FAddress => i.blocking && !a.address
              case FCity => i.blocking && !a.city
              case FPostalCode => i.blocking && !a.postalCode
              case _ => false
  {
    hide Then;
    var s1 := Then([], a.permitType, FPermitType, true);
    InThen([], a.permitType, FPermitType, true, i);
    var s2 := Then(s1, a.municipality, FMunicipality, true);
    InThen(s1, a.municipality, FMunicipality, true, i);
    var s3 := Then(s2, a.address, FAddress, true);
    InThen(s2, a.address, FAddress, true, i);
    var s4 := Then(s3, a.city, FCity, true);
    InThen(s3, a.city, FCity, true, i);
    var s5 := Then(s4, a.postalCode, FPostalCode, true);
    InThen(s4, a.postalCode, FPostalCode, true, i);
  }

  lemma JobIssuesAre(a: Form, i: Issue)
    ensures i in JobIssues(a) <==>
              match i.field
              case FScope => i.blocking && !a.scope
              case FOwner => i.blocking && !a.owner
              case FValuation => i.blocking && !a.valuation
              case FParcel => !i.blocking && !a.parcel
              case _ => i in SiteIssues(a)
  {
    SiteIssuesAre(a, i);
    hide Then, SiteIssues;
    var s6 := Then(SiteIssues(a), a.scope, FScope, true);
    InThen(SiteIssues(a), a.scope, FScope, true, i);
    var s7 := Then(s6, a.owner, FOwner, true);
    InThen(s6, a.owner, FOwner, true, i);
    var s8 := Then(s7, a.valuation, FValuation, true);
    InThen(s7, a.valuation, FValuation, true, i);
    var s9 := Then(s8, a.parcel, FParcel, false);
    InThen(s8, a.parcel, FParcel, false, i);
  }

  lemma LastIssuesAre(a: Form, i: Issue)
    ensures i in FormIssues(a) <==>
              match i.field
              case FQualifier => i.blocking && !a.isOwnerBuilder && !a.qualifier
              case FNoc => i.blocking && a.requiresNoc && !a.nocRecorded
              case FWindSpeed => !i.blocking && a.inHvhz && !a.windSpeed
              case FEmail => !i.blocking && !a.email
              case _ => i in JobIssues(a)
  {
    JobIssuesAre(a, i);
    SiteIssuesAre(a, i);
    hide Then, SiteIssues, JobIssues;
    var s10 := Then(JobIssues(a), a.isOwnerBuilder || a.qualifier, FQualifier, true);
    InThen(JobIssues(a), a.isOwnerBuilder || a.qualifier, FQualifier, true, i);
    var s11 := Then(s10, !a.requiresNoc || a.nocRecorded, FNoc, true);
    InThen(s10, !a.requiresNoc || a.nocRecorded, FNoc, true, i);
    var s12 := Then(s11, !a.inHvhz || a.windSpeed, FWindSpeed, false);
    InThen(s11, !a.inHvhz || a.windSpeed, FWindSpeed, false, i);
    var s13 := Then(s12, a.email, FEmail, false);
    InThen(s12, a.email, FEmail, false, i);
  }

  /** Field by field: what is raised, and whether it blocks. */
  lemma FormIssuesAre(a: Form, i: Issue)
    ensures i in FormIssues(a) <==>
              match i.field
              case FPermitType => i.blocking && !a.permitType
              case FMunicipality => i.blocking && !a.municipality
              case FAddress => i.blocking && !a.address
              case FCity => i.blocking && !a.city
              case FPostalCode => i.blocking && !a.postalCode
              case FScope => i.blocking && !a.scope
              case FOwner => i.blocking && !a.owner
              case FValuation => i.blocking && !a.valuation
              case FParcel => !i.blocking && !a.parcel
              case FQualifier => i.blocking && !a.isOwnerBuilder && !a.qualifier
              case FNoc => i.blocking && a.requiresNoc && !a.nocRecorded
              case FWindSpeed => !i.blocking && a.inHvhz && !a.windSpeed
              case FEmail => !i.blocking && !a.email
              case FDocument(_) => false
  {
    hide SiteIssues, JobIssues, FormIssues;
    SiteIssuesAre(a, i);
    JobIssuesAre(a, i);
    LastIssuesAre(a, i);
  }

  /**
   * An application can be submitted exactly when its form is complete and no required document is missing; after
   * what the form lacks, each missing document is listed, and blocks.
   */
  method AssessReadiness(a: Form, missing: seq<DocType>) returns (issues: seq<Issue>)
    ensures IsSubmittable(issues) <==> Complete(a) && missing == []
    ensures issues == FormIssues(a) + DocumentIssues(missing, |missing|)
    ensures forall k :: 0 <= k < |missing| ==>
              issues[|issues| - |missing| + k] == Issue(FDocument(missing[k]), true)
  {
    hide IsSubmittable, Complete, Unless, FormIssues;
    issues := AssessForm(a);
    ghost var form := issues;
    for i := 0 to |missing|
      invariant IsSubmittable(issues) <==> Complete(a) && i == 0
      invariant issues == form + DocumentIssues(missing, i)
    {
      assert DocumentIssues(missing, i + 1) == DocumentIssues(missing, i) + [Issue(FDocument(missing[i]), true)];
      Lacking(FDocument(missing[i]));
      issues := Require(issues, FDocument(missing[i]), false);
    }
  }

  lemma Lacking(field: Field)
    ensures Unless(false, field, true) == [Issue(field, true)]
  {
  }
}

/**
 * The integration roadmap of src/shared/integration.ts: readiness of a jurisdiction, and the ranking of all.
 * Shares are exact fractions; a list sort keeps equal items in order.
 */
module Roadmap {
  import opened Prelude

  type Id = nat

  datatype Pathway = Manual | Rpa | Api

  datatype Tier = ApiLive | ApiCandidate | ApiPartner | RpaTier | ManualTier

  datatype Platform = Accela | NoPlatform | OtherPlatform(name: string)

  datatype Gate = Gate(publicApi: bool, agencyPurchase: bool, vendorPartner: bool, agencyApproval: bool)

  datatype Jurisdiction = Jurisdiction(
    id: Id, tier: Tier, platform: Platform, gate: Gate, hasPortal: bool, paperOnly: bool, automationApproved: bool)

  datatype Blocker =
    | NoPublicApi | VendorPartner | AgencyPurchase | AgencyApproval | ConfigMapping | CredentialsMissing
    | NoPortal | PortalUnverified | TosUnreviewed

  datatype Owner = Agency | Vendor | Us

  datatype Readiness = Readiness(
    id: Id, current: Pathway, target: Pathway, blockers: seq<Blocker>, weeks: nat, priority: int, phase: nat,
    share: real)

  function Rank(p: Pathway): int {
    match p case Manual => 0 case Rpa => 1 case Api => 2
  }

  function PathwayForTier(tier: Tier): Pathway {
    if tier == ApiLive then Api else if tier == RpaTier then Rpa else Manual
  }

  function TargetPathwayFor(j: Jurisdiction): Pathway {
    if j.paperOnly || j.platform == NoPlatform then Manual
    else if j.gate.publicApi then Api
    else if j.gate.agencyPurchase || j.gate.vendorPartner then Api
    else if j.hasPortal then Rpa
    else Manual
  }

  // ---- what stands in the way ----

  predicate NeedsApi(j: Jurisdiction) {
    TargetPathwayFor(j) == Api && PathwayForTier(j.tier) != Api
  }

  predicate NeedsPortal(j: Jurisdiction) {
    TargetPathwayFor(j) == Rpa || (TargetPathwayFor(j) == Api && PathwayForTier(j.tier) == Manual)
  }

  /** When each blocker applies. */
  predicate Blocked(b: Blocker, j: Jurisdiction, hasCredentials: bool) {
    match b
    case NoPublicApi => NeedsApi(j) && !j.gate.publicApi
    case VendorPartner => NeedsApi(j) && j.gate.vendorPartner
    case AgencyPurchase => NeedsApi(j) && j.gate.agencyPurchase
    case AgencyApproval => NeedsApi(j) && j.gate.agencyApproval
    case ConfigMapping => NeedsApi(j) && j.platform == Accela
    case CredentialsMissing => NeedsApi(j) && !hasCredentials
    case NoPortal => NeedsPortal(j) && !j.hasPortal && j.paperOnly
    case PortalUnverified => NeedsPortal(j) && !j.hasPortal && !j.paperOnly
    case TosUnreviewed => NeedsPortal(j) && !j.automationApproved && !j.paperOnly
  }

  function OwnerOf(b: Blocker): Owner {
    match b
    case NoPublicApi => Vendor
    case VendorPartner => Vendor
    case AgencyPurchase => Agency
    case AgencyApproval => Agency
    case _ => Us
  }

  /** Calendar weeks a blocker adds. */
  function WeeksFor(b: Blocker): nat {
    match b
    case NoPublicApi => 4
    case VendorPartner => 6
    case AgencyPurchase => 20
    case AgencyApproval => 10
    case ConfigMapping => 2
    case CredentialsMissing => 0
    case NoPortal => 0
    case PortalUnverified => 1
    case TosUnreviewed => 1
  }

  function TotalWeeks(bs: seq<Blocker>): nat {
    if bs == [] then 0 else TotalWeeks(bs[..|bs| - 1]) + WeeksFor(bs[|bs| - 1])
  }

  lemma WeeksSnoc(bs: seq<Blocker>, b: Blocker)
    ensures TotalWeeks(bs + [b]) == TotalWeeks(bs) + WeeksFor(b)
  {
    assert (bs + [b])[..|bs|] == bs;
  }

  function ShareOf(ourVolume: nat, totalVolume: nat): (s: real)
    ensures s >= 0.0
  {
    if totalVolume > 0 then ourVolume as real / totalVolume as real else 0.0
  }

  /** `Math.round(Math.min(100, share * 100 * Math.max(lift, 0) * effortDamp * 3))` */
  function Priority(share: real, lift: int, weeks: nat): int {
    Round(AtMost(100.0, Weight(share, lift) * Damp(weeks) * 3.0))
  }

  function Weight(share: real, lift: int): real {
    share * 100.0 * Max(lift, 0) as real
  }

  function Damp(weeks: nat): real {
    1.0 / (1.0 + weeks as real / 12.0)
  }

  function Round(x: real): int {
    (x + 0.5).Floor
  }

  function AtMost(a: real, b: real): real {
    if b < a then b else a
  }

  function Lift(j: Jurisdiction): int {
    Rank(TargetPathwayFor(j)) - Rank(PathwayForTier(j.tier))
  }

  function Phase(j: Jurisdiction): nat {
    if j.paperOnly then 3
    else if Lift(j) <= 0 then (if PathwayForTier(j.tier) == Api then 1 else 2)
    else if TargetPathwayFor(j) == Api then 1 else 2
  }

  /** The order in which blockers are looked for. */
  function Turn(b: Blocker): (n: nat)
    ensures n < 9
  {
    match b
    case NoPublicApi => 0
    case VendorPartner => 1
    case AgencyPurchase => 2
    case AgencyApproval => 3
    case ConfigMapping => 4
    case CredentialsMissing => 5
    case NoPortal => 6
    case PortalUnverified => 7
    case TosUnreviewed => 8
  }

  function BlockerAt(n: nat): (b: Blocker)
    requires n < 9
    ensures Turn(b) == n
  {
    if n == 0 then NoPublicApi else if n == 1 then VendorPartner else if n == 2 then AgencyPurchase
    else if n == 3 then AgencyApproval else if n == 4 then ConfigMapping else if n == 5 then CredentialsMissing
    else if n == 6 then NoPortal else if n == 7 then PortalUnverified else TosUnreviewed
  }

  /** The blockers that apply, among the first n looked for. */
  function BlockersTo(j: Jurisdiction, hasCredentials: bool, n: nat): seq<Blocker>
    requires n <= 9
  {
    if n == 0 then []
    else BlockersTo(j, hasCredentials, n - 1)
         + if Blocked(BlockerAt(n - 1), j, hasCredentials) then [BlockerAt(n - 1)] else []
  }

  ghost predicate Assessed(j: Jurisdiction, ourVolume: nat, totalVolume: nat, hasCredentials: bool, r: Readiness) {
    && r.id == j.id && r.current == PathwayForTier(j.tier) && r.target == TargetPathwayFor(j)
    && r.blockers == BlockersTo(j, hasCredentials, 9)
    && r.weeks == TotalWeeks(r.blockers)
    && r.share == ShareOf(ourVolume, totalVolume)
    && r.priority == Priority(r.share, Lift(j), r.weeks)
    && r.phase == Phase(j)
  }

  lemma {:induction false} CountOfBlocker(j: Jurisdiction, hasCredentials: bool, n: nat, b: Blocker)
    requires n <= 9
    ensures multiset(BlockersTo(j, hasCredentials, n))[b]
            == if Blocked(b, j, hasCredentials) && Turn(b) < n then 1 else 0
  {
    hide Blocked;
    if n > 0 {
      CountOfBlocker(j, hasCredentials, n - 1, b);
      TurnIsUnique(b, BlockerAt(n - 1));
    }
  }

  lemma TurnIsUnique(a: Blocker, b: Blocker)
    ensures Turn(a) == Turn(b) <==> a == b
  {
  }

  /** An assessment lists each blocker that applies, exactly once. */
  lemma EachBlockerOnce(j: Jurisdiction, ourVolume: nat, totalVolume: nat, hasCredentials: bool, r: Readiness)
    requires Assessed(j, ourVolume, totalVolume, hasCredentials, r)
    ensures forall b :: multiset(r.blockers)[b] == if Blocked(b, j, hasCredentials) then 1 else 0
  {
    hide Blocked, Priority;
    forall b ensures multiset(r.blockers)[b] == if Blocked(b, j, hasCredentials) then 1 else 0 {
      CountOfBlocker(j, hasCredentials, 9, b);
    }
  }

  /** The first n blockers have been looked for. */
  ghost predicate Looked(j: Jurisdiction, hasCredentials: bool, n: nat, blockers: seq<Blocker>, weeks: nat) {
    n <= 9 && blockers == BlockersTo(j, hasCredentials, n) && weeks == TotalWeeks(blockers)
  }

  /** The next blocker looked for is listed, and its weeks added, if it applies. */
  lemma Look(j: Jurisdiction, hasCredentials: bool, blockers: seq<Blocker>, weeks: nat, b: Blocker)
    requires Looked(j, hasCredentials, Turn(b), blockers, weeks)
    ensures Blocked(b, j, hasCredentials) ==>
            Looked(j, hasCredentials, Turn(b) + 1, blockers + [b], weeks + WeeksFor(b))
    ensures !Blocked(b, j, hasCredentials) ==> Looked(j, hasCredentials, Turn(b) + 1, blockers, weeks)
  {
    hide Blocked, Turn, BlockerAt, TotalWeeks, WeeksFor;
    TurnIsUnique(b, BlockerAt(Turn(b)));
    WeeksSnoc(blockers, b);
  }

  lemma NothingLooked(j: Jurisdiction, hasCredentials: bool)
    ensures Looked(j, hasCredentials, 0, [], 0)
  {
  }

  lemma LookedAtAll(j: Jurisdiction, hasCredentials: bool, blockers: seq<Blocker>, weeks: nat)
    requires Looked(j, hasCredentials, 9, blockers, weeks)
    ensures blockers == BlockersTo(j, hasCredentials, 9) && weeks == TotalWeeks(blockers)
  {
  }

  /** An API lies behind some gate there. */
  predicate ApiInReach(j: Jurisdiction) {
    && !j.paperOnly && j.platform != NoPlatform
    && (j.gate.publicApi || j.gate.agencyPurchase || j.gate.vendorPartner)
  }

  /** Which blockers an assessment lists, from the columns of the jurisdiction. */
  predicate InTheWay(b: Blocker, j: Jurisdiction, hasCredentials: bool) {
    var ahead := ApiInReach(j) && j.tier != ApiLive;
    var throughPortal := if ApiInReach(j) then j.tier != ApiLive && j.tier != RpaTier
                         else !j.paperOnly && j.platform != NoPlatform && j.hasPortal;
    match b
    case NoPublicApi => ahead && !j.gate.publicApi
    case VendorPartner => ahead && j.gate.vendorPartner
    case AgencyPurchase => ahead && j.gate.agencyPurchase
    case AgencyApproval => ahead && j.gate.agencyApproval
    case ConfigMapping => ahead && j.platform == Accela
    case CredentialsMissing => ahead && !hasCredentials
    case NoPortal => false
    case PortalUnverified => throughPortal && !j.hasPortal
    case TosUnreviewed => throughPortal && !j.automationApproved
  }

  function If(b: Blocker, j: Jurisdiction, hasCredentials: bool): seq<Blocker> {
    if InTheWay(b, j, hasCredentials) then [b] else []
  }

  function Costs(weeks: nat, b: Blocker, j: Jurisdiction, hasCredentials: bool): nat {
    if InTheWay(b, j, hasCredentials) then weeks else 0
  }

  function Step(p: Pathway): int {
    if p == Api then 2 else if p == Rpa then 1 else 0
  }

  /** What an assessment says, from the columns of the jurisdiction. */
  ghost predicate Described(j: Jurisdiction, ourVolume: nat, totalVolume: nat, c: bool, r: Readiness) {
    && r.id == j.id
    && (r.current == Api <==> j.tier == ApiLive) && (r.current == Rpa <==> j.tier == RpaTier)
    && (r.target == Api <==> ApiInReach(j))
    && (r.target == Rpa <==> !ApiInReach(j) && !j.paperOnly && j.platform != NoPlatform && j.hasPortal)
    && r.blockers == If(NoPublicApi, j, c) + If(VendorPartner, j, c) + If(AgencyPurchase, j, c)
                     + If(AgencyApproval, j, c) + If(ConfigMapping, j, c) + If(CredentialsMissing, j, c)
                     + If(PortalUnverified, j, c) + If(TosUnreviewed, j, c)
    && r.weeks == Costs(4, NoPublicApi, j, c) + Costs(6, VendorPartner, j, c) + Costs(20, AgencyPurchase, j, c)
                  + Costs(10, AgencyApproval, j, c) + Costs(2, ConfigMapping, j, c)
                  + Costs(1, PortalUnverified, j, c) + Costs(1, TosUnreviewed, j, c)
    && (totalVolume > 0 ==> Filings(r.share, totalVolume) == ourVolume as real)
    && (totalVolume == 0 ==> r.share == 0.0)
    && r.priority == Priority(r.share, Step(r.target) - Step(r.current), r.weeks)
    && r.phase == (if j.paperOnly then 3 else if r.target == Api || r.current == Api then 1 else 2)
  }

  lemma InTheWayIff(b: Blocker, j: Jurisdiction, hasCredentials: bool)
    ensures Blocked(b, j, hasCredentials) <==> InTheWay(b, j, hasCredentials)
  {
  }

  /** The next blocker, and its weeks. */
  lemma NextIs(j: Jurisdiction, c: bool, n: nat)
    requires 0 < n <= 9
    ensures BlockersTo(j, c, n) == BlockersTo(j, c, n - 1) + If(BlockerAt(n - 1), j, c)
    ensures TotalWeeks(BlockersTo(j, c, n))
            == TotalWeeks(BlockersTo(j, c, n - 1)) + Costs(WeeksFor(BlockerAt(n - 1)), BlockerAt(n - 1), j, c)
  {
    hide Blocked, InTheWay, TotalWeeks;
    InTheWayIff(BlockerAt(n - 1), j, c);
    var before := BlockersTo(j, c, n - 1);
    WeeksSnoc(before, BlockerAt(n - 1));
    assert before + [] == before;
  }

  /** The blockers on the way to an API, in order. */
  lemma ApiBlockersAre(j: Jurisdiction, c: bool)
    ensures BlockersTo(j, c, 6)
            == If(NoPublicApi, j, c) + If(VendorPartner, j, c) + If(AgencyPurchase, j, c) + If(AgencyApproval, j, c)
               + If(ConfigMapping, j, c) + If(CredentialsMissing, j, c)
    ensures TotalWeeks(BlockersTo(j, c, 6))
            == Costs(4, NoPublicApi, j, c) + Costs(6, VendorPartner, j, c) + Costs(20, AgencyPurchase, j, c)
               + Costs(10, AgencyApproval, j, c) + Costs(2, ConfigMapping, j, c)
  {
    assert BlockersTo(j, c, 0) == [] && TotalWeeks([]) == 0;
    hide InTheWay, BlockersTo, TotalWeeks, If;
    NextIs(j, c, 1);
    NextIs(j, c, 2);
    NextIs(j, c, 3);
    NextIs(j, c, 4);
    NextIs(j, c, 5);
    NextIs(j, c, 6);
  }

  lemma NoPortalIsFree(j: Jurisdiction, c: bool)
    ensures If(NoPortal, j, c) == [] && Costs(0, NoPortal, j, c) == 0
  {
  }

  lemma PortalBlockersAre(j: Jurisdiction, c: bool)
    ensures BlockersTo(j, c, 9)
            == BlockersTo(j, c, 6) + If(PortalUnverified, j, c) + If(TosUnreviewed, j, c)
    ensures TotalWeeks(BlockersTo(j, c, 9))
            == TotalWeeks(BlockersTo(j, c, 6)) + Costs(1, PortalUnverified, j, c) + Costs(1, TosUnreviewed, j, c)
  {
    hide InTheWay, BlockersTo, TotalWeeks, If;
    NoPortalIsFree(j, c);
    NextIs(j, c, 7);
    NextIs(j, c, 8);
    NextIs(j, c, 9);
  }

  lemma PathwaysAre(j: Jurisdiction)
    ensures PathwayForTier(j.tier) == Api <==> j.tier == ApiLive
    ensures PathwayForTier(j.tier) == Rpa <==> j.tier == RpaTier
    ensures TargetPathwayFor(j) == Api <==> ApiInReach(j)
    ensures TargetPathwayFor(j) == Rpa
       <==> !ApiInReach(j) && !j.paperOnly && j.platform != NoPlatform && j.hasPortal
    ensures Phase(j) == if j.paperOnly then 3
                        else if TargetPathwayFor(j) == Api || PathwayForTier(j.tier) == Api then 1 else 2
    ensures Lift(j) == Step(TargetPathwayFor(j)) - Step(PathwayForTier(j.tier))
  {
  }

  lemma AssessedIsDescribed(j: Jurisdiction, ourVolume: nat, totalVolume: nat, c: bool, r: Readiness)
    requires Assessed(j, ourVolume, totalVolume, c, r)
    ensures Described(j, ourVolume, totalVolume, c, r)
  {
    hide BlockersTo, TotalWeeks, InTheWay, If, Costs, Priority, ApiInReach, Phase, Lift, Filings, TargetPathwayFor;
    PathwaysAre(j);
    ApiBlockersAre(j, c);
    PortalBlockersAre(j, c);
    if totalVolume > 0 {
      ShareOfVolume(j, ourVolume, totalVolume, c, r);
    }
  }

  method AssessReadiness(j: Jurisdiction, ourVolume: nat, totalVolume: nat, hasCredentials: bool) returns (r: Readiness)
    ensures Assessed(j, ourVolume, totalVolume, hasCredentials, r)
    ensures Described(j, ourVolume, totalVolume, hasCredentials, r)
  {
    hide Looked, BlockersTo, TotalWeeks, Priority, ShareOf, Described;
    var current, target := PathwayForTier(j.tier), TargetPathwayFor(j);
    var blockers, weeks := ApiBlockers(j, hasCredentials);
    if target == Rpa || (target == Api && current == Manual) {
      Look(j, hasCredentials, blockers, weeks, NoPortal);
      Look(j, hasCredentials, blockers, weeks, PortalUnverified);
      if !j.hasPortal {
        blockers := blockers + [if j.paperOnly then NoPortal else PortalUnverified];
        weeks := weeks + if j.paperOnly then 0 else 1;
      }
      Look(j, hasCredentials, blockers, weeks, TosUnreviewed);
      if !j.automationApproved && !j.paperOnly {
        blockers, weeks := blockers + [TosUnreviewed], weeks + 1;
      }
    } else {
      Look(j, hasCredentials, blockers, weeks, NoPortal);
      Look(j, hasCredentials, blockers, weeks, PortalUnverified);
      Look(j, hasCredentials, blockers, weeks, TosUnreviewed);
    }
    LookedAtAll(j, hasCredentials, blockers, weeks);
    var share := ShareOf(ourVolume, totalVolume);
    var lift := Rank(target) - Rank(current);
    r := Readiness(j.id, current, target, blockers, weeks, Priority(share, lift, weeks), Phase(j), share);
    AssessedIsDescribed(j, ourVolume, totalVolume, hasCredentials, r);
  }

  /** The six blockers on the way to an API. */
  method ApiBlockers(j: Jurisdiction, hasCredentials: bool) returns (blockers: seq<Blocker>, weeks: nat)
    ensures Looked(j, hasCredentials, 6, blockers, weeks)
  {
    hide Looked, NeedsApi;
    blockers, weeks := [], 0;
    NothingLooked(j, hasCredentials);
    if !NeedsApi(j) {
      NoApiBlockers(j, hasCredentials);
      return;
    }
    Look(j, hasCredentials, blockers, weeks, NoPublicApi);
    if !j.gate.publicApi {
      blockers, weeks := blockers + [NoPublicApi], weeks + 4;
    }
    Look(j, hasCredentials, blockers, weeks, VendorPartner);
    if j.gate.vendorPartner {
      blockers, weeks := blockers + [VendorPartner], weeks + 6;
    }
    Look(j, hasCredentials, blockers, weeks, AgencyPurchase);
    if j.gate.agencyPurchase {
      blockers, weeks := blockers + [AgencyPurchase], weeks + 20;
    }
    Look(j, hasCredentials, blockers, weeks, AgencyApproval);
    if j.gate.agencyApproval {
      blockers, weeks := blockers + [AgencyApproval], weeks + 10;
    }
    Look(j, hasCredentials, blockers, weeks, ConfigMapping);
    if j.platform == Accela {
      blockers, weeks := blockers + [ConfigMapping], weeks + 2;
    }
    Look(j, hasCredentials, blockers, weeks, CredentialsMissing);
    if !hasCredentials {
      blockers := blockers + [CredentialsMissing];
    }
  }

  lemma NoApiBlockers(j: Jurisdiction, hasCredentials: bool)
    requires !NeedsApi(j)
    ensures Looked(j, hasCredentials, 6, [], 0)
  {
    hide Looked, NeedsApi;
    NothingLooked(j, hasCredentials);
    Look(j, hasCredentials, [], 0, NoPublicApi);
    Look(j, hasCredentials, [], 0, VendorPartner);
    Look(j, hasCredentials, [], 0, AgencyPurchase);
    Look(j, hasCredentials, [], 0, AgencyApproval);
    Look(j, hasCredentials, [], 0, ConfigMapping);
    Look(j, hasCredentials, [], 0, CredentialsMissing);
  }

  /** A paper-only jurisdiction is never headed for a portal, so "no online portal exists" is never reported. */
  lemma NoPortalIsNeverReported(j: Jurisdiction, hasCredentials: bool)
    ensures !Blocked(NoPortal, j, hasCredentials)
  {
  }

  /**
   * Every blocker is ours to clear exactly when nobody outside gates the API; and there is one exactly in these
   * cases.
   */
  lemma OursAloneIff(j: Jurisdiction, hasCredentials: bool)
    ensures (forall b :: Blocked(b, j, hasCredentials) ==> OwnerOf(b) == Us)
       <==> (NeedsApi(j) ==> j.gate == Gate(true, false, false, false))
    ensures (exists b :: Blocked(b, j, hasCredentials))
       <==> ((NeedsApi(j) && (j.gate != Gate(true, false, false, false) || j.platform == Accela || !hasCredentials))
             || (NeedsPortal(j) && (!j.hasPortal || !j.automationApproved)))
  {
    if NeedsApi(j) {
      assert j.gate.publicApi || Blocked(NoPublicApi, j, hasCredentials);
      assert j.gate.vendorPartner ==> Blocked(VendorPartner, j, hasCredentials);
      assert j.gate.agencyPurchase ==> Blocked(AgencyPurchase, j, hasCredentials);
      assert j.gate.agencyApproval ==> Blocked(AgencyApproval, j, hasCredentials);
      assert j.platform == Accela ==> Blocked(ConfigMapping, j, hasCredentials);
      assert hasCredentials || Blocked(CredentialsMissing, j, hasCredentials);
    }
    if NeedsPortal(j) {
      assert j.hasPortal || Blocked(PortalUnverified, j, hasCredentials);
      assert j.automationApproved || Blocked(TosUnreviewed, j, hasCredentials);
    }
  }

  // ---- priority ----

  lemma ProductsGrow(a: real, b: real, c: real, d: real)
    requires 0.0 <= a <= b && 0.0 <= c <= d
    ensures 0.0 <= a * c <= b * d
  {
    assert (b - a) * c >= 0.0 && b * (d - c) >= 0.0;
  }

  lemma Cancel(x: real, y: real, a: real)
    requires a > 0.0 && y * a <= x * a
    ensures y <= x
  {
    assert y * a - x * a == (y - x) * a;
  }

  lemma Reciprocal(a: real, b: real)
    requires 0.0 < a <= b
    ensures 0.0 < 1.0 / b <= 1.0 / a
  {
    var x, y := 1.0 / a, 1.0 / b;
    assert x * a == 1.0 && y * b == 1.0;
    assert y > 0.0;
    assert y * (b - a) >= 0.0;
    Cancel(x, y, a);
  }

  lemma DampShrinks(more: nat, fewer: nat)
    requires more >= fewer
    ensures 0.0 < Damp(more) <= Damp(fewer) <= 1.0
  {
    Reciprocal(1.0, 1.0 + fewer as real / 12.0);
    Reciprocal(1.0 + fewer as real / 12.0, 1.0 + more as real / 12.0);
  }

  /**
   * More volume, a greater lift or fewer weeks never lowers the priority; it stays in 0..100, and is 0 without lift.
   */
  lemma PriorityIsMonotone(share: real, lift: int, weeks: nat, share': real, lift': int, weeks': nat)
    requires 0.0 <= share <= share' && lift <= lift' && weeks' <= weeks
    ensures 0 <= Priority(share, lift, weeks) <= Priority(share', lift', weeks') <= 100
    ensures lift <= 0 || share == 0.0 ==> Priority(share, lift, weeks) == 0
  {
    WeightGrows(share, lift, share', lift');
    DampShrinks(weeks, weeks');
    var w, w', d, d' := Weight(share, lift), Weight(share', lift'), Damp(weeks), Damp(weeks');
    hide Weight, Damp;
    ProductsGrow(w, w', d, d');
  }

  /**
   * The priority in whole numbers: 3600 times share and lift over twelve and the weeks, rounded, and 100 at most.
   */
  lemma PriorityIs(share: real, lift: int, weeks: nat)
    requires share >= 0.0
    ensures var worth, w, p := 3600.0 * share * Max(lift, 0) as real, (12 + weeks) as real,
                               Priority(share, lift, weeks) as real;
            && (worth >= 100.0 * w ==> p == 100.0)
            && (worth < 100.0 * w ==> (2.0 * p - 1.0) * w <= 2.0 * worth < (2.0 * p + 1.0) * w)
  {
    var worth, w := 3600.0 * share * Max(lift, 0) as real, (12 + weeks) as real;
    var x := Weight(share, lift) * Damp(weeks) * 3.0;
    DampOf(weeks);
    Rescaled(Weight(share, lift), Damp(weeks), w);
    assert worth == 36.0 * Weight(share, lift);
    assert Priority(share, lift, weeks) == Round(AtMost(100.0, x)) by {
      hide Round, AtMost, Weight, Damp;
    }
    hide Round, AtMost, Weight, Damp;
    RoundedQuotient(x, w, worth, Priority(share, lift, weeks) as real);
  }

  lemma DampOf(weeks: nat)
    ensures Damp(weeks) * (12 + weeks) as real == 12.0
  {
    var a := 1.0 + weeks as real / 12.0;
    assert 12.0 * a == (12 + weeks) as real;
    var d := Damp(weeks);
    assert d * a == 1.0;
    Thrice(d, a);
  }

  lemma Thrice(d: real, a: real)
    ensures d * (12.0 * a) == 12.0 * (d * a)
  {
  }

  lemma Rescaled(weight: real, damp: real, w: real)
    requires damp * w == 12.0
    ensures weight * damp * 3.0 * w == 36.0 * weight
  {
    assert weight * damp * 3.0 * w == 3.0 * weight * (damp * w);
  }

  lemma AtTheTop(x: real, w: real, worth: real)
    requires w > 0.0 && x * w == worth
    ensures worth >= 100.0 * w <==> x >= 100.0
  {
    var over := x - 100.0;
    assert over * w == worth - 100.0 * w;
    assert over >= 0.0 ==> over * w >= 0.0;
    assert over < 0.0 ==> (-over) * w > 0.0;
  }

  lemma RoundedQuotient(x: real, w: real, worth: real, p: real)
    requires w > 0.0 && x * w == worth && p == Round(AtMost(100.0, x)) as real
    ensures worth >= 100.0 * w ==> p == 100.0
    ensures worth < 100.0 * w ==> (2.0 * p - 1.0) * w <= 2.0 * worth < (2.0 * p + 1.0) * w
  {
    AtTheTop(x, w, worth);
    if worth < 100.0 * w {
      var low, high := x - (p - 0.5), p + 0.5 - x;
      assert low >= 0.0 && high > 0.0;
      assert low * w >= 0.0 && high * w > 0.0;
      assert low * w == worth - (p - 0.5) * w;
      assert high * w == (p + 0.5) * w - worth;
      Doubled(p, w);
    }
  }

  lemma Doubled(p: real, w: real)
    ensures (2.0 * p - 1.0) * w == 2.0 * ((p - 0.5) * w)
    ensures (2.0 * p + 1.0) * w == 2.0 * ((p + 0.5) * w)
  {
  }

  lemma WeightGrows(share: real, lift: int, share': real, lift': int)
    requires 0.0 <= share <= share' && lift <= lift'
    ensures 0.0 <= Weight(share, lift) <= Weight(share', lift')
    ensures lift <= 0 || share == 0.0 ==> Weight(share, lift) == 0.0
  {
    ProductsGrow(share * 100.0, share' * 100.0, Max(lift, 0) as real, Max(lift', 0) as real);
  }

  // ---- sorting ----

  datatype Order = ByPriority | ByShare

  /** `a` goes strictly before `b`. */
  predicate Before(o: Order, a: Readiness, b: Readiness) {
    match o
    case ByPriority => a.priority > b.priority || (a.priority == b.priority && a.share > b.share)
    case ByShare => a.share > b.share
  }

  /** Where a later item goes among sorted ones: after everything it does not precede. */
  function Place(o: Order, sorted: seq<Readiness>, x: Readiness): (p: nat)
    ensures p <= |sorted|
    ensures p < |sorted| ==> Before(o, x, sorted[p])
    ensures forall i :: 0 <= i < p ==> !Before(o, x, sorted[i])
  {
    if sorted == [] || Before(o, x, sorted[0]) then 0 else 1 + Place(o, sorted[1..], x)
  }

  function Inserted(o: Order, sorted: seq<Readiness>, x: Readiness): (s: seq<Readiness>)
    ensures |s| == |sorted| + 1
  {
    var p := Place(o, sorted, x);
    sorted[..p] + [x] + sorted[p..]
  }

  function Sorted(o: Order, items: seq<Readiness>, n: nat): (s: seq<Readiness>)
    requires n <= |items|
    ensures |s| == n
  {
    if n == 0 then [] else Inserted(o, Sorted(o, items, n - 1), items[n - 1])
  }

  ghost predicate InOrder(o: Order, s: seq<Readiness>) {
    forall i, j :: 0 <= i < j < |s| ==> !Before(o, s[j], s[i])
  }

  lemma NotBefore(o: Order, x: Readiness, y: Readiness, z: Readiness)
    requires Before(o, x, y) && !Before(o, z, y)
    ensures !Before(o, z, x)
  {
  }

  lemma JoinInOrder(o: Order, a: seq<Readiness>, b: seq<Readiness>)
    requires InOrder(o, a) && InOrder(o, b)
    requires forall i, j :: 0 <= i < |a| && 0 <= j < |b| ==> !Before(o, b[j], a[i])
    ensures InOrder(o, a + b)
  {
    hide Before;
  }

  lemma PartInOrder(o: Order, s: seq<Readiness>, a: nat, b: nat)
    requires InOrder(o, s) && a <= b <= |s|
    ensures InOrder(o, s[a..b])
  {
    hide Before;
  }

  lemma InsertedInOrder(o: Order, s: seq<Readiness>, x: Readiness)
    requires InOrder(o, s)
    ensures InOrder(o, Inserted(o, s, x)) && multiset(Inserted(o, s, x)) == multiset(s) + multiset{x}
  {
    hide Before, Place;
    var p := Place(o, s, x);
    var front, back := s[..p], s[p..];
    assert s == front + back;
    forall i | 0 <= i < |back| ensures !Before(o, back[i], x) {
      if i == 0 {
        BeforeIsOneWay(o, x, s[p]);
      } else {
        NotBefore(o, x, s[p], s[p + i]);
      }
    }
    PartInOrder(o, s, 0, p);
    PartInOrder(o, s, p, |s|);
    JoinInOrder(o, front, [x]);
    forall i, j | 0 <= i < |front + [x]| && 0 <= j < |back| ensures !Before(o, back[j], (front + [x])[i]) {
      assert i < p ==> (front + [x])[i] == s[i];
      assert back[j] == s[p + j];
    }
    JoinInOrder(o, front + [x], back);
  }

  lemma BeforeIsOneWay(o: Order, x: Readiness, y: Readiness)
    requires Before(o, x, y)
    ensures !Before(o, y, x)
  {
  }

  lemma {:induction false} SortedIsSorted(o: Order, items: seq<Readiness>, n: nat)
    requires n <= |items|
    ensures InOrder(o, Sorted(o, items, n)) && multiset(Sorted(o, items, n)) == multiset(items[..n])
  {
    hide Before, Inserted;
    if n > 0 {
      SortedIsSorted(o, items, n - 1);
      InsertedInOrder(o, Sorted(o, items, n - 1), items[n - 1]);
      assert items[..n] == items[..n - 1] + [items[n - 1]];
    }
  }

  predicate Tied(o: Order, a: Readiness, b: Readiness) {
    !Before(o, a, b) && !Before(o, b, a)
  }

  /** The items tied with x, in order. */
  function Ties(o: Order, s: seq<Readiness>, x: Readiness): seq<Readiness> {
    if s == [] then []
    else Ties(o, s[..|s| - 1], x) + if Tied(o, s[|s| - 1], x) then [s[|s| - 1]] else []
  }

  lemma {:induction false} TiesJoin(o: Order, a: seq<Readiness>, b: seq<Readiness>, x: Readiness)
    ensures Ties(o, a + b, x) == Ties(o, a, x) + Ties(o, b, x)
  {
    hide Tied;
    if b == [] {
      assert a + b == a;
    } else {
      TiesJoin(o, a, b[..|b| - 1], x);
      assert (a + b)[..|a + b| - 1] == a + b[..|b| - 1];
    }
  }

  lemma {:induction false} NoTies(o: Order, s: seq<Readiness>, x: Readiness)
    requires forall i :: 0 <= i < |s| ==> !Tied(o, s[i], x)
    ensures Ties(o, s, x) == []
  {
    hide Tied;
    if s != [] {
      NoTies(o, s[..|s| - 1], x);
    }
  }

  lemma InsertedKeepsTies(o: Order, s: seq<Readiness>, y: Readiness, x: Readiness)
    requires InOrder(o, s)
    ensures Ties(o, Inserted(o, s, y), x) == Ties(o, s + [y], x)
  {
    hide Before, Tied, Place, Ties;
    var p := Place(o, s, y);
    var front, back := s[..p], s[p..];
    assert s == front + back;
    TiesJoin(o, front + [y], back, x);
    TiesJoin(o, front, [y], x);
    TiesJoin(o, s, [y], x);
    TiesJoin(o, front, back, x);
    if Tied(o, y, x) {
      forall i | 0 <= i < |back| ensures !Tied(o, back[i], x) {
        assert back[i] == s[p + i];
        TiedBehind(o, y, s[p], s[p + i], x);
      }
      NoTies(o, back, x);
    } else {
      NoTies(o, [y], x);
    }
  }

  lemma TiedBehind(o: Order, y: Readiness, first: Readiness, z: Readiness, x: Readiness)
    requires Before(o, y, first) && (z == first || !Before(o, z, first)) && Tied(o, y, x)
    ensures !Tied(o, z, x)
  {
  }

  /** Sorting leaves tied items in the order they came in. */
  lemma {:induction false} SortingIsStable(o: Order, items: seq<Readiness>, n: nat, x: Readiness)
    requires n <= |items|
    ensures Ties(o, Sorted(o, items, n), x) == Ties(o, items[..n], x)
  {
    hide Before, Tied, Inserted, Ties, InOrder;
    if n > 0 {
      var s, y := Sorted(o, items, n - 1), items[n - 1];
      SortingIsStable(o, items, n - 1, x);
      SortedIsSorted(o, items, n - 1);
      InsertedKeepsTies(o, s, y, x);
      TiesJoin(o, s, [y], x);
      TiesJoin(o, items[..n - 1], [y], x);
      assert items[..n] == items[..n - 1] + [y];
    }
  }

  // ---- sums of shares ----

  function ShareTo(items: seq<Readiness>, n: nat): real
    requires n <= |items|
  {
    if n == 0 then 0.0 else ShareTo(items, n - 1) + items[n - 1].share
  }

  /** The share of the chosen ones among the first n. */
  function ShareOfSet(items: seq<Readiness>, n: nat, chosen: set<nat>): real
    requires n <= |items|
  {
    if n == 0 then 0.0 else ShareOfSet(items, n - 1, chosen) + if n - 1 in chosen then items[n - 1].share else 0.0
  }

  /** The share of those among the first n whose pathway, today or at target, is `p`. */
  function ShareOn(items: seq<Readiness>, n: nat, p: Pathway, atTarget: bool): real
    requires n <= |items|
  {
    if n == 0 then 0.0
    else ShareOn(items, n - 1, p, atTarget)
         + if (if atTarget then items[n - 1].target else items[n - 1].current) == p then items[n - 1].share else 0.0
  }

  /** Every share counts on exactly one pathway, today and at target. */
  lemma {:induction false} CoverageConserved(items: seq<Readiness>, n: nat, atTarget: bool)
    requires n <= |items|
    ensures ShareOn(items, n, Manual, atTarget) + ShareOn(items, n, Rpa, atTarget) + ShareOn(items, n, Api, atTarget)
         == ShareTo(items, n)
  {
    if n > 0 {
      CoverageConserved(items, n - 1, atTarget);
    }
  }

  lemma {:induction false} ShareToPrefix(a: seq<Readiness>, b: seq<Readiness>, n: nat)
    requires n <= |a| && n <= |b| && forall i :: 0 <= i < n ==> a[i] == b[i]
    ensures ShareTo(a, n) == ShareTo(b, n)
  {
    if n > 0 {
      ShareToPrefix(a, b, n - 1);
    }
  }

  /** Inserting at p: the first m now are the first m as before, or one fewer of those and the new one. */
  lemma {:induction false} SumOfInserted(o: Order, s: seq<Readiness>, x: Readiness, m: nat)
    requires m <= |s| + 1
    ensures m <= Place(o, s, x) ==> ShareTo(Inserted(o, s, x), m) == ShareTo(s, m)
    ensures m > Place(o, s, x) ==> ShareTo(Inserted(o, s, x), m) == ShareTo(s, m - 1) + x.share
  {
    var p, t := Place(o, s, x), Inserted(o, s, x);
    if m <= p {
      ShareToPrefix(t, s, m);
    } else if m == p + 1 {
      ShareToPrefix(t, s, p);
    } else {
      SumOfInserted(o, s, x, m - 1);
      assert t[m - 1] == s[m - 2];
    }
  }

  lemma {:induction false} SortKeepsTotal(o: Order, items: seq<Readiness>, n: nat)
    requires n <= |items|
    ensures ShareTo(Sorted(o, items, n), n) == ShareTo(items, n)
  {
    if n > 0 {
      SortKeepsTotal(o, items, n - 1);
      SumOfInserted(o, Sorted(o, items, n - 1), items[n - 1], n);
    }
  }

  /** No choice of m jurisdictions has a larger share than the m largest. */
  lemma {:induction false} LargestAreLargest(items: seq<Readiness>, n: nat, chosen: set<nat>, m: nat)
    requires n <= |items| && m == |chosen| && forall i :: i in chosen ==> i < n
    ensures m <= n && ShareOfSet(items, n, chosen) <= ShareTo(Sorted(ByShare, items, n), m)
    decreases n
  {
    hide Inserted, InOrder, Before;
    if n == 0 {
      assert chosen == {};
    } else {
      var s, x := Sorted(ByShare, items, n - 1), items[n - 1];
      var rest := chosen - {n - 1};
      SortedIsSorted(ByShare, items, n - 1);
      SameChoice(items, n - 1, chosen, rest);
      if n - 1 in chosen {
        LargestAreLargest(items, n - 1, rest, m - 1);
        InsertingHelps(s, x, m - 1);
      } else {
        assert rest == chosen;
        LargestAreLargest(items, n - 1, chosen, m);
        NotHurt(s, x, m);
      }
    }
  }

  lemma {:induction false} SameChoice(items: seq<Readiness>, n: nat, a: set<nat>, b: set<nat>)
    requires n <= |items| && forall i :: 0 <= i < n ==> (i in a <==> i in b)
    ensures ShareOfSet(items, n, a) == ShareOfSet(items, n, b)
  {
    if n > 0 {
      SameChoice(items, n - 1, a, b);
    }
  }

  lemma InsertingHelps(s: seq<Readiness>, x: Readiness, m: nat)
    requires InOrder(ByShare, s) && m <= |s|
    ensures ShareTo(Inserted(ByShare, s, x), m + 1) >= ShareTo(s, m) + x.share
  {
    SumOfInserted(ByShare, s, x, m + 1);
  }

  lemma NotHurt(s: seq<Readiness>, x: Readiness, m: nat)
    requires InOrder(ByShare, s) && m <= |s|
    ensures ShareTo(Inserted(ByShare, s, x), m) >= ShareTo(s, m)
  {
    SumOfInserted(ByShare, s, x, m);
    var p := Place(ByShare, s, x);
    if m > p {
      assert p == m - 1 || !Before(ByShare, s[m - 1], s[p]);
    }
  }

  /** The m largest are themselves a choice. */
  lemma {:induction false} LargestAreAChoice(items: seq<Readiness>, n: nat, m: nat) returns (chosen: set<nat>)
    requires m <= n <= |items|
    ensures |chosen| == m && forall i :: i in chosen ==> i < n
    ensures ShareOfSet(items, n, chosen) == ShareTo(Sorted(ByShare, items, n), m)
    decreases n
  {
    hide Inserted, Before, Place;
    if n == 0 {
      chosen := {};
    } else {
      var s, x := Sorted(ByShare, items, n - 1), items[n - 1];
      SumOfInserted(ByShare, s, x, m);
      if m <= Place(ByShare, s, x) {
        chosen := LargestAreAChoice(items, n - 1, m);
      } else {
        var rest := LargestAreAChoice(items, n - 1, m - 1);
        chosen := rest + {n - 1};
        SameChoice(items, n - 1, chosen, rest);
      }
    }
  }

  // ---- the 80% build list ----

  const ENOUGH := 0.8

  /** `k` is the least number of jurisdictions that together make 80%; all of them when even all do not. */
  ghost predicate LeastEnough(items: seq<Readiness>, k: nat) {
    && k <= |items|
    && (forall chosen: set<nat> :: (forall i :: i in chosen ==> i < |items|) && |chosen| < k ==>
          ShareOfSet(items, |items|, chosen) < 0.8)
    && (k < |items| || ShareTo(items, |items|) >= 0.8 ==>
          exists chosen: set<nat> :: (forall i :: i in chosen ==> i < |items|) && |chosen| == k
                                     && ShareOfSet(items, |items|, chosen) >= 0.8)
  }

  lemma {:induction false} PrefixesGrow(s: seq<Readiness>, m: nat, k: nat)
    requires m <= k <= |s| && forall i :: 0 <= i < |s| ==> s[i].share >= 0.0
    ensures ShareTo(s, m) <= ShareTo(s, k)
    decreases k
  {
    if m < k {
      PrefixesGrow(s, m, k - 1);
    }
  }

  lemma GreedyIsLeast(items: seq<Readiness>, k: nat)
    requires forall i :: 0 <= i < |items| ==> items[i].share >= 0.0
    requires var ranked := Sorted(ByShare, items, |items|);
             && k <= |ranked| && (0 < k ==> ShareTo(ranked, k - 1) < ENOUGH)
             && (k < |ranked| ==> ShareTo(ranked, k) >= ENOUGH)
    ensures LeastEnough(items, k)
  {
    hide Before, Sorted, InOrder;
    var n, ranked := |items|, Sorted(ByShare, items, |items|);
    SortedIsSorted(ByShare, items, n);
    assert items[..n] == items;
    forall i | 0 <= i < n ensures ranked[i].share >= 0.0 {
      assert ranked[i] in multiset(ranked);
    }
    forall chosen: set<nat> | (forall i :: i in chosen ==> i < n) && |chosen| < k
      ensures ShareOfSet(items, n, chosen) < ENOUGH
    {
      LargestAreLargest(items, n, chosen, |chosen|);
      PrefixesGrow(ranked, |chosen|, k - 1);
    }
    SortKeepsTotal(ByShare, items, n);
    if k < n || ShareTo(items, n) >= ENOUGH {
      var chosen := LargestAreAChoice(items, n, k);
    }
  }

  // ---- the summary ----

  datatype Coverage = Coverage(manual: real, rpa: real, api: real)

  datatype Summary = Summary(
    items: seq<Readiness>, totalVolume: nat, today: Coverage, atTarget: Coverage, for80: nat, quickWins: seq<Readiness>)

  function Plus(c: Coverage, p: Pathway, share: real): Coverage {
    match p
    case Manual => c.(manual := c.manual + share)
    case Rpa => c.(rpa := c.rpa + share)
    case Api => c.(api := c.api + share)
  }

  function CoverageOf(items: seq<Readiness>, n: nat, atTarget: bool): Coverage
    requires n <= |items|
  {
    Coverage(ShareOn(items, n, Manual, atTarget), ShareOn(items, n, Rpa, atTarget), ShareOn(items, n, Api, atTarget))
  }

  /** The entries of the volume table: every id once. */
  type Volumes = seq<(Id, nat)>

  ghost predicate Keyed(v: Volumes) {
    forall i, j :: 0 <= i < j < |v| ==> v[i].0 != v[j].0
  }

  function VolumeTo(v: Volumes, n: nat): nat
    requires n <= |v|
  {
    if n == 0 then 0 else VolumeTo(v, n - 1) + v[n - 1].1
  }

  /** `volumeByJurisdiction[id] ?? 0` */
  function VolumeOf(v: Volumes, n: nat, id: Id): nat
    requires n <= |v|
  {
    if n == 0 then 0 else if v[n - 1].0 == id then v[n - 1].1 else VolumeOf(v, n - 1, id)
  }

  predicate IsQuickWin(r: Readiness) {
    r.share > 0.0 && |r.blockers| > 0 && forall b :: b in r.blockers ==> OwnerOf(b) == Us
  }

  function QuickWinsIn(items: seq<Readiness>, n: nat): seq<Readiness>
    requires n <= |items|
  {
    if n == 0 then [] else QuickWinsIn(items, n - 1) + if IsQuickWin(items[n - 1]) then [items[n - 1]] else []
  }

  method BuildRoadmap(js: seq<Jurisdiction>, volumes: Volumes, credentialed: set<Id>)
      returns (s: Summary, ghost assessed: seq<Readiness>)
    ensures s.totalVolume == VolumeTo(volumes, |volumes|)
    ensures |assessed| == |js| && forall i :: 0 <= i < |js| ==>
              Assessed(js[i], VolumeOf(volumes, |volumes|, js[i].id), s.totalVolume, js[i].id in credentialed,
                       assessed[i])
    ensures s.items == Sorted(ByPriority, assessed, |assessed|)
    ensures s.today == CoverageOf(s.items, |s.items|, false) && s.atTarget == CoverageOf(s.items, |s.items|, true)
    ensures forall p :: On(s.today, p) == ShareOfSet(s.items, |s.items|, TodayOn(s.items, p))
    ensures forall p :: On(s.atTarget, p) == ShareOfSet(s.items, |s.items|, TargetOn(s.items, p))
    ensures LeastEnough(s.items, s.for80)
    ensures s.quickWins == QuickWinsIn(s.items, |s.items|)[..Min(10, |QuickWinsIn(s.items, |s.items|)|)]
  {
    var total := 0;
    for i := 0 to |volumes|
      invariant total == VolumeTo(volumes, i)
    {
      total := total + volumes[i].1;
    }
    var unsorted: seq<Readiness> := [];
    for i := 0 to |js|
      invariant |unsorted| == i
      invariant forall k :: 0 <= k < i ==>
                  Assessed(js[k], VolumeOf(volumes, |volumes|, js[k].id), total, js[k].id in credentialed, unsorted[k])
    {
      var r := AssessReadiness(js[i], VolumeOf(volumes, |volumes|, js[i].id), total, js[i].id in credentialed);
      unsorted := unsorted + [r];
    }
    hide Assessed;
    assessed := unsorted;
    var items := Sorted(ByPriority, unsorted, |unsorted|);
    ItemsHaveShares(js, volumes, credentialed, total, unsorted, items);
    var today, atTarget := Covered(items);
    CoverageIs(items, today, atTarget);
    var for80 := CountFor80(items);
    var wins := QuickWinsIn(items, |items|);
    s := Summary(items, total, today, atTarget, for80, wins[..Min(10, |wins|)]);
  }

  lemma {:induction false} ItemsHaveShares(js: seq<Jurisdiction>, volumes: Volumes, credentialed: set<Id>, total: nat,
      unsorted: seq<Readiness>, items: seq<Readiness>)
    requires |unsorted| == |js| && items == Sorted(ByPriority, unsorted, |unsorted|)
    requires forall k :: 0 <= k < |js| ==>
               Assessed(js[k], VolumeOf(volumes, |volumes|, js[k].id), total, js[k].id in credentialed, unsorted[k])
    ensures forall i :: 0 <= i < |items| ==> items[i].share >= 0.0
  {
    hide Before, Sorted, InOrder, VolumeOf;
    SortedIsSorted(ByPriority, unsorted, |unsorted|);
    assert unsorted[..|unsorted|] == unsorted;
    forall i | 0 <= i < |items| ensures items[i].share >= 0.0 {
      assert items[i] in multiset(items);
      var k :| 0 <= k < |unsorted| && unsorted[k] == items[i];
    }
  }

  function On(c: Coverage, p: Pathway): real {
    if p == Api then c.api else if p == Rpa then c.rpa else c.manual
  }

  /** The items on a pathway today. */
  function TodayOn(items: seq<Readiness>, p: Pathway): set<nat> {
    set i: nat | i < |items| && items[i].current == p
  }

  function TargetOn(items: seq<Readiness>, p: Pathway): set<nat> {
    set i: nat | i < |items| && items[i].target == p
  }

  lemma CoverageIs(items: seq<Readiness>, today: Coverage, atTarget: Coverage)
    requires today == CoverageOf(items, |items|, false) && atTarget == CoverageOf(items, |items|, true)
    ensures forall p :: On(today, p) == ShareOfSet(items, |items|, TodayOn(items, p))
    ensures forall p :: On(atTarget, p) == ShareOfSet(items, |items|, TargetOn(items, p))
  {
    forall p ensures On(today, p) == ShareOfSet(items, |items|, TodayOn(items, p)) {
      ShareOnIs(items, |items|, p, false, TodayOn(items, p));
    }
    forall p ensures On(atTarget, p) == ShareOfSet(items, |items|, TargetOn(items, p)) {
      ShareOnIs(items, |items|, p, true, TargetOn(items, p));
    }
  }

  lemma {:induction false} ShareOnIs(items: seq<Readiness>, n: nat, p: Pathway, atTarget: bool, chosen: set<nat>)
    requires n <= |items|
    requires forall i: nat :: i < n ==>
               (i in chosen <==> (if atTarget then items[i].target else items[i].current) == p)
    ensures ShareOn(items, n, p, atTarget) == ShareOfSet(items, n, chosen)
  {
    if n > 0 {
      ShareOnIs(items, n - 1, p, atTarget, chosen);
    }
  }

  /** Behind some filings, blocked, and by nobody outside. */
  predicate OursToClear(r: Readiness) {
    && r.share > 0.0 && r.blockers != []
    && NoPublicApi !in r.blockers && VendorPartner !in r.blockers
    && AgencyPurchase !in r.blockers && AgencyApproval !in r.blockers
  }

  lemma QuickWinIff(r: Readiness)
    ensures IsQuickWin(r) <==> OursToClear(r)
  {
  }

  /** The quick wins are the items that are ours to clear, in their order. */
  lemma {:induction false} QuickWinsAre(items: seq<Readiness>, n: nat) returns (at: seq<nat>)
    requires n <= |items|
    ensures |at| == |QuickWinsIn(items, n)| && forall k :: 0 <= k < |at| ==>
              at[k] < n && QuickWinsIn(items, n)[k] == items[at[k]]
    ensures forall j, k :: 0 <= j < k < |at| ==> at[j] < at[k]
    ensures forall i :: 0 <= i < n ==> (i in at <==> OursToClear(items[i]))
  {
    hide IsQuickWin, OursToClear;
    at := [];
    if n > 0 {
      at := QuickWinsAre(items, n - 1);
      QuickWinIff(items[n - 1]);
      if IsQuickWin(items[n - 1]) {
        at := at + [n - 1];
      }
    }
  }

  /** The volume table: what is filed under an id, and nothing under an id without entry. */
  lemma {:induction false} VolumeOfIs(v: Volumes, n: nat, id: Id)
    requires Keyed(v) && n <= |v|
    ensures forall i :: 0 <= i < n && v[i].0 == id ==> VolumeOf(v, n, id) == v[i].1
    ensures (forall i :: 0 <= i < n ==> v[i].0 != id) ==> VolumeOf(v, n, id) == 0
  {
    if n > 0 {
      VolumeOfIs(v, n - 1, id);
    }
  }

  method Covered(items: seq<Readiness>) returns (today: Coverage, atTarget: Coverage)
    ensures today == CoverageOf(items, |items|, false) && atTarget == CoverageOf(items, |items|, true)
  {
    today, atTarget := Coverage(0.0, 0.0, 0.0), Coverage(0.0, 0.0, 0.0);
    for i := 0 to |items|
      invariant today == CoverageOf(items, i, false) && atTarget == CoverageOf(items, i, true)
    {
      today := Plus(today, items[i].current, items[i].share);
      atTarget := Plus(atTarget, items[i].target, items[i].share);
    }
  }

  /** Take the largest until 80% is reached. */
  method CountFor80(items: seq<Readiness>) returns (count: nat)
    requires forall i :: 0 <= i < |items| ==> items[i].share >= 0.0
    ensures LeastEnough(items, count)
  {
    var ranked := Sorted(ByShare, items, |items|);
    var cumulative := 0.0;
    count := 0;
    for i := 0 to |ranked|
      invariant count == i && cumulative == ShareTo(ranked, i)
      invariant 0 < i ==> ShareTo(ranked, i - 1) < ENOUGH
    {
      if cumulative >= ENOUGH {
        break;
      }
      cumulative := cumulative + ranked[i].share;
      count := count + 1;
    }
    GreedyIsLeast(items, count);
  }

  // ---- what the summary adds up to ----

  /** The two coverages add up to the same total: the share of all items. */
  lemma CoveragesAgree(items: seq<Readiness>)
    ensures var a, b := CoverageOf(items, |items|, false), CoverageOf(items, |items|, true);
            a.manual + a.rpa + a.api == b.manual + b.rpa + b.api == ShareTo(items, |items|)
  {
    CoverageConserved(items, |items|, false);
    CoverageConserved(items, |items|, true);
  }

  function ListedVolume(js: seq<Jurisdiction>, k: nat, v: Volumes): nat
    requires k <= |js|
  {
    if k == 0 then 0 else ListedVolume(js, k - 1, v) + VolumeOf(v, |v|, js[k - 1].id)
  }

  /** The volume filed in a jurisdiction that is among the first k. */
  function KnownTo(js: seq<Jurisdiction>, k: nat, v: Volumes, n: nat): nat
    requires k <= |js| && n <= |v|
  {
    if n == 0 then 0
    else KnownTo(js, k, v, n - 1) + if exists i :: 0 <= i < k && js[i].id == v[n - 1].0 then v[n - 1].1 else 0
  }

  lemma {:induction false} VolumeAbsent(v: Volumes, n: nat, id: Id)
    requires n <= |v| && forall i :: 0 <= i < n ==> v[i].0 != id
    ensures VolumeOf(v, n, id) == 0
  {
    if n > 0 {
      VolumeAbsent(v, n - 1, id);
    }
  }

  lemma {:induction false} OneMoreJurisdiction(js: seq<Jurisdiction>, k: nat, v: Volumes, n: nat)
    requires k < |js| && n <= |v| && Keyed(v) && forall i :: 0 <= i < k ==> js[i].id != js[k].id
    ensures KnownTo(js, k + 1, v, n) == KnownTo(js, k, v, n) + VolumeOf(v, n, js[k].id)
  {
    if n > 0 {
      OneMoreJurisdiction(js, k, v, n - 1);
      if v[n - 1].0 == js[k].id {
        VolumeAbsent(v, n - 1, js[k].id);
      }
    }
  }

  lemma {:induction false} ListedIsKnown(js: seq<Jurisdiction>, k: nat, v: Volumes)
    requires k <= |js| && Keyed(v) && forall i, j :: 0 <= i < j < |js| ==> js[i].id != js[j].id
    ensures ListedVolume(js, k, v) == KnownTo(js, k, v, |v|)
  {
    if k == 0 {
      KnownNone(js, v, |v|);
    } else {
      ListedIsKnown(js, k - 1, v);
      OneMoreJurisdiction(js, k - 1, v, |v|);
    }
  }

  lemma {:induction false} KnownNone(js: seq<Jurisdiction>, v: Volumes, n: nat)
    requires n <= |v|
    ensures KnownTo(js, 0, v, n) == 0
  {
    if n > 0 {
      KnownNone(js, v, n - 1);
    }
  }

  lemma {:induction false} KnownIsPart(js: seq<Jurisdiction>, v: Volumes, n: nat)
    requires n <= |v|
    ensures KnownTo(js, |js|, v, n) <= VolumeTo(v, n)
    ensures KnownTo(js, |js|, v, n) == VolumeTo(v, n)
       <==> forall m :: 0 <= m < n && v[m].1 > 0 ==> exists i :: 0 <= i < |js| && js[i].id == v[m].0
  {
    if n > 0 {
      KnownIsPart(js, v, n - 1);
    }
  }

  /** How many filings a share of them is. */
  function Filings(share: real, total: nat): real {
    share * total as real
  }

  lemma {:induction false} SharesOfVolumes(js: seq<Jurisdiction>, v: Volumes, credentialed: set<Id>,
      assessed: seq<Readiness>, total: nat, k: nat)
    requires k <= |js| == |assessed| && total > 0
    requires forall i :: 0 <= i < |js| ==>
               Assessed(js[i], VolumeOf(v, |v|, js[i].id), total, js[i].id in credentialed, assessed[i])
    ensures Filings(ShareTo(assessed, k), total) == ListedVolume(js, k, v) as real
  {
    hide Assessed, Filings;
    if k == 0 {
      NoFilings(total);
    } else {
      SharesOfVolumes(js, v, credentialed, assessed, total, k - 1);
      ShareOfVolume(js[k - 1], VolumeOf(v, |v|, js[k - 1].id), total, js[k - 1].id in credentialed, assessed[k - 1]);
      FilingsAdd(ShareTo(assessed, k - 1), assessed[k - 1].share, total);
    }
  }

  lemma NoFilings(total: nat)
    ensures Filings(0.0, total) == 0.0
  {
  }

  lemma FilingsAdd(a: real, b: real, total: nat)
    ensures Filings(a + b, total) == Filings(a, total) + Filings(b, total)
  {
    var t := total as real;
    assert (a + b) * t == a * t + b * t;
  }

  lemma ShareOfVolume(j: Jurisdiction, ourVolume: nat, total: nat, hasCredentials: bool, r: Readiness)
    requires Assessed(j, ourVolume, total, hasCredentials, r) && total > 0
    ensures Filings(r.share, total) == ourVolume as real
  {
    hide BlockersTo, Priority;
  }

  /**
   * Both coverages of a roadmap add up to the part of the volume filed in listed jurisdictions: at most 1,
   * and exactly 1 when every filing was in one of them.
   */
  lemma {:induction false} CoverageIsTheListedPart(js: seq<Jurisdiction>, v: Volumes, credentialed: set<Id>,
      assessed: seq<Readiness>)
    requires Keyed(v) && |assessed| == |js| && VolumeTo(v, |v|) > 0
    requires forall i, j :: 0 <= i < j < |js| ==> js[i].id != js[j].id
    requires forall i :: 0 <= i < |js| ==>
               Assessed(js[i], VolumeOf(v, |v|, js[i].id), VolumeTo(v, |v|), js[i].id in credentialed, assessed[i])
    ensures var items, total := Sorted(ByPriority, assessed, |assessed|), VolumeTo(v, |v|) as real;
            && ShareTo(items, |items|) * total == KnownTo(js, |js|, v, |v|) as real
            && ShareTo(items, |items|) <= 1.0
            && (ShareTo(items, |items|) == 1.0 <==>
                forall m :: 0 <= m < |v| && v[m].1 > 0 ==> exists i :: 0 <= i < |js| && js[i].id == v[m].0)
  {
    hide Assessed, Sorted, ShareTo, KnownTo, VolumeTo, ListedVolume, VolumeOf;
    SortKeepsTotal(ByPriority, assessed, |assessed|);
    SharesOfVolumes(js, v, credentialed, assessed, VolumeTo(v, |v|), |js|);
    ListedIsKnown(js, |js|, v);
    KnownIsPart(js, v, |v|);
    PartOfWhole(ShareTo(assessed, |js|), VolumeTo(v, |v|) as real, KnownTo(js, |js|, v, |v|) as real);
  }

  lemma PartOfWhole(share: real, total: real, part: real)
    requires total > 0.0 && share * total == part && part <= total
    ensures share <= 1.0 && (share == 1.0 <==> part == total)
  {
    assert share == part / total;
  }
}

/** Driver ranking at dispatch handoff: a filter loop, an effective cost, and a stable sort. */
module DriverRanking {
  import opened Options
  import opened Ordering

  /** Microseconds, the resolution of the timestamps. */
  const SECOND: int := 1_000_000

  datatype Candidate = Candidate(
    driverId: string, vehicleId: string, authorizedVehicleId: string, accountActive: bool, eligibilityStatus: string,
    eligibilityExpiresAt: int, vehicleApproved: bool, supportedServices: set<string>, availability: string,
    availabilityObservedAt: int, pickupCost: int, headingConsistent: bool, pickupAccessible: bool,
    conflictingCommitment: bool, sessionActive: bool, earningCapability: string, fatigueEligible: bool,
    restrictionsClear: bool, trafficFresh: bool, pickupConfidenceBps: int, activeWorkload: int, reliabilityBps: int,
    cancellationBps: int, opportunityDeficitBps: int, routeObservedAt: Option<int>)

  /** The field bounds every candidate is created under. */
  predicate WellFormed(c: Candidate) {
    && 0 <= c.pickupCost <= 14400 && 0 <= c.pickupConfidenceBps <= 10000 && 0 <= c.activeWorkload <= 20
    && 0 <= c.reliabilityBps <= 10000 && 0 <= c.cancellationBps <= 10000 && 0 <= c.opportunityDeficitBps <= 10000
  }

  predicate Eligible(c: Candidate, now: int, maxAge: int) {
    var route := if c.routeObservedAt.Some? then c.routeObservedAt.value else c.availabilityObservedAt;
    && c.accountActive && c.sessionActive && c.earningCapability == "ride_driver" && c.eligibilityStatus == "eligible"
    && c.eligibilityExpiresAt > now && c.vehicleApproved && c.vehicleId == c.authorizedVehicleId
    && "immediate_standard" in c.supportedServices && c.availability == "available"
    && 0 <= now - c.availabilityObservedAt <= maxAge * SECOND
    && c.pickupAccessible && c.fatigueEligible && c.restrictionsClear && c.trafficFresh
    && c.pickupConfidenceBps >= 5000
    && 0 <= now - route <= maxAge * SECOND && !c.conflictingCommitment
  }

  function Penalty(c: Candidate): int {
    (10000 - c.reliabilityBps) * 10 / 10000 + c.cancellationBps * 10 / 10000
    + if c.activeWorkload * 5 < 15 then c.activeWorkload * 5 else 15
  }

  function Credit(c: Candidate): int {
    c.opportunityDeficitBps * 20 / 10000
  }

  function EffectiveCost(c: Candidate): int {
    var cost := c.pickupCost + Penalty(c) - Credit(c);
    if cost < 0 then 0 else cost
  }

  /** Lexicographic order on (effective cost, pickup cost, heading inconsistent, driver id). */
  predicate RanksBefore(a: Candidate, b: Candidate) {
    if EffectiveCost(a) != EffectiveCost(b) then EffectiveCost(a) < EffectiveCost(b)
    else if a.pickupCost != b.pickupCost then a.pickupCost < b.pickupCost
    else if a.headingConsistent != b.headingConsistent then a.headingConsistent
    else StringAtMost(a.driverId, b.driverId)
  }

  function Filter(candidates: seq<Candidate>, now: int, maxAge: int): seq<Candidate> {
    if candidates == [] then []
    else
      var last := candidates[|candidates| - 1];
      Filter(candidates[..|candidates| - 1], now, maxAge) + if Eligible(last, now, maxAge) then [last] else []
  }

  function Ranked(candidates: seq<Candidate>, now: int, maxAge: int): seq<Candidate> {
    Sort(Filter(candidates, now, maxAge), RanksBefore)
  }

  method RankCandidates(candidates: seq<Candidate>, now: int, maxAge: int) returns (ranked: seq<Candidate>)
    ensures ranked == Ranked(candidates, now, maxAge)
    ensures Ordered(ranked, RanksBefore)
    ensures forall c :: multiset(ranked)[c] == if Eligible(c, now, maxAge) then multiset(candidates)[c] else 0
  {
    var result := [];
    for i := 0 to |candidates|
      invariant result == Filter(candidates[..i], now, maxAge)
    {
      assert candidates[..i + 1][..i] == candidates[..i];
      if Eligible(candidates[i], now, maxAge) {
        result := result + [candidates[i]];
      }
    }
    assert candidates[..|candidates|] == candidates;
    ranked := Sort(result, RanksBefore);
    RankingIsTheEligible(candidates, now, maxAge);
  }

  // ----- the order

  lemma RanksBeforeIsTransitive(a: Candidate, b: Candidate, c: Candidate)
    requires RanksBefore(a, b) && RanksBefore(b, c)
    ensures RanksBefore(a, c)
  {
    if StringLess(a.driverId, b.driverId) && StringLess(b.driverId, c.driverId) {
      StringLessIsTransitive(a.driverId, b.driverId, c.driverId);
    }
  }

  lemma RanksBeforeIsTotal()
    ensures TotalPreorder(RanksBefore)
  {
    forall a, b ensures RanksBefore(a, b) || RanksBefore(b, a) {
      StringLessIsTotal(a.driverId, b.driverId);
    }
    forall a, b, c | RanksBefore(a, b) && RanksBefore(b, c) ensures RanksBefore(a, c) {
      RanksBeforeIsTransitive(a, b, c);
    }
  }

  /** Candidates rank equally exactly when their whole keys agree, the driver id among them. */
  lemma EqualRank(a: Candidate, b: Candidate)
    ensures RanksBefore(a, b) && RanksBefore(b, a) <==>
              EffectiveCost(a) == EffectiveCost(b) && a.pickupCost == b.pickupCost
              && a.headingConsistent == b.headingConsistent && a.driverId == b.driverId
  {
    StringLessIsTotal(a.driverId, b.driverId);
  }

  lemma {:induction false} FilterCounts(candidates: seq<Candidate>, now: int, maxAge: int, c: Candidate)
    ensures multiset(Filter(candidates, now, maxAge))[c]
            == if Eligible(c, now, maxAge) then multiset(candidates)[c] else 0
    decreases |candidates|
  {
    if candidates != [] {
      FilterCounts(candidates[..|candidates| - 1], now, maxAge, c);
      assert candidates == candidates[..|candidates| - 1] + [candidates[|candidates| - 1]];
    }
  }

  // ----- theorems

  /** The ranking holds exactly the eligible candidates, each as often as it was given, in order. */
  lemma RankingIsTheEligible(candidates: seq<Candidate>, now: int, maxAge: int)
    ensures Ordered(Ranked(candidates, now, maxAge), RanksBefore)
    ensures forall c :: multiset(Ranked(candidates, now, maxAge))[c]
                        == if Eligible(c, now, maxAge) then multiset(candidates)[c] else 0
  {
    RanksBeforeIsTotal();
    SortSorts(Filter(candidates, now, maxAge), RanksBefore);
    forall c ensures multiset(Ranked(candidates, now, maxAge))[c]
                     == if Eligible(c, now, maxAge) then multiset(candidates)[c] else 0 {
      FilterCounts(candidates, now, maxAge, c);
    }
  }

  /** No two different candidates share a driver id. */
  ghost predicate DistinctDrivers(candidates: seq<Candidate>) {
    forall a, b :: a in candidates && b in candidates && a.driverId == b.driverId ==> a == b
  }

  /** With distinct driver ids the ranking does not depend on the order of the candidates. */
  lemma RankingIsOrderIndependent(a: seq<Candidate>, b: seq<Candidate>, now: int, maxAge: int)
    requires multiset(a) == multiset(b) && DistinctDrivers(a)
    ensures Ranked(a, now, maxAge) == Ranked(b, now, maxAge)
  {
    var x, y := Filter(a, now, maxAge), Filter(b, now, maxAge);
    forall c ensures multiset(x)[c] == multiset(y)[c] && (c in x ==> c in a) {
      FilterCounts(a, now, maxAge, c);
      FilterCounts(b, now, maxAge, c);
      assert (c in x <==> c in multiset(x)) && (c in a <==> c in multiset(a));
    }
    assert multiset(x) == multiset(y);
    forall c, d | c in x && d in x && RanksBefore(c, d) && RanksBefore(d, c) ensures c == d {
      EqualRank(c, d);
    }
    RanksBeforeIsTotal();
    SortIsOrderIndependent(x, y, RanksBefore);
  }

  /** Two different eligible candidates with one whole key do keep their input order, so the condition is needed. */
  lemma EqualKeysKeepInputOrder(a: Candidate, b: Candidate, now: int, maxAge: int)
    requires Eligible(a, now, maxAge) && Eligible(b, now, maxAge) && RanksBefore(a, b) && RanksBefore(b, a)
    ensures Ranked([a, b], now, maxAge) == [a, b] && Ranked([b, a], now, maxAge) == [b, a]
  {
    TwoEligible(a, b, now, maxAge);
    TwoEligible(b, a, now, maxAge);
  }

  lemma TwoEligible(a: Candidate, b: Candidate, now: int, maxAge: int)
    requires Eligible(a, now, maxAge) && Eligible(b, now, maxAge)
    ensures Ranked([a, b], now, maxAge) == if RanksBefore(a, b) then [a, b] else [b, a]
  {
    assert [a, b][..1] == [a] && [a][..0] == [];
    assert Filter([a], now, maxAge) == [a];
    assert Filter([a, b], now, maxAge) == [a, b];
    assert [a, b][1..] == [b] && [b][1..] == [];
    assert Sort([b], RanksBefore) == [b];
    assert Insert(a, [], RanksBefore) == [a];
  }

  lemma AdjustmentsAreBounded(c: Candidate)
    requires WellFormed(c)
    ensures 0 <= Penalty(c) <= 35 && 0 <= Credit(c) <= 20
  {
  }

  /** Fifty-five seconds of pickup cost decide, whatever the adjustments: the nearer driver always comes first. */
  lemma LargeGapDecides(candidates: seq<Candidate>, now: int, maxAge: int, i: nat, j: nat)
    requires var ranked := Ranked(candidates, now, maxAge); i < |ranked| && j < |ranked|
    requires var ranked := Ranked(candidates, now, maxAge); WellFormed(ranked[i]) && WellFormed(ranked[j])
    requires var ranked := Ranked(candidates, now, maxAge); ranked[j].pickupCost - ranked[i].pickupCost >= 55
    ensures i < j
  {
    var ranked := Ranked(candidates, now, maxAge);
    RankingIsTheEligible(candidates, now, maxAge);
    AdjustmentsAreBounded(ranked[i]);
    AdjustmentsAreBounded(ranked[j]);
    assert !RanksBefore(ranked[j], ranked[i]);
  }

  /** Below fifty-five seconds two drivers can be reordered, at every pickup cost and every smaller gap. */
  lemma SmallerGapCanReorder(template: Candidate, now: int, maxAge: int, cost: int, gap: int, nearId: string, farId: string)
    returns (near: Candidate, far: Candidate)
    requires Eligible(template, now, maxAge) && WellFormed(template) && nearId != farId
    requires 0 <= cost && 0 <= gap <= 54 && cost + gap <= 14400
    ensures WellFormed(near) && near.driverId == nearId && near.pickupCost == cost
    ensures WellFormed(far) && far.driverId == farId && far.pickupCost == cost + gap
    ensures Ranked([near, far], now, maxAge) == [far, near] && Ranked([far, near], now, maxAge) == [far, near]
  {
    near := template.(driverId := nearId, pickupCost := cost, reliabilityBps := 0, cancellationBps := 10000,
                      activeWorkload := 3, opportunityDeficitBps := 0);
    far := template.(driverId := farId, pickupCost := cost + gap, reliabilityBps := 10000, cancellationBps := 0,
                     activeWorkload := 0, opportunityDeficitBps := 10000);
    assert EffectiveCost(near) == cost + 35 && EffectiveCost(far) < cost + 35;
    TwoEligible(near, far, now, maxAge);
    TwoEligible(far, near, now, maxAge);
  }

  // ----- what the adjustments cost, and that they point the right way

  /**
   The exchange rates: ten percent of reliability or of cancellations is one second, each of the
   first three active rides five, five percent of missed opportunity one second back; a driver
   with nothing against and nothing owed stands at the pickup cost itself.
   */
  lemma ExchangeRates(c: Candidate)
    requires WellFormed(c)
    ensures c.reliabilityBps >= 1000 ==> Penalty(c.(reliabilityBps := c.reliabilityBps - 1000)) == Penalty(c) + 1
    ensures c.cancellationBps <= 9000 ==> Penalty(c.(cancellationBps := c.cancellationBps + 1000)) == Penalty(c) + 1
    ensures Penalty(c.(activeWorkload := c.activeWorkload + 1)) == Penalty(c) + if c.activeWorkload < 3 then 5 else 0
    ensures c.opportunityDeficitBps <= 9500 ==> Credit(c.(opportunityDeficitBps := c.opportunityDeficitBps + 500)) == Credit(c) + 1
    ensures c.reliabilityBps > 9000 && c.cancellationBps < 1000 && c.activeWorkload == 0 && c.opportunityDeficitBps < 500 ==>
              EffectiveCost(c) == c.pickupCost
  {
  }

  /** No worse in anything that is ranked: nearer, more reliable, fewer cancellations, less loaded, more owed. */
  predicate NoWorse(d: Candidate, c: Candidate) {
    && d.pickupCost <= c.pickupCost && d.reliabilityBps >= c.reliabilityBps && d.cancellationBps <= c.cancellationBps
    && d.activeWorkload <= c.activeWorkload && d.opportunityDeficitBps >= c.opportunityDeficitBps
    && (c.headingConsistent ==> d.headingConsistent)
  }

  lemma NoWorseCostsNoMore(d: Candidate, c: Candidate)
    requires NoWorse(d, c)
    ensures Penalty(d) <= Penalty(c) && Credit(d) >= Credit(c) && EffectiveCost(d) <= EffectiveCost(c)
  {
    assert (10000 - d.reliabilityBps) * 10 / 10000 <= (10000 - c.reliabilityBps) * 10 / 10000;
    assert d.cancellationBps * 10 / 10000 <= c.cancellationBps * 10 / 10000;
  }

  lemma NoWorseRanksBefore(d: Candidate, c: Candidate)
    requires NoWorse(d, c) && StringAtMost(d.driverId, c.driverId)
    ensures RanksBefore(d, c)
  {
    NoWorseCostsNoMore(d, c);
  }

  /** Where a candidate is inserted into a ranking. */
  function Place(c: Candidate, ranked: seq<Candidate>): (p: nat)
    ensures p <= |ranked|
  {
    if ranked == [] || RanksBefore(c, ranked[0]) then 0 else 1 + Place(c, ranked[1..])
  }

  lemma {:induction false} InsertsAtPlace(c: Candidate, ranked: seq<Candidate>)
    ensures var p := Place(c, ranked); Insert(c, ranked, RanksBefore) == ranked[..p] + [c] + ranked[p..]
    decreases |ranked|
  {
    if ranked != [] && !RanksBefore(c, ranked[0]) {
      InsertsAtPlace(c, ranked[1..]);
    }
  }

  lemma {:induction false} BetterPlace(d: Candidate, c: Candidate, ranked: seq<Candidate>)
    requires RanksBefore(d, c)
    ensures Place(d, ranked) <= Place(c, ranked)
    decreases |ranked|
  {
    if ranked != [] && !RanksBefore(d, ranked[0]) {
      if RanksBefore(c, ranked[0]) {
        RanksBeforeIsTransitive(d, c, ranked[0]);
      } else {
        BetterPlace(d, c, ranked[1..]);
      }
    }
  }

  lemma {:induction false} FilterKeepsHead(c: Candidate, others: seq<Candidate>, now: int, maxAge: int)
    requires Eligible(c, now, maxAge)
    ensures Filter([c] + others, now, maxAge) == [c] + Filter(others, now, maxAge)
    decreases |others|
  {
    var all := [c] + others;
    if others == [] {
      assert all == [c] && [c][..0] == [];
    } else {
      assert all[..|all| - 1] == [c] + others[..|others| - 1];
      FilterKeepsHead(c, others[..|others| - 1], now, maxAge);
    }
  }

  lemma RankedWithHead(c: Candidate, others: seq<Candidate>, now: int, maxAge: int)
    requires Eligible(c, now, maxAge)
    ensures var r := Ranked(others, now, maxAge);
            var p := Place(c, r);
            Ranked([c] + others, now, maxAge) == r[..p] + [c] + r[p..]
  {
    FilterKeepsHead(c, others, now, maxAge);
    InsertsAtPlace(c, Ranked(others, now, maxAge));
  }

  /**
   A driver who becomes no worse in anything never loses a place: the others keep their order, and
   of them no more stand in front than before.
   */
  lemma ImprovingNeverLosesPlaces(before: seq<Candidate>, after: seq<Candidate>, c: Candidate, d: Candidate, now: int, maxAge: int)
    returns (p: nat, q: nat)
    requires Eligible(c, now, maxAge) && Eligible(d, now, maxAge) && NoWorse(d, c) && d.driverId == c.driverId
    requires DistinctDrivers(before + [c] + after) && DistinctDrivers(before + [d] + after)
    ensures var r := Ranked(before + after, now, maxAge);
            && p <= q <= |r|
            && Ranked(before + [d] + after, now, maxAge) == r[..p] + [d] + r[p..]
            && Ranked(before + [c] + after, now, maxAge) == r[..q] + [c] + r[q..]
  {
    var r := Ranked(before + after, now, maxAge);
    p, q := Place(d, r), Place(c, r);
    NoWorseRanksBefore(d, c);
    BetterPlace(d, c, r);
    RankedWithHead(d, before + after, now, maxAge);
    RankedWithHead(c, before + after, now, maxAge);
    RankingIsOrderIndependent(before + [d] + after, [d] + (before + after), now, maxAge);
    RankingIsOrderIndependent(before + [c] + after, [c] + (before + after), now, maxAge);
  }

  /**
   Of two ranked drivers the one with the lower effective cost stands first; at equal costs the
   nearer one, then the one heading the right way, then the smaller driver id.
   */
  lemma RankingIsLexicographic(candidates: seq<Candidate>, now: int, maxAge: int, i: nat, j: nat)
    requires var ranked := Ranked(candidates, now, maxAge); i < |ranked| && j < |ranked|
    ensures var a, b := Ranked(candidates, now, maxAge)[i], Ranked(candidates, now, maxAge)[j];
            var sameCost := EffectiveCost(a) == EffectiveCost(b);
            var samePickup := sameCost && a.pickupCost == b.pickupCost;
            var sameHeading := samePickup && a.headingConsistent == b.headingConsistent;
            && (EffectiveCost(a) < EffectiveCost(b) ==> i < j)
            && (sameCost && a.pickupCost < b.pickupCost ==> i < j)
            && (samePickup && a.headingConsistent && !b.headingConsistent ==> i < j)
            && (sameHeading && StringLess(a.driverId, b.driverId) ==> i < j)
  {
    var ranked := Ranked(candidates, now, maxAge);
    RankingIsTheEligible(candidates, now, maxAge);
    StringLessIsTotal(ranked[i].driverId, ranked[j].driverId);
    if j < i {
      assert RanksBefore(ranked[j], ranked[i]);
    }
  }

  /** Fresher, longer and surer evidence, and more services, never cost a driver the eligibility; a conflict or expired evidence always does. */
  lemma EligibilityImproves(c: Candidate, d: Candidate, now: int, maxAge: int)
    requires Eligible(c, now, maxAge)
    requires d == c.(eligibilityExpiresAt := d.eligibilityExpiresAt, supportedServices := d.supportedServices,
                     availabilityObservedAt := d.availabilityObservedAt, routeObservedAt := d.routeObservedAt,
                     pickupConfidenceBps := d.pickupConfidenceBps)
    requires d.eligibilityExpiresAt >= c.eligibilityExpiresAt && d.supportedServices >= c.supportedServices
    requires c.availabilityObservedAt <= d.availabilityObservedAt <= now && d.pickupConfidenceBps >= c.pickupConfidenceBps
    requires d.routeObservedAt == c.routeObservedAt
             || (c.routeObservedAt.Some? && d.routeObservedAt.Some? && c.routeObservedAt.value <= d.routeObservedAt.value <= now)
    ensures Eligible(d, now, maxAge)
    ensures !Eligible(c.(conflictingCommitment := true), now, maxAge) && !Eligible(c, c.eligibilityExpiresAt, maxAge)
    ensures !Eligible(c, c.availabilityObservedAt - 1, maxAge)
    ensures !Eligible(c, c.availabilityObservedAt + maxAge * SECOND + 1, maxAge)
  {
  }
}

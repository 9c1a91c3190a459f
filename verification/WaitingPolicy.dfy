/** Waiting-policy resolution: the most specific matching policy, then the highest priority, or a conflict. */
module WaitingPolicy {
  import opened Options
  import opened Ordering

  datatype Dimension =
    | City | RideOrigin | PickupContext | ServiceContext | Assisted | AccessibilityAccommodation | SevereWeather
    | OperationalOverrideCode

  /** The optional dimensions, in the order in which a policy is compared. */
  const OPTIONAL: seq<Dimension> :=
    [RideOrigin, PickupContext, ServiceContext, Assisted, AccessibilityAccommodation, SevereWeather,
     OperationalOverrideCode]

  /** What a policy expects; a dimension it leaves open is absent. */
  datatype Policy = Policy(
    policyId: string, version: string, city: string, expected: map<Dimension, string>, effectiveFrom: int,
    effectiveUntil: Option<int>, priority: int, freeWaitSeconds: int, endingWarningSeconds: int)

  /** What is known about a ride; a dimension without a value is absent. */
  datatype RideContext = RideContext(city: string, actual: map<Dimension, string>)

  predicate InForce(p: Policy, c: RideContext, now: int) {
    && p.city == c.city && p.effectiveFrom <= now
    && (p.effectiveUntil.Some? ==> now < p.effectiveUntil.value)
  }

  predicate Agrees(p: Policy, c: RideContext, d: Dimension) {
    d in p.expected ==> d in c.actual && c.actual[d] == p.expected[d]
  }

  ghost predicate Matches(p: Policy, c: RideContext, now: int) {
    InForce(p, c, now) && forall k :: 0 <= k < |OPTIONAL| ==> Agrees(p, c, OPTIONAL[k])
  }

  /** Those of the first k names that are expected. */
  function NamedOf(names: seq<Dimension>, expected: set<Dimension>, k: nat): (r: seq<Dimension>)
    requires k <= |names|
    ensures |r| <= k
  {
    if k == 0 then []
    else NamedOf(names, expected, k - 1) + if names[k - 1] in expected then [names[k - 1]] else []
  }

  /** The dimensions a policy names, of the first k optional ones. */
  function Named(p: Policy, k: nat): seq<Dimension>
    requires k <= |OPTIONAL|
  {
    NamedOf(OPTIONAL, p.expected.Keys, k)
  }

  function Dimensions(p: Policy): seq<Dimension> {
    [City] + Named(p, |OPTIONAL|)
  }

  method MatchedDimensions(p: Policy, c: RideContext, now: int) returns (r: Option<seq<Dimension>>)
    ensures r == if Matches(p, c, now) then Some(Dimensions(p)) else None
  {
    if p.city != c.city || now < p.effectiveFrom {
      return None;
    }
    if p.effectiveUntil.Some? && now >= p.effectiveUntil.value {
      return None;
    }
    var dimensions := [City];
    for k := 0 to |OPTIONAL|
      invariant forall j :: 0 <= j < k ==> Agrees(p, c, OPTIONAL[j])
      invariant dimensions == [City] + Named(p, k)
    {
      var name := OPTIONAL[k];
      if name in p.expected {
        if name !in c.actual || p.expected[name] != c.actual[name] {
          assert !Agrees(p, c, OPTIONAL[k]);
          return None;
        }
        dimensions := dimensions + [name];
      }
    }
    return Some(dimensions);
  }

  // ----- resolution

  /** Specificity first, then priority, both descending; the stable sort keeps the given order on ties. */
  predicate RanksAtLeast(a: Policy, b: Policy) {
    var m, n := |Dimensions(a)|, |Dimensions(b)|;
    m > n || (m == n && a.priority >= b.priority)
  }

  predicate Dominates(a: Policy, b: Policy) {
    RanksAtLeast(a, b) && !RanksAtLeast(b, a)
  }

  ghost function Matching(policies: seq<Policy>, c: RideContext, now: int): seq<Policy> {
    if policies == [] then []
    else
      var last := policies[|policies| - 1];
      Matching(policies[..|policies| - 1], c, now) + if Matches(last, c, now) then [last] else []
  }

  datatype Resolution = Unavailable | Ambiguous | Selected(policy: Policy, dimensions: seq<Dimension>)

  ghost function Resolve(policies: seq<Policy>, c: RideContext, now: int): Resolution {
    var ranked := Sort(Matching(policies, c, now), RanksAtLeast);
    if ranked == [] then Unavailable
    else if |ranked| > 1 && RanksAtLeast(ranked[1], ranked[0]) && RanksAtLeast(ranked[0], ranked[1]) then Ambiguous
    else Selected(ranked[0], Dimensions(ranked[0]))
  }

  method ResolveWaitingPolicy(policies: seq<Policy>, c: RideContext, now: int) returns (r: Resolution)
    ensures r == Resolve(policies, c, now)
  {
    var matches: seq<Policy> := [];
    for i := 0 to |policies|
      invariant matches == Matching(policies[..i], c, now)
    {
      assert policies[..i + 1][..i] == policies[..i];
      var dimensions := MatchedDimensions(policies[i], c, now);
      if dimensions.Some? {
        matches := matches + [policies[i]];
      }
    }
    assert policies[..|policies|] == policies;
    MatchingLength(policies, c, now);
    if matches == [] {
      return Unavailable;
    }
    var ranked := Sort(matches, RanksAtLeast);
    if |ranked| > 1 && |Dimensions(ranked[1])| == |Dimensions(ranked[0])| && ranked[1].priority == ranked[0].priority {
      return Ambiguous;
    }
    return Selected(ranked[0], Dimensions(ranked[0]));
  }

  lemma MatchingLength(policies: seq<Policy>, c: RideContext, now: int)
    ensures |Sort(Matching(policies, c, now), RanksAtLeast)| == |Matching(policies, c, now)|
  {
    RankIsTotal();
    SortSorts(Matching(policies, c, now), RanksAtLeast);
  }

  lemma RankIsTotal()
    ensures TotalPreorder(RanksAtLeast)
  {
  }

  lemma {:induction false} MatchingCounts(policies: seq<Policy>, c: RideContext, now: int, p: Policy)
    ensures multiset(Matching(policies, c, now))[p] == if Matches(p, c, now) then multiset(policies)[p] else 0
    decreases |policies|
  {
    if policies != [] {
      MatchingCounts(policies[..|policies| - 1], c, now, p);
      assert policies == policies[..|policies| - 1] + [policies[|policies| - 1]];
    }
  }

  // ----- theorems

  /** A policy that occurs once among those that match and strictly dominates every other one. */
  ghost predicate Wins(policies: multiset<Policy>, c: RideContext, now: int, p: Policy) {
    && policies[p] == 1 && Matches(p, c, now)
    && forall q :: q in policies && Matches(q, c, now) && q != p ==> Dominates(p, q)
  }

  ghost function Ranking(policies: seq<Policy>, c: RideContext, now: int): (ranked: seq<Policy>)
    ensures Ordered(ranked, RanksAtLeast)
    ensures forall p :: multiset(ranked)[p] == if Matches(p, c, now) then multiset(policies)[p] else 0
  {
    RankIsTotal();
    SortSorts(Matching(policies, c, now), RanksAtLeast);
    assert forall p :: multiset(Matching(policies, c, now))[p] == if Matches(p, c, now) then multiset(policies)[p] else 0
      by {
        forall p ensures multiset(Matching(policies, c, now))[p] == if Matches(p, c, now) then multiset(policies)[p] else 0 {
          MatchingCounts(policies, c, now, p);
        }
      }
    Sort(Matching(policies, c, now), RanksAtLeast)
  }

  /** No policy is available exactly when none matches. */
  lemma UnavailableIsExact(policies: seq<Policy>, c: RideContext, now: int)
    ensures Resolve(policies, c, now).Unavailable? <==> forall p :: p in policies ==> !Matches(p, c, now)
  {
    var ranked := Ranking(policies, c, now);
    if ranked != [] {
      assert ranked[0] in multiset(ranked);
      assert multiset(policies)[ranked[0]] > 0;
      assert ranked[0] in policies;
    } else {
      forall p | p in policies ensures !Matches(p, c, now) {
        assert multiset(policies)[p] > 0 && multiset(ranked)[p] == 0;
      }
    }
  }

  /** A winner heads the ranking, and nothing ties with it. */
  lemma WinnerIsSelected(policies: seq<Policy>, c: RideContext, now: int, p: Policy)
    requires Wins(multiset(policies), c, now, p)
    ensures Resolve(policies, c, now) == Selected(p, Dimensions(p))
  {
    var ranked := Ranking(policies, c, now);
    assert multiset(ranked)[p] == 1;
    assert p in multiset(ranked);
    var i :| 0 <= i < |ranked| && ranked[i] == p;
    assert ranked[0] in multiset(ranked) && ranked[0] in multiset(policies);
    assert ranked[0] == p;
    if |ranked| > 1 {
      assert ranked == [ranked[0]] + [ranked[1]] + ranked[2..];
      assert ranked[1] != p;
      assert ranked[1] in multiset(ranked) && ranked[1] in multiset(policies);
      assert Dominates(p, ranked[1]);
    }
  }

  /** What is selected wins. */
  lemma SelectedWins(policies: seq<Policy>, c: RideContext, now: int)
    requires Resolve(policies, c, now).Selected?
    ensures Wins(multiset(policies), c, now, Resolve(policies, c, now).policy)
  {
    var ranked := Ranking(policies, c, now);
    var p := ranked[0];
    assert ranked == [p] + ranked[1..];
    assert p in multiset(ranked) && Matches(p, c, now);
    forall k | 1 <= k < |ranked| ensures Dominates(p, ranked[k]) {
      assert RanksAtLeast(ranked[0], ranked[1]);
      assert k > 1 ==> RanksAtLeast(ranked[1], ranked[k]);
    }
    assert p !in ranked[1..];
    assert multiset(ranked)[p] == 1;
    forall q | q in multiset(policies) && Matches(q, c, now) && q != p ensures Dominates(p, q) {
      assert multiset(ranked)[q] > 0;
      assert q in multiset(ranked);
      var k :| 0 <= k < |ranked| && ranked[k] == q;
    }
  }

  /** Resolution succeeds exactly when one matching policy strictly dominates all others. */
  lemma SelectionIsExact(policies: seq<Policy>, c: RideContext, now: int)
    ensures Resolve(policies, c, now).Selected? <==> exists p :: Wins(multiset(policies), c, now, p)
  {
    if Resolve(policies, c, now).Selected? {
      SelectedWins(policies, c, now);
    }
    if p :| Wins(multiset(policies), c, now, p) {
      WinnerIsSelected(policies, c, now, p);
    }
  }

  /** Ranked at least as high as every matching policy. */
  ghost predicate Tops(policies: multiset<Policy>, c: RideContext, now: int, p: Policy) {
    p in policies && Matches(p, c, now) && forall q :: q in policies && Matches(q, c, now) ==> RanksAtLeast(p, q)
  }

  /** Ambiguity is reported exactly when the top rank is shared, by two policies or by one given twice. */
  lemma AmbiguityIsExact(policies: seq<Policy>, c: RideContext, now: int)
    ensures Resolve(policies, c, now).Ambiguous? <==>
              exists p, q :: Tops(multiset(policies), c, now, p) && Tops(multiset(policies), c, now, q)
                             && (p != q || multiset(policies)[p] > 1)
  {
    var ranked := Ranking(policies, c, now);
    if Resolve(policies, c, now).Ambiguous? {
      HeadTops(policies, c, now, 0);
      HeadTops(policies, c, now, 1);
      if ranked[0] == ranked[1] {
        assert ranked == [ranked[0]] + [ranked[1]] + ranked[2..];
        assert multiset(ranked)[ranked[0]] > 1;
      }
    } else if Resolve(policies, c, now).Selected? {
      SelectedWins(policies, c, now);
      var w := ranked[0];
      forall p | Tops(multiset(policies), c, now, p) ensures p == w {
        assert p != w ==> Dominates(w, p);
      }
    } else {
      UnavailableIsExact(policies, c, now);
    }
  }

  lemma HeadTops(policies: seq<Policy>, c: RideContext, now: int, k: nat)
    requires Resolve(policies, c, now).Ambiguous? && k < 2
    ensures Tops(multiset(policies), c, now, Ranking(policies, c, now)[k])
  {
    var ranked := Ranking(policies, c, now);
    var p := ranked[k];
    assert p in multiset(ranked);
    forall q | q in multiset(policies) && Matches(q, c, now) ensures RanksAtLeast(p, q) {
      assert multiset(ranked)[q] > 0;
      assert q in multiset(ranked);
      var i :| 0 <= i < |ranked| && ranked[i] == q;
    }
  }

  /** Every permutation of the policies gives the same winner or the same conflict. */
  lemma ResolutionIsOrderIndependent(a: seq<Policy>, b: seq<Policy>, c: RideContext, now: int)
    requires multiset(a) == multiset(b)
    ensures Resolve(a, c, now) == Resolve(b, c, now)
  {
    if Resolve(a, c, now).Selected? {
      SelectedWins(a, c, now);
      WinnerIsSelected(b, c, now, Resolve(a, c, now).policy);
    } else {
      assert !Resolve(b, c, now).Selected? by {
        SelectionIsExact(a, c, now);
        SelectionIsExact(b, c, now);
      }
      UnavailableIsExact(a, c, now);
      UnavailableIsExact(b, c, now);
      assert forall p :: p in a <==> p in multiset(a);
      assert forall p :: p in b <==> p in multiset(b);
    }
  }

  // ----- the ranking in the policies' own terms

  /** The optional dimensions a policy names. */
  function NamedOptional(p: Policy): set<Dimension> {
    p.expected.Keys - {City}
  }

  lemma EveryDimensionIsListed(d: Dimension)
    requires d != City
    ensures exists k :: 0 <= k < |OPTIONAL| && OPTIONAL[k] == d
  {
    match d
    case RideOrigin => assert OPTIONAL[0] == d;
    case PickupContext => assert OPTIONAL[1] == d;
    case ServiceContext => assert OPTIONAL[2] == d;
    case Assisted => assert OPTIONAL[3] == d;
    case AccessibilityAccommodation => assert OPTIONAL[4] == d;
    case SevereWeather => assert OPTIONAL[5] == d;
    case OperationalOverrideCode => assert OPTIONAL[6] == d;
  }

  lemma {:induction false} NamedIsSet(names: seq<Dimension>, expected: set<Dimension>, k: nat)
    requires k <= |names| && forall i, j :: 0 <= i < j < |names| ==> names[i] != names[j]
    ensures |NamedOf(names, expected, k)| == |set d | d in expected && d in names[..k]|
    decreases k
  {
    var here := set d | d in expected && d in names[..k];
    if k == 0 {
      assert here == {};
    } else {
      NamedIsSet(names, expected, k - 1);
      var before := set d | d in expected && d in names[..k - 1];
      assert names[..k] == names[..k - 1] + [names[k - 1]];
      assert names[k - 1] !in names[..k - 1];
      if names[k - 1] in expected {
        assert here == before + {names[k - 1]};
      } else {
        assert here == before;
      }
    }
  }

  /** A policy matches with one dimension for the city and one for each optional dimension it names. */
  lemma SpecificityIsNamedOptional(p: Policy)
    ensures |Dimensions(p)| == 1 + |NamedOptional(p)|
  {
    NamedIsSet(OPTIONAL, p.expected.Keys, |OPTIONAL|);
    assert OPTIONAL[..|OPTIONAL|] == OPTIONAL;
    assert City !in OPTIONAL;
    forall d | d in p.expected && d != City ensures d in OPTIONAL {
      EveryDimensionIsListed(d);
    }
    assert (set d | d in p.expected.Keys && d in OPTIONAL) == NamedOptional(p);
  }

  /** A policy matches in its city and its window, when every optional dimension it names has the value it expects. */
  lemma MatchIsExact(p: Policy, c: RideContext, now: int)
    ensures Matches(p, c, now) <==>
              && p.city == c.city && p.effectiveFrom <= now && (p.effectiveUntil == None || now < p.effectiveUntil.value)
              && forall d :: d in NamedOptional(p) ==> d in c.actual && c.actual[d] == p.expected[d]
  {
    assert City !in OPTIONAL;
    if Matches(p, c, now) {
      forall d | d in NamedOptional(p) ensures d in c.actual && c.actual[d] == p.expected[d] {
        EveryDimensionIsListed(d);
        var k :| 0 <= k < |OPTIONAL| && OPTIONAL[k] == d;
        assert Agrees(p, c, OPTIONAL[k]);
      }
    }
    if InForce(p, c, now) && forall d :: d in NamedOptional(p) ==> d in c.actual && c.actual[d] == p.expected[d] {
      forall k | 0 <= k < |OPTIONAL| ensures Agrees(p, c, OPTIONAL[k]) {
        assert OPTIONAL[k] in OPTIONAL;
        assert OPTIONAL[k] in p.expected ==> OPTIONAL[k] in NamedOptional(p);
      }
    }
  }

  /** Strictly more optional dimensions named, or equally many and a strictly higher priority. */
  predicate Beats(p: Policy, q: Policy) {
    || |NamedOptional(p)| > |NamedOptional(q)|
    || (|NamedOptional(p)| == |NamedOptional(q)| && p.priority > q.priority)
  }

  /** Equally many optional dimensions and equal priority. */
  predicate Ties(p: Policy, q: Policy) {
    |NamedOptional(p)| == |NamedOptional(q)| && p.priority == q.priority
  }

  lemma RankIsNamedThenPriority(p: Policy, q: Policy)
    ensures Dominates(p, q) <==> Beats(p, q)
    ensures RanksAtLeast(p, q) <==> Beats(p, q) || Ties(p, q)
  {
    SpecificityIsNamedOptional(p);
    SpecificityIsNamedOptional(q);
  }

  /** The selected policy is the one that matches, is given once, and beats every other matching one. */
  lemma SelectedPolicyIsExact(policies: seq<Policy>, c: RideContext, now: int, p: Policy)
    ensures Resolve(policies, c, now) == Selected(p, Dimensions(p)) <==>
              && multiset(policies)[p] == 1 && Matches(p, c, now)
              && (forall q :: q in policies && Matches(q, c, now) && q != p ==> Beats(p, q))
  {
    forall q ensures Dominates(p, q) <==> Beats(p, q) {
      RankIsNamedThenPriority(p, q);
    }
    assert forall q :: q in policies <==> q in multiset(policies);
    if Resolve(policies, c, now) == Selected(p, Dimensions(p)) {
      SelectedWins(policies, c, now);
    }
    if multiset(policies)[p] == 1 && Matches(p, c, now)
       && (forall q :: q in policies && Matches(q, c, now) && q != p ==> Beats(p, q)) {
      WinnerIsSelected(policies, c, now, p);
    }
  }

  /** Beaten by no matching policy. */
  ghost predicate Unbeaten(policies: seq<Policy>, c: RideContext, now: int, p: Policy) {
    p in policies && Matches(p, c, now) && forall q :: q in policies && Matches(q, c, now) ==> !Beats(q, p)
  }

  /** Ambiguity is two policies that tie at the top, or one at the top that is given twice. */
  lemma AmbiguityIsATie(policies: seq<Policy>, c: RideContext, now: int)
    ensures Resolve(policies, c, now).Ambiguous? <==>
              exists p, q :: Unbeaten(policies, c, now, p) && Unbeaten(policies, c, now, q) && Ties(p, q)
                             && (p != q || multiset(policies)[p] > 1)
  {
    forall p ensures Tops(multiset(policies), c, now, p) <==> Unbeaten(policies, c, now, p) {
      UnbeatenMeansTops(policies, c, now, p);
    }
    AmbiguityIsExact(policies, c, now);
    if Resolve(policies, c, now).Ambiguous? {
      var p, q :| Tops(multiset(policies), c, now, p) && Tops(multiset(policies), c, now, q)
                  && (p != q || multiset(policies)[p] > 1);
      RankIsNamedThenPriority(p, q);
      RankIsNamedThenPriority(q, p);
    }
  }

  lemma UnbeatenMeansTops(policies: seq<Policy>, c: RideContext, now: int, p: Policy)
    ensures Tops(multiset(policies), c, now, p) <==> Unbeaten(policies, c, now, p)
  {
    assert forall q :: q in policies <==> q in multiset(policies);
    forall q ensures RanksAtLeast(p, q) <==> !Beats(q, p) {
      RankIsNamedThenPriority(p, q);
      RankIsNamedThenPriority(q, p);
    }
  }
}

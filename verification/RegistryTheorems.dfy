/** What acceptance of a registry guarantees about the whole log, and over every chain of revisions. */
module RegistryTheorems {
  import opened Options
  import opened Ordering
  import opened Registry

  // ----- lifecycle of one identity

  const STAGES: seq<Kind> := [Reserved, Allocated, Superseded]

  /** The events of one AP id among the first n, in list order. */
  function Chain(events: seq<Event>, n: nat, apId: string): seq<Event>
    requires n <= |events|
  {
    if n == 0 then []
    else if events[n - 1].apId == apId then Chain(events, n - 1, apId) + [events[n - 1]]
    else Chain(events, n - 1, apId)
  }

  predicate StageOk(chain: seq<Event>, i: nat)
    requires i < |chain| <= 3
  {
    && chain[i].kind == STAGES[i] && chain[i].title == chain[0].title && chain[i].purpose == chain[0].purpose
    && chain[i].prior == if i == 0 then None else Some(chain[i - 1].eventId)
  }

  /** Reserved, then allocated, then superseded, under one title and purpose, each naming the one before. */
  predicate WellChained(chain: seq<Event>) {
    |chain| <= 3 && forall i :: 0 <= i < |chain| ==> StageOk(chain, i)
  }

  /** An event that links to the last of a chain, or starts one, extends it. */
  predicate Extends(chain: seq<Event>, e: Event) {
    if chain == [] then e.kind == Reserved && e.prior.None?
    else
      var last := chain[|chain| - 1];
      && (e.kind == Allocated || e.kind == Superseded) && e.prior == Some(last.eventId)
      && e.title == last.title && e.purpose == last.purpose
      && last.kind == (if e.kind == Allocated then Reserved else Allocated)
  }

  lemma ExtendedIsWellChained(chain: seq<Event>, e: Event)
    requires WellChained(chain) && Extends(chain, e)
    ensures WellChained(chain + [e])
  {
    assert chain != [] ==> StageOk(chain, |chain| - 1) && StageOk(chain, 0);
    forall i | 0 <= i < |chain + [e]| ensures StageOk(chain + [e], i) {
      assert i < |chain| ==> StageOk(chain, i);
    }
  }

  lemma {:induction false} ChainFollowsLatest(w: Context, r: Registry, n: nat, apId: string)
    requires n <= |r.Events()| && EventsOk(w, r)
    ensures var chain := Chain(r.Events(), n, apId);
            var latest := Latest(r.Events(), n, apId);
            && WellChained(chain) && (latest.None? <==> chain == [])
            && (latest.Some? ==> chain[|chain| - 1] == r.Events()[latest.value])
    decreases n
  {
    if n > 0 {
      var events := r.Events();
      ChainFollowsLatest(w, r, n - 1, apId);
      if events[n - 1].apId == apId {
        assert EventOk(w, r, events, n - 1) && LinkOk(events, n - 1);
        assert Extends(Chain(events, n - 1, apId), events[n - 1]);
        ExtendedIsWellChained(Chain(events, n - 1, apId), events[n - 1]);
      }
    }
  }

  /** The events of each id form a prefix of reserved, allocated, superseded with constant title and purpose. */
  lemma IdentityLifecycle(w: Context, r: Registry, apId: string)
    requires Accepted(w, r)
    ensures WellChained(Chain(r.Events(), |r.Events()|, apId))
  {
    ChainFollowsLatest(w, r, |r.Events()|, apId);
  }

  lemma {:induction false} ChainHolds(events: seq<Event>, n: nat, apId: string, i: nat)
    requires i < n <= |events| && events[i].apId == apId
    ensures events[i] in Chain(events, n, apId)
    decreases n
  {
    if i < n - 1 {
      ChainHolds(events, n - 1, apId, i);
    } else {
      assert Chain(events, n, apId)[|Chain(events, n, apId)| - 1] == events[i];
    }
  }

  // ----- headings

  lemma {:induction false} OnceMeansOneIndex<T>(s: seq<T>, x: T)
    requires multiset(s)[x] == 1
    ensures exists k :: 0 <= k < |s| && s[k] == x && forall j :: 0 <= j < |s| && s[j] == x ==> j == k
  {
    assert x in multiset(s);
    var k :| 0 <= k < |s| && s[k] == x;
    forall j | 0 <= j < |s| && s[j] == x ensures j == k {
      if j < k {
        OccursTwice(s, j, k);
      } else if k < j {
        OccursTwice(s, k, j);
      }
    }
  }

  /** An id with lifecycle events owns its headings alone: they all stand under its allocated title. */
  lemma HeadingOfEventId(w: Context, r: Registry, apId: string, k: nat)
    requires Accepted(w, r) && k < |w.headings| && w.headings[k].0 == apId
    requires Chain(r.Events(), |r.Events()|, apId) != []
    ensures var chain := Chain(r.Events(), |r.Events()|, apId);
            |chain| >= 2 && w.headings[k].1 == chain[0].title
  {
    var events, n := r.Events(), |r.Events()|;
    var chain := Chain(events, n, apId);
    ChainFollowsLatest(w, r, n, apId);
    var latest := Latest(events, n, apId).value;
    assert EventOk(w, r, events, latest);
    assert HeadingOk(r, w.headings[k]);
    assert !BootPair(r.allocations, w.headings[k]);
    var i :| 0 <= i < |events| && events[i].kind == Allocated && (events[i].apId, events[i].title) == w.headings[k];
    ChainHolds(events, n, apId, i);
    var at :| 0 <= at < |chain| && chain[at] == events[i];
    assert StageOk(chain, at);
  }

  /** A reserved-only id has no decision-log heading at all. */
  lemma ReservedOnlyHasNoHeading(w: Context, r: Registry, apId: string)
    requires Accepted(w, r) && |Chain(r.Events(), |r.Events()|, apId)| == 1
    ensures forall k :: 0 <= k < |w.headings| ==> w.headings[k].0 != apId
  {
    forall k | 0 <= k < |w.headings| ensures w.headings[k].0 != apId {
      if w.headings[k].0 == apId {
        HeadingOfEventId(w, r, apId, k);
      }
    }
  }

  /** A live allocated id has exactly one heading, whatever its text, and it is the allocated title. */
  lemma LiveAllocationHasOneHeading(w: Context, r: Registry, apId: string) returns (k: nat)
    requires Accepted(w, r) && |Chain(r.Events(), |r.Events()|, apId)| == 2
    ensures k < |w.headings| && w.headings[k] == (apId, Chain(r.Events(), |r.Events()|, apId)[0].title)
    ensures forall j :: 0 <= j < |w.headings| && w.headings[j].0 == apId ==> j == k
  {
    var events, n := r.Events(), |r.Events()|;
    var chain := Chain(events, n, apId);
    ChainFollowsLatest(w, r, n, apId);
    var latest := Latest(events, n, apId).value;
    assert StageOk(chain, 1) && events[latest] == chain[1];
    assert LiveHeadingOk(events, w.headings, latest);
    var h := (apId, chain[0].title);
    OnceMeansOneIndex(w.headings, h);
    k :| 0 <= k < |w.headings| && w.headings[k] == h && forall j :: 0 <= j < |w.headings| && w.headings[j] == h ==> j == k;
    forall j | 0 <= j < |w.headings| && w.headings[j].0 == apId ensures j == k {
      HeadingOfEventId(w, r, apId, j);
      assert w.headings[j] == h;
    }
  }

  /** The separate check for headings of bare reservations can never fire: the registration check covers it. */
  lemma ReservationCheckIsRedundant(w: Context, r: Registry, i: nat)
    requires EventsOk(w, r) && i < |r.Events()|
    requires forall k :: 0 <= k < |w.headings| ==> HeadingOk(r, w.headings[k])
    ensures ReservationOk(r, w.headings, r.Events()[i])
  {
    var e := r.Events()[i];
    assert EventOk(w, r, r.Events(), i);
    assert !BootPair(r.allocations, (e.apId, e.title));
    if (e.apId, e.title) in w.headings {
      var k :| 0 <= k < |w.headings| && w.headings[k] == (e.apId, e.title);
      assert HeadingOk(r, w.headings[k]);
    }
  }

  // ----- reconciliations

  /** Each reconciliation maps one repair to one live allocation event. */
  lemma ReconciliationMapsRepairToLive(w: Context, r: Registry, i: nat)
    requires Accepted(w, r) && i < |r.Recs()|
    ensures var from := FindAllocation(r.allocations, r.Recs()[i].Historical());
            var to := FindEvent(r.Events(), r.Recs()[i].successorEvent);
            && from.Some? && r.allocations[from.value].status == CollisionRepair
            && r.allocations[from.value].Identity() == r.Recs()[i].Historical()
            && to.Some? && r.Events()[to.value].kind == Allocated
            && Latest(r.Events(), |r.Events()|, r.Events()[to.value].apId) == to
  {
    assert RecOk(w, r, r.Recs(), i);
  }

  /** No two reconciliations share a repair or a successor. */
  lemma ReconciliationsAreInjective(w: Context, r: Registry, i: nat, j: nat)
    requires Accepted(w, r) && i < |r.Recs()| && j < |r.Recs()| && i != j
    ensures FindAllocation(r.allocations, r.Recs()[i].Historical())
            != FindAllocation(r.allocations, r.Recs()[j].Historical())
    ensures FindEvent(r.Events(), r.Recs()[i].successorEvent) != FindEvent(r.Events(), r.Recs()[j].successorEvent)
  {
    assert RecOk(w, r, r.Recs(), i) && RecOk(w, r, r.Recs(), j);
  }

  lemma {:induction false} MappedAtMostOnce(w: Context, r: Registry, k: nat, identity: (string, string, string))
    requires RecsOk(w, r) && k <= |r.Recs()|
    ensures Mappings(r.Recs()[..k], identity) <= 1
    ensures Mappings(r.Recs()[..k], identity) == 0 <==> forall i :: 0 <= i < k ==> r.Recs()[i].Historical() != identity
    decreases k
  {
    if k > 0 {
      MappedAtMostOnce(w, r, k - 1, identity);
      assert r.Recs()[..k][..k - 1] == r.Recs()[..k - 1];
      assert RecOk(w, r, r.Recs(), k - 1);
    }
  }

  /** The repairs that some reconciliation maps. */
  function MappedCount(allocations: seq<Allocation>, recs: seq<Reconciliation>): nat {
    if allocations == [] then 0
    else
      var last := allocations[|allocations| - 1];
      MappedCount(allocations[..|allocations| - 1], recs)
      + if last.status == CollisionRepair && Mappings(recs, last.Identity()) == 1 then 1 else 0
  }

  /** The repairs no reconciliation maps, but which were recorded as resolved. */
  function UnmappedResolved(allocations: seq<Allocation>, recs: seq<Reconciliation>): nat {
    if allocations == [] then 0
    else
      var last := allocations[|allocations| - 1];
      UnmappedResolved(allocations[..|allocations| - 1], recs)
      + if last.status == CollisionRepair && Mappings(recs, last.Identity()) == 0 && last.reconciliation == Resolved
        then 1 else 0
  }

  /** The next reconciliation changes how often the allocation it names is mapped, from never to once. */
  lemma MappingChanges(w: Context, r: Registry, k: nat, a: nat)
    requires RecsOk(w, r) && a < |r.allocations| && k < |r.Recs()|
    ensures FindAllocation(r.allocations, r.Recs()[k].Historical()).Some?
    ensures var at := FindAllocation(r.allocations, r.Recs()[k].Historical()).value;
            var before, after := Mappings(r.Recs()[..k], r.allocations[a].Identity()),
                                 Mappings(r.Recs()[..k + 1], r.allocations[a].Identity());
            if a == at then r.allocations[a].status == CollisionRepair && before == 0 && after == 1 else after == before
  {
    assert RecOk(w, r, r.Recs(), k);
    assert r.Recs()[..k + 1][..k] == r.Recs()[..k];
    MappedAtMostOnce(w, r, k, r.allocations[a].Identity());
  }

  /** One more reconciliation maps exactly one more allocation: the one it names. */
  lemma {:induction false} MappingStep(w: Context, r: Registry, m: nat, k: nat)
    requires RecsOk(w, r) && m <= |r.allocations| && k < |r.Recs()|
    ensures FindAllocation(r.allocations, r.Recs()[k].Historical()).Some?
    ensures var at := FindAllocation(r.allocations, r.Recs()[k].Historical()).value;
            MappedCount(r.allocations[..m], r.Recs()[..k + 1])
            == MappedCount(r.allocations[..m], r.Recs()[..k]) + if at < m then 1 else 0
    decreases m
  {
    if m == 0 {
      assert RecOk(w, r, r.Recs(), k);
    } else {
      MappingStep(w, r, m - 1, k);
      assert r.allocations[..m][..m - 1] == r.allocations[..m - 1];
      MappingChanges(w, r, k, m - 1);
    }
  }

  lemma {:induction false} MappedCountIsRecs(w: Context, r: Registry, k: nat)
    requires RecsOk(w, r) && k <= |r.Recs()|
    ensures MappedCount(r.allocations, r.Recs()[..k]) == k
    decreases k
  {
    assert r.allocations[..|r.allocations|] == r.allocations;
    if k == 0 {
      NothingMapped(r.allocations);
    } else {
      MappedCountIsRecs(w, r, k - 1);
      MappingStep(w, r, |r.allocations|, k - 1);
    }
  }

  lemma {:induction false} NothingMapped(allocations: seq<Allocation>)
    ensures MappedCount(allocations, []) == 0
  {
    if allocations != [] {
      NothingMapped(allocations[..|allocations| - 1]);
    }
  }

  lemma {:induction false} ResolvedSplits(w: Context, r: Registry, m: nat)
    requires RecsOk(w, r) && m <= |r.allocations|
    ensures ResolvedCount(r.allocations[..m], r.Recs())
            == MappedCount(r.allocations[..m], r.Recs()) + UnmappedResolved(r.allocations[..m], r.Recs())
    decreases m
  {
    if m > 0 {
      ResolvedSplits(w, r, m - 1);
      assert r.allocations[..m][..m - 1] == r.allocations[..m - 1];
      MappedAtMostOnce(w, r, |r.Recs()|, r.allocations[m - 1].Identity());
      assert r.Recs()[..|r.Recs()|] == r.Recs();
    }
  }

  /** The reported resolved count: all reconciliations, plus the unmapped repairs already marked resolved. */
  lemma ResolvedCountIsExact(w: Context, r: Registry)
    requires Accepted(w, r)
    ensures ReportOf(w, r).resolvedCount == |r.Recs()| + UnmappedResolved(r.allocations, r.Recs())
  {
    assert r.allocations[..|r.allocations|] == r.allocations;
    assert r.Recs()[..|r.Recs()|] == r.Recs();
    ResolvedSplits(w, r, |r.allocations|);
    MappedCountIsRecs(w, r, |r.Recs()|);
  }

  // ----- chains of revisions

  /** Each revision is accepted against the one before; the first has no lifecycle evidence yet. */
  ghost predicate History(ws: seq<Context>, rs: seq<Registry>) {
    && |rs| == |ws| && |rs| > 0 && rs[0].Events() == [] && rs[0].Recs() == []
    && forall k :: 0 < k < |rs| ==> Succeeds(ws[k], rs[k - 1], rs[k])
  }

  ghost predicate Succeeds(w: Context, before: Registry, after: Registry) {
    Accepted(w, after) && w.baseline == Some(before)
  }

  /** Bootstrap allocations never change; events and reconciliations only grow at the end. */
  lemma {:induction false} HistoryGrows(ws: seq<Context>, rs: seq<Registry>, k: nat, m: nat)
    requires History(ws, rs) && k <= m < |rs|
    ensures rs[m].allocations == rs[k].allocations
    ensures rs[k].Events() <= rs[m].Events() && rs[k].Recs() <= rs[m].Recs()
    decreases m
  {
    if k < m {
      HistoryGrows(ws, rs, k, m - 1);
      assert Succeeds(ws[m], rs[m - 1], rs[m]);
    }
  }

  /** The first revision that holds an event position. */
  function FirstWithEvent(rs: seq<Registry>, m: nat, i: nat): (k: nat)
    requires m < |rs| && i < |rs[m].Events()|
    ensures k <= m && i < |rs[k].Events()|
  {
    if m > 0 && i < |rs[m - 1].Events()| then FirstWithEvent(rs, m - 1, i) else m
  }

  function FirstWithRec(rs: seq<Registry>, m: nat, i: nat): (k: nat)
    requires m < |rs| && i < |rs[m].Recs()|
    ensures k <= m && i < |rs[k].Recs()|
  {
    if m > 0 && i < |rs[m - 1].Recs()| then FirstWithRec(rs, m - 1, i) else m
  }

  ghost predicate EventsGrow(rs: seq<Registry>) {
    forall k, m :: 0 <= k <= m < |rs| ==> |rs[k].Events()| <= |rs[m].Events()|
  }

  lemma HistoryEventsGrow(ws: seq<Context>, rs: seq<Registry>)
    requires History(ws, rs)
    ensures EventsGrow(rs)
  {
    forall k, m | 0 <= k <= m < |rs| ensures |rs[k].Events()| <= |rs[m].Events()| {
      HistoryGrows(ws, rs, k, m);
    }
  }

  /** No earlier revision holds the position, so the function does find the first. */
  lemma {:induction false} FirstIsFirst(rs: seq<Registry>, m: nat, i: nat, k: nat)
    requires EventsGrow(rs) && m < |rs| && i < |rs[m].Events()| && k < |rs| && i < |rs[k].Events()|
    ensures FirstWithEvent(rs, m, i) <= k
    decreases m
  {
    if m > 0 && i < |rs[m - 1].Events()| {
      FirstIsFirst(rs, m - 1, i, k);
    }
  }

  /** Event ids tell the events of an accepted registry apart. */
  lemma EventIdsAreUnique(w: Context, r: Registry, i: nat, j: nat)
    requires EventsOk(w, r) && i < |r.Events()| && j < |r.Events()| && r.Events()[i].eventId == r.Events()[j].eventId
    ensures i == j
  {
    assert EventOk(w, r, r.Events(), i) && EventOk(w, r, r.Events(), j);
  }

  /** An allocation that a revision adds continues a reservation its predecessor already holds. */
  lemma NewAllocationLinks(w: Context, before: Registry, after: Registry, i: nat) returns (j: nat)
    requires Succeeds(w, before, after) && |before.Events()| <= i < |after.Events()|
    requires after.Events()[i].kind == Allocated
    ensures j < i && j < |before.Events()| && after.Events()[j].kind == Reserved
    ensures after.Events()[j].apId == after.Events()[i].apId
    ensures after.Events()[i].prior == Some(after.Events()[j].eventId)
  {
    var events, base := after.Events(), before.Events();
    assert EventOk(w, after, events, i) && LinkOk(events, i);
    j := Latest(events, i, events[i].apId).value;
    assert NewEventOk(w, before, events[i]);
    var at :| 0 <= at < |base| && base[at].eventId == events[i].prior.value;
    assert events[at] == base[at];
    EventIdsAreUnique(w, after, at, j);
  }

  /** Every allocation first appears in a strictly later revision than the reservation it continues. */
  lemma AllocationFollowsReservation(ws: seq<Context>, rs: seq<Registry>, m: nat, i: nat) returns (j: nat)
    requires History(ws, rs) && m < |rs| && i < |rs[m].Events()| && rs[m].Events()[i].kind == Allocated
    ensures j < i && rs[m].Events()[j].kind == Reserved && rs[m].Events()[j].apId == rs[m].Events()[i].apId
    ensures rs[m].Events()[i].prior == Some(rs[m].Events()[j].eventId)
    ensures FirstWithEvent(rs, m, j) < FirstWithEvent(rs, m, i)
  {
    var k := FirstWithEvent(rs, m, i);
    HistoryGrows(ws, rs, k, m);
    HistoryEventsGrow(ws, rs);
    NotBeforeFirst(rs, m, i);
    assert rs[k].Events()[i] == rs[m].Events()[i];
    j := NewAllocationLinks(ws[k], rs[k - 1], rs[k], i);
    assert rs[k].Events()[j] == rs[m].Events()[j];
    FirstIsFirst(rs, m, j, k - 1);
  }

  lemma {:induction false} NotBeforeFirst(rs: seq<Registry>, m: nat, i: nat)
    requires m < |rs| && i < |rs[m].Events()|
    ensures var k := FirstWithEvent(rs, m, i); k > 0 ==> |rs[k - 1].Events()| <= i
    decreases m
  {
    if m > 0 && i < |rs[m - 1].Events()| {
      NotBeforeFirst(rs, m - 1, i);
    }
  }

  lemma {:induction false} NotBeforeFirstRec(rs: seq<Registry>, m: nat, i: nat)
    requires m < |rs| && i < |rs[m].Recs()|
    ensures var k := FirstWithRec(rs, m, i); k > 0 ==> |rs[k - 1].Recs()| <= i
    decreases m
  {
    if m > 0 && i < |rs[m - 1].Recs()| {
      NotBeforeFirstRec(rs, m - 1, i);
    }
  }

  /** A reconciliation that a revision adds maps to an allocation its predecessor already holds. */
  lemma NewReconciliationLinks(w: Context, before: Registry, after: Registry, i: nat) returns (j: nat)
    requires Succeeds(w, before, after) && |before.Recs()| <= i < |after.Recs()|
    ensures j < |before.Events()| <= |after.Events()| && after.Events()[j] == before.Events()[j]
    ensures after.Events()[j].eventId == after.Recs()[i].successorEvent && after.Events()[j].kind == Allocated
  {
    assert NewRecOk(w, before, after.Recs()[i]);
    j :| 0 <= j < |before.Events()| && before.Events()[j].eventId == after.Recs()[i].successorEvent
         && before.Events()[j].kind == Allocated;
  }

  /** The event an id finds in an accepted registry is the one that carries it. */
  lemma FoundByItsId(w: Context, r: Registry, j: nat)
    requires Accepted(w, r) && j < |r.Events()|
    ensures FindEvent(r.Events(), r.Events()[j].eventId) == Some(j)
  {
    EventIdsAreUnique(w, r, j, FindEvent(r.Events(), r.Events()[j].eventId).value);
  }

  /** Every reconciliation first appears in a strictly later revision than the allocation it maps to. */
  lemma ReconciliationFollowsAllocation(ws: seq<Context>, rs: seq<Registry>, m: nat, i: nat) returns (j: nat)
    requires History(ws, rs) && m < |rs| && i < |rs[m].Recs()|
    ensures FindEvent(rs[m].Events(), rs[m].Recs()[i].successorEvent) == Some(j)
    ensures j < |rs[m].Events()| && rs[m].Events()[j].kind == Allocated
    ensures FirstWithEvent(rs, m, j) < FirstWithRec(rs, m, i)
  {
    var k := FirstWithRec(rs, m, i);
    HistoryGrows(ws, rs, k, m);
    HistoryEventsGrow(ws, rs);
    NotBeforeFirstRec(rs, m, i);
    assert rs[k].Recs()[i] == rs[m].Recs()[i];
    j := NewReconciliationLinks(ws[k], rs[k - 1], rs[k], i);
    assert rs[m].Events()[j] == rs[k].Events()[j];
    assert Succeeds(ws[m], rs[m - 1], rs[m]);
    FoundByItsId(ws[m], rs[m], j);
    FirstIsFirst(rs, m, j, k - 1);
  }

  /**
   An allocation once used as a reconciliation successor is never superseded: in every later
   accepted revision it is still the latest event of its id, at the same position.
   */
  lemma SuccessorIsNeverSuperseded(ws: seq<Context>, rs: seq<Registry>, k: nat, m: nat, i: nat)
    requires History(ws, rs) && k <= m < |rs| && i < |rs[k].Recs()|
    ensures var found := FindEvent(rs[k].Events(), rs[k].Recs()[i].successorEvent);
            && found.Some? && found.value < |rs[m].Events()| && rs[m].Events()[found.value] == rs[k].Events()[found.value]
            && Latest(rs[m].Events(), |rs[m].Events()|, rs[k].Recs()[i].successorApId) == found
            && forall j :: 0 <= j < |rs[m].Events()| && rs[m].Events()[j].apId == rs[k].Recs()[i].successorApId ==>
                 rs[m].Events()[j].kind != Superseded
  {
    var rec := rs[k].Recs()[i];
    HistoryGrows(ws, rs, k, m);
    assert k > 0;
    assert Succeeds(ws[k], rs[k - 1], rs[k]) && Succeeds(ws[m], rs[m - 1], rs[m]);
    assert RecOk(ws[k], rs[k], rs[k].Recs(), i);
    assert rs[m].Recs()[i] == rec;
    assert RecOk(ws[m], rs[m], rs[m].Recs(), i);
    var events := rs[m].Events();
    var found := FindEvent(rs[k].Events(), rec.successorEvent).value;
    EventIdsAreUnique(ws[m], rs[m], found, FindEvent(events, rec.successorEvent).value);
    LiveChainHasNoSuperseded(ws[m], rs[m], rec.successorApId, found);
  }

  lemma LiveChainHasNoSuperseded(w: Context, r: Registry, apId: string, at: nat)
    requires EventsOk(w, r) && Latest(r.Events(), |r.Events()|, apId) == Some(at) && r.Events()[at].kind == Allocated
    ensures forall j :: 0 <= j < |r.Events()| && r.Events()[j].apId == apId ==> r.Events()[j].kind != Superseded
  {
    var events, n := r.Events(), |r.Events()|;
    var chain := Chain(events, n, apId);
    ChainFollowsLatest(w, r, n, apId);
    assert StageOk(chain, |chain| - 1);
    forall j | 0 <= j < n && events[j].apId == apId ensures events[j].kind != Superseded {
      ChainHolds(events, n, apId, j);
      var p :| 0 <= p < |chain| && chain[p] == events[j];
      assert StageOk(chain, p);
    }
  }
}

/**
 The registry validator as it is written: one loop per collection, keeping dictionaries of what
 it has seen.  Every pass is proved to decide exactly its phase of acceptance.
 */
module RegistryValidator {
  import opened Options
  import opened Registry

  method CheckRanges(blocked: seq<BlockedRange>) returns (ok: bool)
    ensures ok <==> forall i :: 0 <= i < |blocked| ==> RangeOk(blocked, i)
  {
    var result: seq<(int, int)> := [];
    for i := 0 to |blocked|
      invariant |result| == i
      invariant forall j :: 0 <= j < i ==> RangeOk(blocked, j) && result[j] == (blocked[j].start, blocked[j].end)
    {
      var item := blocked[i];
      if item.start < 1 || item.end < item.start || item.reason == ""
         || (result != [] && item.start <= result[|result| - 1].1) {
        assert !RangeOk(blocked, i);
        return false;
      }
      result := result + [(item.start, item.end)];
    }
    return true;
  }

  /** The allocations of the first n, grouped by id. */
  ghost predicate Grouped(allocations: seq<Allocation>, n: nat, byId: map<string, seq<nat>>)
    requires n <= |allocations|
  {
    && (forall id :: id in byId ==> GroupOk(allocations, n, id, byId[id]))
    && (forall i :: 0 <= i < n ==> allocations[i].apId in byId)
  }

  ghost predicate GroupOk(allocations: seq<Allocation>, n: nat, id: string, group: seq<nat>)
    requires n <= |allocations|
  {
    && group != [] && (forall k :: 0 <= k < |group| ==> group[k] < n && allocations[group[k]].apId == id)
    && (forall i :: 0 <= i < n && allocations[i].apId == id ==> i in group)
  }

  lemma GroupGrows(allocations: seq<Allocation>, n: nat, id: string, group: seq<nat>)
    requires n < |allocations| && id == allocations[n].apId
    requires (group == [] && forall i :: 0 <= i < n ==> allocations[i].apId != id) || GroupOk(allocations, n, id, group)
    ensures GroupOk(allocations, n + 1, id, group + [n])
  {
    var next := group + [n];
    assert next[|group|] == n;
    forall i | 0 <= i < n + 1 && allocations[i].apId == id ensures i in next {
      if i < n {
        assert i in group;
      }
    }
  }

  /** Files the next allocation under its id. */
  method AddToGroup(allocations: seq<Allocation>, n: nat, byId: map<string, seq<nat>>)
    returns (byId': map<string, seq<nat>>)
    requires n < |allocations| && Grouped(allocations, n, byId)
    ensures Grouped(allocations, n + 1, byId')
  {
    var id := allocations[n].apId;
    var group := if id in byId then byId[id] else [];
    GroupGrows(allocations, n, id, group);
    byId' := byId[id := group + [n]];
    forall other | other in byId' ensures GroupOk(allocations, n + 1, other, byId'[other]) {
      if other != id {
        assert GroupOk(allocations, n, other, byId[other]);
      }
    }
  }

  /** The identities of the first n allocations. */
  ghost predicate Seen(allocations: seq<Allocation>, n: nat, identities: set<(string, string, string)>)
    requires n <= |allocations|
  {
    && (forall j :: 0 <= j < n ==> allocations[j].Identity() in identities)
    && (forall t :: t in identities ==> exists j :: 0 <= j < n && allocations[j].Identity() == t)
  }

  lemma SeenStep(allocations: seq<Allocation>, n: nat, identities: set<(string, string, string)>)
    requires n < |allocations| && Seen(allocations, n, identities)
    ensures Seen(allocations, n + 1, identities + {allocations[n].Identity()})
  {
    forall t | t in identities + {allocations[n].Identity()}
      ensures exists j :: 0 <= j < n + 1 && allocations[j].Identity() == t
    {
      if t in identities {
        var j :| 0 <= j < n && allocations[j].Identity() == t;
      }
    }
  }

  ghost predicate AllocationsOkTo(allocations: seq<Allocation>, blocked: seq<BlockedRange>, n: nat)
    requires n <= |allocations|
  {
    forall j :: 0 <= j < n ==> AllocationOk(allocations, blocked, j)
  }

  lemma AllocationsOkStep(allocations: seq<Allocation>, blocked: seq<BlockedRange>, n: nat)
    requires n < |allocations| && AllocationsOkTo(allocations, blocked, n)
    ensures n > 0 ==> AllocationOk(allocations, blocked, n - 1)
    ensures AllocationsOkTo(allocations, blocked, n + 1) <==> AllocationOk(allocations, blocked, n)
    ensures !AllocationOk(allocations, blocked, n) ==> !AllocationsOkTo(allocations, blocked, |allocations|)
  {
  }

  /** One allocation against the identities seen before it. */
  method CheckAllocation(allocations: seq<Allocation>, blocked: seq<BlockedRange>, i: nat,
                         identities: set<(string, string, string)>) returns (ok: bool)
    requires i < |allocations| && Seen(allocations, i, identities)
    requires i > 0 ==> AllocationOk(allocations, blocked, i - 1)
    ensures ok <==> AllocationOk(allocations, blocked, i)
  {
    var item := allocations[i];
    if !AllocationFieldsOk(item) || Blocked(blocked, ApNumber(item.apId)) {
      return false;
    }
    if item.Identity() in identities {
      return false;
    }
    return i == 0 || KeyLess(allocations[i - 1], item);
  }

  method CheckAllocations(allocations: seq<Allocation>, blocked: seq<BlockedRange>)
    returns (ok: bool, byId: map<string, seq<nat>>)
    ensures ok <==> AllocationsOkTo(allocations, blocked, |allocations|)
    ensures ok ==> Grouped(allocations, |allocations|, byId)
  {
    var identities: set<(string, string, string)> := {};
    byId := map[];
    for i := 0 to |allocations|
      invariant AllocationsOkTo(allocations, blocked, i)
      invariant Seen(allocations, i, identities)
      invariant Grouped(allocations, i, byId)
    {
      AllocationsOkStep(allocations, blocked, i);
      ok := CheckAllocation(allocations, blocked, i, identities);
      if !ok {
        return;
      }
      SeenStep(allocations, i, identities);
      identities := identities + {allocations[i].Identity()};
      byId := AddToGroup(allocations, i, byId);
    }
    ok := true;
  }

  /** One id's records agree, as pairs. */
  ghost predicate IdOk(allocations: seq<Allocation>, id: string) {
    forall i, j :: 0 <= i < |allocations| && 0 <= j < |allocations| && allocations[i].apId == id ==>
      PairOk(allocations[i], allocations[j])
  }

  lemma ManyMeansTwo<T>(s: set<T>, x: T)
    requires x in s
    ensures |s| > 1 <==> exists y :: y in s && y != x
  {
    if y :| y in s && y != x {
      assert {x, y} <= s;
      assert |s - {x}| >= 1 by { assert y in s - {x}; }
    } else {
      assert s == {x};
    }
  }

  /** The titles of a group collide exactly when the id does. */
  lemma TitlesCollide(allocations: seq<Allocation>, id: string, group: seq<nat>)
    requires GroupOk(allocations, |allocations|, id, group)
    ensures var titles := set k | 0 <= k < |group| :: allocations[group[k]].title;
            |titles| > 1 <==> Collides(allocations, id)
  {
    var titles := set k | 0 <= k < |group| :: allocations[group[k]].title;
    var first := allocations[group[0]].title;
    assert first in titles;
    ManyMeansTwo(titles, first);
    if |titles| > 1 {
      var y :| y in titles && y != first;
      var k :| 0 <= k < |group| && allocations[group[k]].title == y;
      assert allocations[group[k]].apId == id && allocations[group[0]].apId == id;
    }
    if Collides(allocations, id) {
      var i, j :| 0 <= i < |allocations| && 0 <= j < |allocations| && allocations[i].apId == id
                  && allocations[j].apId == id && allocations[i].title != allocations[j].title;
      assert i in group && j in group;
      assert allocations[i].title in titles && allocations[j].title in titles;
    }
  }

  /** What the pass over one group decides. */
  lemma GroupDecides(allocations: seq<Allocation>, id: string, group: seq<nat>)
    requires GroupOk(allocations, |allocations|, id, group)
    ensures IdOk(allocations, id) <==>
              && (Collides(allocations, id) ==>
                    forall k :: 0 <= k < |group| ==> allocations[group[k]].status == CollisionRepair)
              && !((exists k :: 0 <= k < |group| && allocations[group[k]].Retired())
                   && (exists k :: 0 <= k < |group| && allocations[group[k]].Active()))
  {
    if IdOk(allocations, id) {
      if Collides(allocations, id) {
        var i, j :| 0 <= i < |allocations| && 0 <= j < |allocations| && allocations[i].apId == id
                    && allocations[j].apId == id && allocations[i].title != allocations[j].title;
        forall k | 0 <= k < |group| ensures allocations[group[k]].status == CollisionRepair {
          assert PairOk(allocations[group[k]], allocations[i]) && PairOk(allocations[group[k]], allocations[j]);
        }
      }
      forall k, l | 0 <= k < |group| && 0 <= l < |group|
        ensures !(allocations[group[k]].Retired() && allocations[group[l]].Active())
      {
        assert PairOk(allocations[group[k]], allocations[group[l]]);
      }
    }
  }

  /** One id's records: whether their titles collide, and whether the id is used consistently. */
  method CheckGroup(allocations: seq<Allocation>, id: string, group: seq<nat>) returns (ok: bool, collides: bool)
    requires GroupOk(allocations, |allocations|, id, group)
    ensures ok <==> IdOk(allocations, id)
    ensures collides <==> Collides(allocations, id)
  {
    TitlesCollide(allocations, id, group);
    GroupDecides(allocations, id, group);
    var titles := set k | 0 <= k < |group| :: allocations[group[k]].title;
    collides := |titles| > 1;
    if collides && exists k :: 0 <= k < |group| && allocations[group[k]].status != CollisionRepair {
      return false, collides;
    }
    ok := !((exists k :: 0 <= k < |group| && allocations[group[k]].Retired())
            && (exists k :: 0 <= k < |group| && allocations[group[k]].Active()));
  }

  ghost predicate IdsOk(allocations: seq<Allocation>, ids: set<string>) {
    forall id :: id in ids ==> IdOk(allocations, id)
  }

  lemma IdsOkStep(allocations: seq<Allocation>, keys: set<string>, ids: set<string>, id: string)
    requires IdsOk(allocations, ids) && id in keys
    ensures IdsOk(allocations, ids + {id}) <==> IdOk(allocations, id)
    ensures !IdOk(allocations, id) ==> !IdsOk(allocations, keys)
  {
  }

  /** All groups agree exactly when all pairs do. */
  lemma GroupsDecide(allocations: seq<Allocation>, byId: map<string, seq<nat>>)
    requires Grouped(allocations, |allocations|, byId)
    ensures CollisionsOk(allocations) <==> IdsOk(allocations, byId.Keys)
  {
    if IdsOk(allocations, byId.Keys) {
      forall i, j | 0 <= i < |allocations| && 0 <= j < |allocations| ensures PairOk(allocations[i], allocations[j]) {
        assert IdOk(allocations, allocations[i].apId);
      }
    }
  }

  lemma GroupsAreApIds(allocations: seq<Allocation>, byId: map<string, seq<nat>>)
    requires Grouped(allocations, |allocations|, byId)
    ensures byId.Keys == ApIds(allocations)
  {
    forall id | id in byId ensures id in ApIds(allocations) {
      assert GroupOk(allocations, |allocations|, id, byId[id]);
      assert allocations[byId[id][0]].apId == id;
    }
  }

  ghost function CollidingAmong(allocations: seq<Allocation>, ids: set<string>): set<string> {
    set id | id in ids && Collides(allocations, id)
  }

  lemma CollidingStep(allocations: seq<Allocation>, ids: set<string>, id: string)
    requires id !in ids
    ensures |CollidingAmong(allocations, ids + {id})|
            == |CollidingAmong(allocations, ids)| + if Collides(allocations, id) then 1 else 0
  {
    var before, after := CollidingAmong(allocations, ids), CollidingAmong(allocations, ids + {id});
    if Collides(allocations, id) {
      assert after == before + {id};
    } else {
      assert after == before;
    }
  }

  lemma Visited(keys: set<string>, pending: set<string>, id: string)
    requires id in pending && pending <= keys
    ensures keys - (pending - {id}) == (keys - pending) + {id} && pending - {id} <= keys && id !in keys - pending
  {
  }

  /** The groups are visited in no particular order: neither the verdict nor the count depends on it. */
  method VisitGroups(allocations: seq<Allocation>, byId: map<string, seq<nat>>) returns (ok: bool, collisions: nat)
    requires forall id :: id in byId ==> GroupOk(allocations, |allocations|, id, byId[id])
    ensures ok <==> IdsOk(allocations, byId.Keys)
    ensures ok ==> collisions == |CollidingAmong(allocations, byId.Keys)|
  {
    collisions := 0;
    var pending := byId.Keys;
    ghost var done: set<string> := {};
    while pending != {}
      invariant pending <= byId.Keys && done == byId.Keys - pending
      invariant IdsOk(allocations, done)
      invariant collisions == |CollidingAmong(allocations, done)|
      decreases |pending|
    {
      var id :| id in pending;
      var collides;
      ok, collides := CheckGroup(allocations, id, byId[id]);
      CollidingStep(allocations, done, id);
      IdsOkStep(allocations, byId.Keys, done, id);
      if !ok {
        return;
      }
      collisions := if collides then collisions + 1 else collisions;
      Visited(byId.Keys, pending, id);
      pending, done := pending - {id}, done + {id};
    }
    ok := true;
    assert done == byId.Keys;
  }

  method CheckCollisions(allocations: seq<Allocation>, byId: map<string, seq<nat>>) returns (ok: bool, collisions: nat)
    requires Grouped(allocations, |allocations|, byId)
    ensures ok <==> CollisionsOk(allocations)
    ensures ok ==> collisions == |CollidingIds(allocations)|
  {
    ok, collisions := VisitGroups(allocations, byId);
    GroupsDecide(allocations, byId);
    GroupsAreApIds(allocations, byId);
    assert CollidingAmong(allocations, byId.Keys) == CollidingIds(allocations);
  }

  /** The event dictionaries after n events: ids to positions, and the latest position of each identity. */
  ghost predicate Indexed(events: seq<Event>, n: nat, byEventId: map<string, nat>, latest: map<string, nat>)
    requires n <= |events|
  {
    && (forall id :: id in byEventId ==> byEventId[id] < n && events[byEventId[id]].eventId == id)
    && (forall i :: 0 <= i < n ==> events[i].eventId in byEventId && byEventId[events[i].eventId] == i)
    && (forall ap :: ap in latest ==> Latest(events, n, ap) == Some(latest[ap]))
    && (forall i :: 0 <= i < n ==> events[i].apId in latest)
  }

  /** The chain checks on the dictionaries are the link of the event to the latest event of its identity. */
  lemma LinkDecides(events: seq<Event>, i: nat, byEventId: map<string, nat>, latest: map<string, nat>)
    requires i < |events| && Indexed(events, i, byEventId, latest) && !events[i].kind.OtherKind?
    ensures var e := events[i];
            var prior := if e.prior.Some? && e.prior.value in byEventId then Some(byEventId[e.prior.value]) else None;
            var last := if e.apId in latest then Some(latest[e.apId]) else None;
            LinkOk(events, i) <==>
              if e.kind == Reserved then e.prior.None? && last.None?
              else
                && prior.Some? && prior == last
                && e.title == events[prior.value].title && e.purpose == events[prior.value].purpose
                && events[prior.value].kind == (if e.kind == Allocated then Reserved else Allocated)
  {
    var l := Latest(events, i, events[i].apId);
    assert l.Some? <==> events[i].apId in latest;
  }

  /** One event against the dictionaries of the events before it. */
  method CheckEvent(w: Context, r: Registry, events: seq<Event>, i: nat, byEventId: map<string, nat>,
                    latest: map<string, nat>) returns (ok: bool)
    requires i < |events| && Indexed(events, i, byEventId, latest)
    ensures ok <==> EventOk(w, r, events, i)
  {
    var item := events[i];
    if !EventFieldsOk(w, r, item) || item.eventId in byEventId {
      return false;
    }
    LinkDecides(events, i, byEventId, latest);
    if item.kind == Reserved {
      return item.prior.None? && item.apId !in latest;
    }
    if item.prior.None? || item.prior.value !in byEventId || item.apId !in latest
       || byEventId[item.prior.value] != latest[item.apId] {
      return false;
    }
    var prior := events[byEventId[item.prior.value]];
    if (item.title, item.purpose) != (prior.title, prior.purpose) {
      return false;
    }
    return prior.kind == (if item.kind == Allocated then Reserved else Allocated);
  }

  /** Enters an accepted event into the dictionaries. */
  method IndexEvent(events: seq<Event>, i: nat, byEventId: map<string, nat>, latest: map<string, nat>)
    returns (byEventId': map<string, nat>, latest': map<string, nat>)
    requires i < |events| && Indexed(events, i, byEventId, latest) && events[i].eventId !in byEventId
    ensures Indexed(events, i + 1, byEventId', latest')
  {
    byEventId' := byEventId[events[i].eventId := i];
    latest' := latest[events[i].apId := i];
    forall j | 0 <= j < i + 1 ensures events[j].eventId in byEventId' && byEventId'[events[j].eventId] == j {
      assert j < i ==> events[j].eventId in byEventId;
    }
  }

  ghost predicate EventsOkTo(w: Context, r: Registry, n: nat)
    requires n <= |r.Events()|
  {
    forall j :: 0 <= j < n ==> EventOk(w, r, r.Events(), j)
  }

  lemma EventsOkStep(w: Context, r: Registry, n: nat)
    requires n < |r.Events()| && EventsOkTo(w, r, n)
    ensures EventsOkTo(w, r, n + 1) <==> EventOk(w, r, r.Events(), n)
    ensures !EventOk(w, r, r.Events(), n) ==> !EventsOk(w, r)
  {
  }

  /** An accepted event has an id that the dictionary does not know yet. */
  lemma AcceptedIdIsNew(w: Context, r: Registry, i: nat, byEventId: map<string, nat>, latest: map<string, nat>)
    requires i < |r.Events()| && Indexed(r.Events(), i, byEventId, latest) && EventOk(w, r, r.Events(), i)
    ensures r.Events()[i].eventId !in byEventId
  {
  }

  method CheckEvents(w: Context, r: Registry)
    returns (ok: bool, byEventId: map<string, nat>, latest: map<string, nat>)
    ensures ok <==> EventsOk(w, r)
    ensures ok ==> Indexed(r.Events(), |r.Events()|, byEventId, latest)
  {
    var events := r.Events();
    byEventId, latest := map[], map[];
    for i := 0 to |events|
      invariant EventsOkTo(w, r, i)
      invariant Indexed(events, i, byEventId, latest)
    {
      ok := CheckEvent(w, r, events, i, byEventId, latest);
      EventsOkStep(w, r, i);
      if !ok {
        return;
      }
      AcceptedIdIsNew(w, r, i, byEventId, latest);
      byEventId, latest := IndexEvent(events, i, byEventId, latest);
    }
    ok := true;
  }

  /** All positions of the allocations with an identity. */
  method MatchingAllocations(allocations: seq<Allocation>, identity: (string, string, string)) returns (matching: seq<nat>)
    ensures forall k :: 0 <= k < |matching| ==> matching[k] < |allocations| && allocations[matching[k]].Identity() == identity
    ensures forall j :: 0 <= j < |allocations| && allocations[j].Identity() == identity ==> j in matching
    ensures forall k, l :: 0 <= k < l < |matching| ==> matching[k] < matching[l]
  {
    matching := [];
    for n := 0 to |allocations|
      invariant forall k :: 0 <= k < |matching| ==> matching[k] < n && allocations[matching[k]].Identity() == identity
      invariant forall j :: 0 <= j < n && allocations[j].Identity() == identity ==> j in matching
      invariant forall k, l :: 0 <= k < l < |matching| ==> matching[k] < matching[l]
    {
      if allocations[n].Identity() == identity {
        assert (matching + [n])[|matching|] == n;
        matching := matching + [n];
      }
    }
  }

  method CheckHistorical(w: Context, allocations: seq<Allocation>, rec: Reconciliation) returns (ok: bool)
    ensures ok <==> HistoricalOk(w, allocations, rec)
  {
    var matching := MatchingAllocations(allocations, rec.Historical());
    ghost var found := FindAllocation(allocations, rec.Historical());
    if |matching| != 1 {
      if |matching| > 1 {
        assert matching[0] < matching[1];
      }
      return false;
    }
    assert found == Some(matching[0]);
    ok := allocations[matching[0]].status == CollisionRepair && rec.composite == w.compositeHash(rec.Historical());
  }

  predicate CheckSuccessor(events: seq<Event>, byEventId: map<string, nat>, latest: map<string, nat>, rec: Reconciliation)
    requires forall id :: id in byEventId ==> byEventId[id] < |events|
  {
    && rec.successorEvent in byEventId
    && var at := byEventId[rec.successorEvent];
    && events[at].kind == Allocated && events[at].apId in latest && latest[events[at].apId] == at
    && (rec.successorApId, rec.successorTitle) == (events[at].apId, events[at].title)
  }

  lemma SuccessorDecides(events: seq<Event>, byEventId: map<string, nat>, latest: map<string, nat>, rec: Reconciliation)
    requires Indexed(events, |events|, byEventId, latest)
    ensures CheckSuccessor(events, byEventId, latest, rec) <==> SuccessorOk(events, rec)
  {
    var found := FindEvent(events, rec.successorEvent);
    assert found.Some? <==> rec.successorEvent in byEventId;
    assert found.Some? ==> byEventId[rec.successorEvent] == found.value;
  }

  /** The ids, historical identities and successors of the first n reconciliations. */
  ghost predicate Used(recs: seq<Reconciliation>, n: nat, recIds: set<string>,
                       historicals: set<(string, string, string)>, successors: set<string>)
    requires n <= |recs|
  {
    && recIds == (set j | 0 <= j < n :: recs[j].recId)
    && historicals == (set j | 0 <= j < n :: recs[j].Historical())
    && successors == (set j | 0 <= j < n :: recs[j].successorEvent)
  }

  lemma UsedStep(recs: seq<Reconciliation>, n: nat, recIds: set<string>,
                 historicals: set<(string, string, string)>, successors: set<string>)
    requires n < |recs| && Used(recs, n, recIds, historicals, successors)
    ensures Used(recs, n + 1, recIds + {recs[n].recId}, historicals + {recs[n].Historical()},
                 successors + {recs[n].successorEvent})
  {
  }

  ghost predicate RecsOkTo(w: Context, r: Registry, n: nat)
    requires n <= |r.Recs()|
  {
    forall j :: 0 <= j < n ==> RecOk(w, r, r.Recs(), j)
  }

  lemma RecsOkStep(w: Context, r: Registry, n: nat)
    requires n < |r.Recs()| && RecsOkTo(w, r, n)
    ensures RecsOkTo(w, r, n + 1) <==> RecOk(w, r, r.Recs(), n)
    ensures !RecOk(w, r, r.Recs(), n) ==> !RecsOk(w, r)
  {
  }

  method CheckReconciliation(w: Context, r: Registry, i: nat, byEventId: map<string, nat>, latest: map<string, nat>,
                             recIds: set<string>, historicals: set<(string, string, string)>, successors: set<string>)
    returns (ok: bool)
    requires Indexed(r.Events(), |r.Events()|, byEventId, latest)
    requires i < |r.Recs()| && Used(r.Recs(), i, recIds, historicals, successors)
    ensures ok <==> RecOk(w, r, r.Recs(), i)
  {
    var item := r.Recs()[i];
    if !RecFieldsOk(w, item) {
      return false;
    }
    ok := CheckHistorical(w, r.allocations, item);
    SuccessorDecides(r.Events(), byEventId, latest, item);
    if !ok || !CheckSuccessor(r.Events(), byEventId, latest, item) || item.recId != RecId(w, item) {
      return false;
    }
    ok := item.recId !in recIds && item.Historical() !in historicals && item.successorEvent !in successors;
  }

  method CheckReconciliations(w: Context, r: Registry, byEventId: map<string, nat>, latest: map<string, nat>)
    returns (ok: bool)
    requires Indexed(r.Events(), |r.Events()|, byEventId, latest)
    ensures ok <==> RecsOk(w, r)
  {
    var recs := r.Recs();
    var recIds: set<string>, historicals: set<(string, string, string)>, successors: set<string> := {}, {}, {};
    for i := 0 to |recs|
      invariant RecsOkTo(w, r, i)
      invariant Used(recs, i, recIds, historicals, successors)
    {
      ok := CheckReconciliation(w, r, i, byEventId, latest, recIds, historicals, successors);
      RecsOkStep(w, r, i);
      if !ok {
        return;
      }
      UsedStep(recs, i, recIds, historicals, successors);
      recIds := recIds + {recs[i].recId};
      historicals := historicals + {recs[i].Historical()};
      successors := successors + {recs[i].successorEvent};
    }
    ok := true;
  }

  method CheckRegistered(r: Registry, headings: seq<Heading>, allocatedPairs: set<Heading>) returns (ok: bool)
    requires forall h :: h in allocatedPairs <==> AllocatedPair(r.Events(), h)
    ensures ok <==> forall k :: 0 <= k < |headings| ==> HeadingOk(r, headings[k])
  {
    var registered := (set i | 0 <= i < |r.allocations| :: (r.allocations[i].apId, r.allocations[i].title)) + allocatedPairs;
    assert forall h :: h in registered <==> HeadingOk(r, h);
    for k := 0 to |headings|
      invariant forall j :: 0 <= j < k ==> HeadingOk(r, headings[j])
    {
      if headings[k] !in registered {
        return false;
      }
    }
    return true;
  }

  method CheckReservations(r: Registry, headings: seq<Heading>, allocatedPairs: set<Heading>) returns (ok: bool)
    requires forall h :: h in allocatedPairs <==> AllocatedPair(r.Events(), h)
    ensures ok <==> forall i :: 0 <= i < |r.Events()| ==> ReservationOk(r, headings, r.Events()[i])
  {
    var events := r.Events();
    for i := 0 to |events|
      invariant forall j :: 0 <= j < i ==> ReservationOk(r, headings, events[j])
    {
      var h := (events[i].apId, events[i].title);
      if events[i].kind == Reserved && h in headings && h !in allocatedPairs {
        assert !ReservationOk(r, headings, events[i]);
        return false;
      }
    }
    return true;
  }

  method CheckLive(events: seq<Event>, headings: seq<Heading>, latest: map<string, nat>) returns (ok: bool)
    requires forall ap :: ap in latest ==> Latest(events, |events|, ap) == Some(latest[ap])
    requires forall i :: 0 <= i < |events| ==> events[i].apId in latest
    ensures ok <==> forall i :: 0 <= i < |events| ==> LiveHeadingOk(events, headings, i)
  {
    var pending := latest.Keys;
    while pending != {}
      invariant pending <= latest.Keys
      invariant forall i :: 0 <= i < |events| && events[i].apId !in pending ==> LiveHeadingOk(events, headings, i)
      decreases |pending|
    {
      var ap :| ap in pending;
      var item := events[latest[ap]];
      if item.kind == Allocated && multiset(headings)[(ap, item.title)] != 1 {
        assert !LiveHeadingOk(events, headings, latest[ap]);
        return false;
      }
      pending := pending - {ap};
    }
    return true;
  }

  method CheckHeadings(w: Context, r: Registry, latest: map<string, nat>) returns (ok: bool)
    requires forall ap :: ap in latest ==> Latest(r.Events(), |r.Events()|, ap) == Some(latest[ap])
    requires forall i :: 0 <= i < |r.Events()| ==> r.Events()[i].apId in latest
    ensures ok <==> HeadingsOk(w, r)
  {
    var events := r.Events();
    var allocatedPairs := set i | 0 <= i < |events| && events[i].kind == Allocated :: (events[i].apId, events[i].title);
    assert forall h :: h in allocatedPairs <==> AllocatedPair(events, h);
    ok := CheckRegistered(r, w.headings, allocatedPairs);
    if ok {
      ok := CheckReservations(r, w.headings, allocatedPairs);
    }
    if ok {
      ok := CheckLive(events, w.headings, latest);
    }
  }

  method CheckBaseline(w: Context, r: Registry) returns (ok: bool)
    ensures ok <==> BaselineOk(w, r)
  {
    if w.baseline.None? {
      return true;
    }
    var b := w.baseline.value;
    var events, recs, baseEvents, baseRecs := r.Events(), r.Recs(), b.Events(), b.Recs();
    if r.allocations != b.allocations || !(baseEvents <= events) || !(baseRecs <= recs) {
      return false;
    }
    if w.mainCommit.Some? && !CommitOk(w, w.mainCommit.value) {
      return false;
    }
    var baseIds := set j | 0 <= j < |baseEvents| :: baseEvents[j].eventId;
    var baseAllocated := set j | 0 <= j < |baseEvents| && baseEvents[j].kind == Allocated :: baseEvents[j].eventId;
    assert forall id :: id in baseIds <==> HasEvent(baseEvents, id);
    assert forall id :: id in baseAllocated <==> HasAllocated(baseEvents, id);
    for i := |baseEvents| to |events|
      invariant forall j :: |baseEvents| <= j < i ==> NewEventOk(w, b, events[j])
    {
      var item := events[i];
      if w.mainCommit.Some? && item.base != w.mainCommit.value {
        assert !NewEventOk(w, b, events[i]);
        return false;
      }
      if item.kind == Allocated && (item.prior.None? || item.prior.value !in baseIds) {
        assert !NewEventOk(w, b, events[i]);
        return false;
      }
    }
    for i := |baseRecs| to |recs|
      invariant forall j :: |baseRecs| <= j < i ==> NewRecOk(w, b, recs[j])
    {
      var item := recs[i];
      if (w.mainCommit.Some? && item.base != w.mainCommit.value) || item.successorEvent !in baseAllocated {
        assert !NewRecOk(w, b, recs[i]);
        return false;
      }
    }
    return true;
  }

  method CountMappings(recs: seq<Reconciliation>, identity: (string, string, string)) returns (n: nat)
    ensures n == Mappings(recs, identity)
  {
    n := 0;
    for i := 0 to |recs|
      invariant n == Mappings(recs[..i], identity)
    {
      assert recs[..i + 1][..i] == recs[..i];
      if recs[i].Historical() == identity {
        n := n + 1;
      }
    }
    assert recs[..|recs|] == recs;
  }

  method CountResolved(allocations: seq<Allocation>, recs: seq<Reconciliation>) returns (resolved: nat)
    ensures resolved == ResolvedCount(allocations, recs)
  {
    resolved := 0;
    for i := 0 to |allocations|
      invariant resolved == ResolvedCount(allocations[..i], recs)
    {
      assert allocations[..i + 1][..i] == allocations[..i];
      if allocations[i].status == CollisionRepair {
        var n := CountMappings(recs, allocations[i].Identity());
        var status := if n == 1 then Resolved else allocations[i].reconciliation;
        if status == Resolved {
          resolved := resolved + 1;
        }
      }
    }
    assert allocations[..|allocations|] == allocations;
  }

  /** The whole validation: the first failing phase, or the report of an accepted registry. */
  method Validate(w: Context, r: Registry) returns (verdict: Result<Report, Phase>)
    ensures verdict.Err? <==> FirstFailure(w, r).Some?
    ensures verdict.Err? ==> verdict.error == FirstFailure(w, r).value
    ensures verdict.Ok? ==> verdict.value == ReportOf(w, r)
  {
    if !HeaderOk(r) {
      return Err(Header);
    }
    var ranges := CheckRanges(r.blocked);
    if !ranges {
      return Err(Ranges);
    }
    if r.allocations == [] {
      return Err(NoAllocations);
    }
    if w.enablementOnly && (r.Events() != [] || r.Recs() != []) {
      return Err(Enablement);
    }
    var bootstrapped, byId := CheckAllocations(r.allocations, r.blocked);
    if !bootstrapped {
      return Err(Allocations);
    }
    if r.schema == 2 && w.provenance != Some(true) {
      return Err(Provenance);
    }
    var distinct, collisions := CheckCollisions(r.allocations, byId);
    if !distinct {
      return Err(Collisions);
    }
    var lifecycle, byEventId, latest := CheckEvents(w, r);
    if !lifecycle {
      return Err(Events);
    }
    var reconciled := CheckReconciliations(w, r, byEventId, latest);
    if !reconciled {
      return Err(Reconciliations);
    }
    var headed := CheckHeadings(w, r, latest);
    if !headed {
      return Err(Headings);
    }
    var appended := CheckBaseline(w, r);
    if !appended {
      return Err(Baseline);
    }
    var resolved := CountResolved(r.allocations, r.Recs());
    GroupsAreApIds(r.allocations, byId);
    return Ok(Report(|r.allocations|, |byId.Keys|, collisions, |w.headings|, |r.Events()|, |r.Recs()|, resolved));
  }
}

/**
 The AP decision registry: an append-only log of decision identifiers, and what it takes for
 one revision of it to be accepted, phase by phase.  Hashes, Git lookups and the historical
 provenance check are parameters; records arrive with their fields in their types.
 */
module Registry {
  import opened Options
  import opened Ordering

  // ----- records

  datatype Status = BootReserved | BootAllocated | BootSuperseded | CollisionRepair | OtherStatus(text: string)

  datatype RecStatus = NotRequired | PendingMainReview | Unresolved | Resolved | OtherRecStatus(text: string)

  datatype Allocation = Allocation(
    apId: string, title: string, status: Status, authority: string, commit: string, lineageRef: string,
    onMain: bool, origin: string, reconciliation: RecStatus)
  {
    function Identity(): (string, string, string) { (commit, apId, title) }
    predicate Active() { status == BootReserved || status == BootAllocated }
    predicate Retired() { status == BootSuperseded || status == CollisionRepair }
  }

  datatype Kind = Reserved | Allocated | Superseded | OtherKind(text: string)

  datatype Event = Event(
    eventId: string, kind: Kind, apId: string, title: string, purpose: string, base: string,
    prior: Option<string>, authority: string, approvedDate: string)

  datatype Reconciliation = Reconciliation(
    recId: string, historicalCommit: string, historicalApId: string, historicalTitle: string, composite: string,
    successorApId: string, successorTitle: string, successorEvent: string, base: string, authority: string,
    approvedDate: string)
  {
    function Historical(): (string, string, string) { (historicalCommit, historicalApId, historicalTitle) }
  }

  datatype BlockedRange = BlockedRange(start: int, end: int, reason: string)

  datatype Cutover = Cutover(
    cutoverId: string, approvedDate: string, activation: string, status: string, founderApproval: string,
    ctoApproval: string)

  /** Schema 1 has no lifecycle lists, schema 2 has both. */
  datatype Lifecycle = Lifecycle(events: seq<Event>, recs: seq<Reconciliation>)

  datatype Registry = Registry(
    schema: int, namespace: string, serialization: string, cutover: Cutover, blocked: seq<BlockedRange>,
    allocations: seq<Allocation>, lifecycle: Option<Lifecycle>)
  {
    function Events(): seq<Event> { if lifecycle.Some? then lifecycle.value.events else [] }
    function Recs(): seq<Reconciliation> { if lifecycle.Some? then lifecycle.value.recs else [] }
  }

  type Heading = (string, string)

  /** Everything a validation is given besides the registry. */
  datatype Context = Context(
    eventHash: Event -> string,
    recHash: Reconciliation -> string,
    compositeHash: ((string, string, string)) -> string,
    commitExists: Option<string -> bool>,
    mainReachable: Option<(string, string) -> bool>,
    durableReachable: Option<string -> bool>,
    provenance: Option<bool>,  // what the manifest check answers, if there is a manifest
    enablementOnly: bool,
    mainCommit: Option<string>,
    headings: seq<Heading>,
    baseline: Option<Registry>)

  // ----- identifiers

  predicate Digits(s: string) {
    forall i :: 0 <= i < |s| ==> '0' <= s[i] <= '9'
  }

  predicate LowerHex(s: string) {
    forall i :: 0 <= i < |s| ==> '0' <= s[i] <= '9' || 'a' <= s[i] <= 'f'
  }

  predicate IsApId(s: string) {
    |s| >= 6 && s[..3] == "AP-" && Digits(s[3..])
  }

  predicate IsSha(s: string) {
    |s| == 40 && LowerHex(s)
  }

  predicate IsDate(s: string) {
    |s| == 10 && Digits(s[..4]) && s[4] == '-' && Digits(s[5..7]) && s[7] == '-' && Digits(s[8..])
  }

  function DecimalValue(s: string): nat
    requires Digits(s)
  {
    if s == "" then 0 else DecimalValue(s[..|s| - 1]) * 10 + (s[|s| - 1] as int - '0' as int)
  }

  function ApNumber(s: string): nat
    requires IsApId(s)
  {
    DecimalValue(s[3..])
  }

  predicate KeyLess(a: Allocation, b: Allocation)
    requires IsApId(a.apId) && IsApId(b.apId)
  {
    var m, n := ApNumber(a.apId), ApNumber(b.apId);
    m < n || (m == n && (StringLess(a.title, b.title) || (a.title == b.title && StringLess(a.commit, b.commit))))
  }

  // ----- phases of acceptance

  const NAMESPACE := "ayo.governance.ap_decision_ids"

  predicate HeaderOk(r: Registry) {
    && (r.schema == 1 || r.schema == 2) && (r.schema == 1 <==> r.lifecycle.None?)
    && r.namespace == NAMESPACE && r.serialization == "GIT_MAIN"
    && r.cutover.cutoverId == "AYO_AP_REGISTRY_V1" && r.cutover.approvedDate == "2026-08-26"
    && r.cutover.activation == "ON_REGISTRY_INCLUSION_IN_MAIN"
    && r.cutover.founderApproval == "APPROVED" && r.cutover.ctoApproval == "APPROVED"
    && (r.cutover.status == "PENDING_MAIN_ACTIVATION" || r.cutover.status == "READY_FOR_MAIN_ACTIVATION"
        || r.cutover.status == "ACTIVE")
  }

  predicate RangeOk(blocked: seq<BlockedRange>, i: nat)
    requires i < |blocked|
  {
    && 1 <= blocked[i].start <= blocked[i].end && blocked[i].reason != ""
    && (i > 0 ==> blocked[i - 1].end < blocked[i].start)
  }

  predicate Blocked(blocked: seq<BlockedRange>, number: int) {
    exists i :: 0 <= i < |blocked| && blocked[i].start <= number <= blocked[i].end
  }

  predicate AllocationFieldsOk(a: Allocation) {
    && IsApId(a.apId) && a.title != "" && !a.status.OtherStatus?
    && a.authority != "" && a.lineageRef != "" && a.origin != "" && IsSha(a.commit)
    && !a.reconciliation.OtherRecStatus?
    && (a.status == CollisionRepair ==> a.reconciliation == Unresolved || a.reconciliation == Resolved)
    && (a.status != CollisionRepair ==> a.reconciliation != Unresolved)
  }

  /** One allocation, judged by itself and by the allocations before it. */
  predicate AllocationOk(allocations: seq<Allocation>, blocked: seq<BlockedRange>, i: nat)
    requires i < |allocations|
  {
    && AllocationFieldsOk(allocations[i]) && !Blocked(blocked, ApNumber(allocations[i].apId))
    && (forall j :: 0 <= j < i ==> allocations[j].Identity() != allocations[i].Identity())
    && (i > 0 ==> IsApId(allocations[i - 1].apId) && KeyLess(allocations[i - 1], allocations[i]))
  }

  /** Two records of the same id: colliding titles are all repairs, and a retired id is not in use. */
  predicate PairOk(a: Allocation, b: Allocation) {
    a.apId == b.apId ==> (a.title != b.title ==> a.status == CollisionRepair) && !(a.Retired() && b.Active())
  }

  predicate CollisionsOk(allocations: seq<Allocation>) {
    forall i, j :: 0 <= i < |allocations| && 0 <= j < |allocations| ==> PairOk(allocations[i], allocations[j])
  }

  predicate Bootstrapped(allocations: seq<Allocation>, apId: string) {
    exists i :: 0 <= i < |allocations| && allocations[i].apId == apId
  }

  predicate CommitOk(w: Context, sha: string) {
    IsSha(sha) && (w.commitExists.Some? ==> w.commitExists.value(sha))
  }

  /** New evidence must sit on the authoritative main or on a durable reference. */
  predicate Governed(w: Context, sha: string) {
    && w.mainCommit.Some?
    && ((w.mainReachable.Some? && w.mainReachable.value(sha, w.mainCommit.value))
        || (w.durableReachable.Some? && w.durableReachable.value(sha)))
  }

  /** The id an event must carry: the commitment to all its other fields. */
  function EventId(w: Context, e: Event): string {
    w.eventHash(e.(eventId := ""))
  }

  function RecId(w: Context, r: Reconciliation): string {
    w.recHash(r.(recId := ""))
  }

  predicate EventFieldsOk(w: Context, r: Registry, e: Event) {
    && !e.kind.OtherKind? && IsApId(e.apId) && !Bootstrapped(r.allocations, e.apId)
    && !Blocked(r.blocked, ApNumber(e.apId)) && e.title != "" && e.purpose != "" && e.authority != ""
    && CommitOk(w, e.base) && Governed(w, e.base) && IsDate(e.approvedDate) && e.eventId == EventId(w, e)
  }

  /** The last event of an id among the first n. */
  function Latest(events: seq<Event>, n: nat, apId: string): (r: Option<nat>)
    requires n <= |events|
    ensures r.Some? ==> r.value < n && events[r.value].apId == apId
    ensures r.Some? ==> forall j :: r.value < j < n ==> events[j].apId != apId
    ensures r.None? ==> forall j :: 0 <= j < n ==> events[j].apId != apId
  {
    if n == 0 then None else if events[n - 1].apId == apId then Some(n - 1) else Latest(events, n - 1, apId)
  }

  /** An event starts its identity's chain, or continues the latest event of it. */
  predicate LinkOk(events: seq<Event>, i: nat)
    requires i < |events|
  {
    var e := events[i];
    var latest := Latest(events, i, e.apId);
    if e.kind == Reserved then e.prior.None? && latest.None?
    else
      && latest.Some? && e.prior == Some(events[latest.value].eventId)
      && e.title == events[latest.value].title && e.purpose == events[latest.value].purpose
      && events[latest.value].kind == (if e.kind == Allocated then Reserved else Allocated)
  }

  predicate EventOk(w: Context, r: Registry, events: seq<Event>, i: nat)
    requires i < |events|
  {
    && EventFieldsOk(w, r, events[i])
    && (forall j :: 0 <= j < i ==> events[j].eventId != events[i].eventId)
    && LinkOk(events, i)
  }

  /** The first allocation with an identity; the first event with an id. */
  function FindAllocation(allocations: seq<Allocation>, identity: (string, string, string)): (r: Option<nat>)
    ensures r.Some? ==> r.value < |allocations| && allocations[r.value].Identity() == identity
    ensures r.Some? ==> forall j :: 0 <= j < r.value ==> allocations[j].Identity() != identity
    ensures r.None? ==> forall j :: 0 <= j < |allocations| ==> allocations[j].Identity() != identity
  {
    if allocations == [] then None
    else
      var rest := FindAllocation(allocations[..|allocations| - 1], identity);
      if rest.Some? then rest
      else if allocations[|allocations| - 1].Identity() == identity then Some(|allocations| - 1)
      else None
  }

  function FindEvent(events: seq<Event>, id: string): (r: Option<nat>)
    ensures r.Some? ==> r.value < |events| && events[r.value].eventId == id
    ensures r.Some? ==> forall j :: 0 <= j < r.value ==> events[j].eventId != id
    ensures r.None? ==> forall j :: 0 <= j < |events| ==> events[j].eventId != id
  {
    if events == [] then None
    else
      var rest := FindEvent(events[..|events| - 1], id);
      if rest.Some? then rest
      else if events[|events| - 1].eventId == id then Some(|events| - 1)
      else None
  }

  predicate RecFieldsOk(w: Context, rec: Reconciliation) {
    && rec.historicalTitle != "" && rec.successorTitle != "" && rec.authority != ""
    && CommitOk(w, rec.historicalCommit) && CommitOk(w, rec.base) && Governed(w, rec.base) && IsDate(rec.approvedDate)
  }

  /** The historical side names exactly one allocation, and that one awaits repair. */
  predicate HistoricalOk(w: Context, allocations: seq<Allocation>, rec: Reconciliation) {
    var found := FindAllocation(allocations, rec.Historical());
    && found.Some? && allocations[found.value].status == CollisionRepair
    && (forall j :: 0 <= j < |allocations| && j != found.value ==> allocations[j].Identity() != rec.Historical())
    && rec.composite == w.compositeHash(rec.Historical())
  }

  /** The successor side names an allocated event that nothing has superseded. */
  predicate SuccessorOk(events: seq<Event>, rec: Reconciliation) {
    var found := FindEvent(events, rec.successorEvent);
    && found.Some? && events[found.value].kind == Allocated
    && Latest(events, |events|, events[found.value].apId) == found
    && rec.successorApId == events[found.value].apId && rec.successorTitle == events[found.value].title
  }

  predicate RecOk(w: Context, r: Registry, recs: seq<Reconciliation>, i: nat)
    requires i < |recs|
  {
    && RecFieldsOk(w, recs[i]) && HistoricalOk(w, r.allocations, recs[i]) && SuccessorOk(r.Events(), recs[i])
    && recs[i].recId == RecId(w, recs[i])
    && (forall j :: 0 <= j < i ==>
          recs[j].recId != recs[i].recId && recs[j].Historical() != recs[i].Historical()
          && recs[j].successorEvent != recs[i].successorEvent)
  }

  /** A pair that the decision log may have a heading for. */
  predicate AllocatedPair(events: seq<Event>, h: Heading) {
    exists i :: 0 <= i < |events| && events[i].kind == Allocated && (events[i].apId, events[i].title) == h
  }

  predicate BootPair(allocations: seq<Allocation>, h: Heading) {
    exists i :: 0 <= i < |allocations| && (allocations[i].apId, allocations[i].title) == h
  }

  predicate HeadingOk(r: Registry, h: Heading) {
    BootPair(r.allocations, h) || AllocatedPair(r.Events(), h)
  }

  predicate ReservationOk(r: Registry, headings: seq<Heading>, e: Event) {
    e.kind == Reserved && (e.apId, e.title) in headings ==> AllocatedPair(r.Events(), (e.apId, e.title))
  }

  /** An allocation nothing has superseded has exactly one heading under its title. */
  predicate LiveHeadingOk(events: seq<Event>, headings: seq<Heading>, i: nat)
    requires i < |events|
  {
    events[i].kind == Allocated && Latest(events, |events|, events[i].apId) == Some(i) ==>
      multiset(headings)[(events[i].apId, events[i].title)] == 1
  }

  predicate HeadingsOk(w: Context, r: Registry) {
    && (forall k :: 0 <= k < |w.headings| ==> HeadingOk(r, w.headings[k]))
    && (forall i :: 0 <= i < |r.Events()| ==> ReservationOk(r, w.headings, r.Events()[i]))
    && (forall i :: 0 <= i < |r.Events()| ==> LiveHeadingOk(r.Events(), w.headings, i))
  }

  predicate HasEvent(events: seq<Event>, id: string) {
    exists j :: 0 <= j < |events| && events[j].eventId == id
  }

  predicate HasAllocated(events: seq<Event>, id: string) {
    exists j :: 0 <= j < |events| && events[j].eventId == id && events[j].kind == Allocated
  }

  predicate NewEventOk(w: Context, base: Registry, e: Event) {
    && (w.mainCommit.Some? ==> e.base == w.mainCommit.value)
    && (e.kind == Allocated ==> e.prior.Some? && HasEvent(base.Events(), e.prior.value))
  }

  predicate NewRecOk(w: Context, base: Registry, rec: Reconciliation) {
    && (w.mainCommit.Some? ==> rec.base == w.mainCommit.value)
    && HasAllocated(base.Events(), rec.successorEvent)
  }

  /** Against its predecessor a revision only appends, and only on top of what main already holds. */
  predicate BaselineOk(w: Context, r: Registry) {
    w.baseline.Some? ==>
      var b := w.baseline.value;
      && r.allocations == b.allocations && b.Events() <= r.Events() && b.Recs() <= r.Recs()
      && (w.mainCommit.Some? ==> CommitOk(w, w.mainCommit.value))
      && (forall i :: |b.Events()| <= i < |r.Events()| ==> NewEventOk(w, b, r.Events()[i]))
      && (forall i :: |b.Recs()| <= i < |r.Recs()| ==> NewRecOk(w, b, r.Recs()[i]))
  }

  // ----- the verdict

  datatype Phase =
    | Header | Ranges | NoAllocations | Enablement | Allocations | Provenance | Collisions | Events | Reconciliations
    | Headings | Baseline

  ghost predicate RangesOk(r: Registry) {
    forall i :: 0 <= i < |r.blocked| ==> RangeOk(r.blocked, i)
  }

  ghost predicate AllocationsOk(r: Registry) {
    forall i :: 0 <= i < |r.allocations| ==> AllocationOk(r.allocations, r.blocked, i)
  }

  ghost predicate EventsOk(w: Context, r: Registry) {
    forall i :: 0 <= i < |r.Events()| ==> EventOk(w, r, r.Events(), i)
  }

  ghost predicate RecsOk(w: Context, r: Registry) {
    forall i :: 0 <= i < |r.Recs()| ==> RecOk(w, r, r.Recs(), i)
  }

  /** The first phase that a registry fails, if any. */
  ghost function FirstFailure(w: Context, r: Registry): Option<Phase> {
    if !HeaderOk(r) then Some(Header)
    else if !RangesOk(r) then Some(Ranges)
    else if r.allocations == [] then Some(NoAllocations)
    else if w.enablementOnly && (r.Events() != [] || r.Recs() != []) then Some(Enablement)
    else if !AllocationsOk(r) then Some(Allocations)
    else if r.schema == 2 && w.provenance != Some(true) then Some(Provenance)
    else if !CollisionsOk(r.allocations) then Some(Collisions)
    else if !EventsOk(w, r) then Some(Events)
    else if !RecsOk(w, r) then Some(Reconciliations)
    else if !HeadingsOk(w, r) then Some(Headings)
    else if !BaselineOk(w, r) then Some(Baseline)
    else None
  }

  ghost predicate Accepted(w: Context, r: Registry) {
    FirstFailure(w, r).None?
  }

  // ----- the report

  datatype Report = Report(
    allocationCount: nat, apIdCount: nat, collisionCount: nat, headingCount: nat, eventCount: nat,
    reconciliationCount: nat, resolvedCount: nat)

  function Mappings(recs: seq<Reconciliation>, identity: (string, string, string)): nat {
    if recs == [] then 0
    else Mappings(recs[..|recs| - 1], identity) + if recs[|recs| - 1].Historical() == identity then 1 else 0
  }

  /** A repair counts as resolved once it is mapped exactly once, or if it was recorded so. */
  function EffectiveStatus(a: Allocation, recs: seq<Reconciliation>): RecStatus {
    if Mappings(recs, a.Identity()) == 1 then Resolved else a.reconciliation
  }

  function ResolvedCount(allocations: seq<Allocation>, recs: seq<Reconciliation>): nat {
    if allocations == [] then 0
    else
      var last := allocations[|allocations| - 1];
      ResolvedCount(allocations[..|allocations| - 1], recs)
      + if last.status == CollisionRepair && EffectiveStatus(last, recs) == Resolved then 1 else 0
  }

  function ApIds(allocations: seq<Allocation>): set<string> {
    set i | 0 <= i < |allocations| :: allocations[i].apId
  }

  predicate Collides(allocations: seq<Allocation>, apId: string) {
    exists i, j :: 0 <= i < |allocations| && 0 <= j < |allocations| && allocations[i].apId == apId
                   && allocations[j].apId == apId && allocations[i].title != allocations[j].title
  }

  function CollidingIds(allocations: seq<Allocation>): set<string> {
    set apId | apId in ApIds(allocations) && Collides(allocations, apId)
  }

  function ReportOf(w: Context, r: Registry): Report {
    Report(|r.allocations|, |ApIds(r.allocations)|, |CollidingIds(r.allocations)|, |w.headings|, |r.Events()|,
           |r.Recs()|, ResolvedCount(r.allocations, r.Recs()))
  }
}

/**
 A waiting session at the pickup: free wait, pauses and their credit, and no-show evidence.
 Times are microseconds; credited pauses are whole seconds, truncated as the engine truncates them.
 */
module WaitingSession {
  import opened Options

  const SECOND: int := 1_000_000

  datatype State = FreeWaitActive | FreeWaitEnding | WaitPaused | WaitInvalidated | EvidenceReady

  datatype Reason =
    | FreeWaitStarted | FreeWaitExpired | FreeWaitEndingSoon | ContinuityVerified
    | DriverMovedAway | StaleGps | LowConfidenceGps | UnsafePickup | PlatformFailure | MapOrEtaFailure
    | AirportZoneConfusion | RoadClosure | Emergency | WeakNetwork | DriverLate | IncorrectPickup
    | FreeWaitNotExpired | NotificationFailure | ExternalDisruption

  datatype DepartureBehavior = Pause | Invalidate

  datatype Snapshot = Snapshot(
    freeWaitSeconds: int, endingWarningSeconds: int, departure: DepartureBehavior, pauseOnInsufficientQuality: bool,
    maximumLocationAge: int, minimumConfidence: int, notificationRequired: bool)

  datatype Signals = Signals(
    insidePickupZone: bool, locationAge: int, locationConfidence: int, driverAvailable: bool, guidanceValid: bool,
    reasonableNotification: bool, platformFailure: bool, mapOrEtaFailure: bool, externalDisruption: bool,
    unsafeOrInaccessible: bool, airportZoneConfusion: bool, roadClosure: bool, emergency: bool, weakNetwork: bool,
    driverLate: bool)

  datatype Session = Session(
    state: State, version: int, startedAt: int, deadline: int, updatedAt: int, totalPaused: int, pausedAt: Option<int>,
    lastSequence: int, reasons: seq<Reason>)

  datatype Conflict = ArrivalNotVerified | ContextMismatch | StaleObservation | PauseTimestampMissing

  datatype Arrival = Arrival(rideId: string, assignmentId: string, verified: bool, sequence: int)

  function StartWaiting(ride: string, assignment: string, arrival: Arrival, snapshotRide: string, p: Snapshot, now: int)
    : Result<Session, Conflict>
  {
    if !arrival.verified then Err(ArrivalNotVerified)
    else if arrival.rideId != ride || snapshotRide != ride || arrival.assignmentId != assignment then Err(ContextMismatch)
    else Ok(Session(FreeWaitActive, 1, now, now + p.freeWaitSeconds * SECOND, now, 0, None, arrival.sequence,
                    [FreeWaitStarted]))
  }

  // ----- continuity

  function If(condition: bool, reason: Reason): seq<Reason> {
    if condition then [reason] else []
  }

  function LocationDisruptions(p: Snapshot, g: Signals): seq<Reason> {
    If(!g.insidePickupZone, DriverMovedAway) + If(g.locationAge > p.maximumLocationAge, StaleGps)
    + If(g.locationConfidence < p.minimumConfidence, LowConfidenceGps) + If(g.unsafeOrInaccessible, UnsafePickup)
  }

  function PlatformDisruptions(g: Signals): seq<Reason> {
    If(g.platformFailure, PlatformFailure) + If(g.mapOrEtaFailure, MapOrEtaFailure)
    + If(g.airportZoneConfusion, AirportZoneConfusion) + If(g.roadClosure, RoadClosure)
  }

  function OtherDisruptions(g: Signals): seq<Reason> {
    If(g.emergency, Emergency) + If(g.weakNetwork, WeakNetwork) + If(g.driverLate, DriverLate)
    + If(!g.guidanceValid, IncorrectPickup)
  }

  /** The reasons an observation gives against continued waiting, in the order they are checked. */
  function Disruptions(p: Snapshot, g: Signals): seq<Reason> {
    LocationDisruptions(p, g) + PlatformDisruptions(g) + OtherDisruptions(g)
  }

  predicate Quality(r: Reason) {
    r == StaleGps || r == LowConfidenceGps || r == WeakNetwork
  }

  predicate Pauses(p: Snapshot, g: Signals, reasons: seq<Reason>) {
    || (!g.insidePickupZone && p.departure == Pause)
    || (p.pauseOnInsufficientQuality && reasons != [] && forall k :: 0 <= k < |reasons| ==> Quality(reasons[k]))
  }

  /** Whole seconds of a pause, truncated toward zero and never negative. */
  function CreditedSeconds(pausedAt: int, now: int): (r: int)
    ensures r >= 0
    ensures now >= pausedAt ==> 0 <= (now - pausedAt) - r * SECOND < SECOND
  {
    if now <= pausedAt then 0 else (now - pausedAt) / SECOND
  }

  function Classify(p: Snapshot, g: Signals, deadline: int, now: int): (State, seq<Reason>) {
    var reasons := Disruptions(p, g);
    if reasons != [] then (if Pauses(p, g, reasons) then WaitPaused else WaitInvalidated, reasons)
    else if now >= deadline then (FreeWaitEnding, [FreeWaitExpired])
    else if now >= deadline - p.endingWarningSeconds * SECOND then (FreeWaitEnding, [FreeWaitEndingSoon])
    else (FreeWaitActive, [ContinuityVerified])
  }

  function Continuity(s: Session, p: Snapshot, g: Signals, sequence: int, now: int): Result<Session, Conflict> {
    if sequence <= s.lastSequence then Err(StaleObservation)
    else
      var resumes := Disruptions(p, g) == [] && s.state == WaitPaused;
      if resumes && s.pausedAt.None? then Err(PauseTimestampMissing)
      else
        var credit := if resumes then CreditedSeconds(s.pausedAt.value, now) else 0;
        var deadline := s.deadline + credit * SECOND;
        var (state, reasons) := Classify(p, g, deadline, now);
        Ok(s.(state := state, version := s.version + 1, updatedAt := now, lastSequence := sequence, reasons := reasons,
              pausedAt := if state != WaitPaused then None else if s.pausedAt.Some? then s.pausedAt else Some(now),
              deadline := deadline, totalPaused := s.totalPaused + credit))
  }

  /** Appends a reason if its condition holds. */
  method AppendIf(reasons: seq<Reason>, condition: bool, reason: Reason) returns (r: seq<Reason>)
    ensures r == reasons + If(condition, reason)
  {
    r := reasons;
    if condition {
      r := r + [reason];
    }
  }

  method CollectLocation(p: Snapshot, g: Signals) returns (reasons: seq<Reason>)
    ensures reasons == LocationDisruptions(p, g)
  {
    reasons := AppendIf([], !g.insidePickupZone, DriverMovedAway);
    reasons := AppendIf(reasons, g.locationAge > p.maximumLocationAge, StaleGps);
    reasons := AppendIf(reasons, g.locationConfidence < p.minimumConfidence, LowConfidenceGps);
    reasons := AppendIf(reasons, g.unsafeOrInaccessible, UnsafePickup);
  }

  method CollectPlatform(before: seq<Reason>, g: Signals) returns (reasons: seq<Reason>)
    ensures reasons == before + PlatformDisruptions(g)
  {
    reasons := AppendIf(before, g.platformFailure, PlatformFailure);
    reasons := AppendIf(reasons, g.mapOrEtaFailure, MapOrEtaFailure);
    reasons := AppendIf(reasons, g.airportZoneConfusion, AirportZoneConfusion);
    reasons := AppendIf(reasons, g.roadClosure, RoadClosure);
  }

  method CollectOther(before: seq<Reason>, g: Signals) returns (reasons: seq<Reason>)
    ensures reasons == before + OtherDisruptions(g)
  {
    reasons := AppendIf(before, g.emergency, Emergency);
    reasons := AppendIf(reasons, g.weakNetwork, WeakNetwork);
    reasons := AppendIf(reasons, g.driverLate, DriverLate);
    reasons := AppendIf(reasons, !g.guidanceValid, IncorrectPickup);
  }

  /** The continuity evaluation as it is written: a growing list of reasons and reassigned locals. */
  method EvaluateContinuity(s: Session, p: Snapshot, g: Signals, sequence: int, now: int)
    returns (r: Result<Session, Conflict>)
    ensures r == Continuity(s, p, g, sequence, now)
  {
    if sequence <= s.lastSequence {
      return Err(StaleObservation);
    }
    var reasons := CollectLocation(p, g);
    reasons := CollectPlatform(reasons, g);
    reasons := CollectOther(reasons, g);
    r := Conclude(s, p, g, reasons, sequence, now);
  }

  /** From the collected reasons to the next session. */
  method Conclude(s: Session, p: Snapshot, g: Signals, disruptions: seq<Reason>, sequence: int, now: int)
    returns (r: Result<Session, Conflict>)
    requires disruptions == Disruptions(p, g) && sequence > s.lastSequence
    ensures r == Continuity(s, p, g, sequence, now)
  {
    var reasons := disruptions;
    var qualityOnly := reasons != [] && forall k :: 0 <= k < |reasons| ==> Quality(reasons[k]);
    var resumedSeconds, resumedDeadline := 0, s.deadline;
    if reasons == [] && s.state == WaitPaused {
      if s.pausedAt.None? {
        return Err(PauseTimestampMissing);
      }
      resumedSeconds := CreditedSeconds(s.pausedAt.value, now);
      resumedDeadline := resumedDeadline + resumedSeconds * SECOND;
    }
    var state;
    if reasons != [] {
      var pause := (!g.insidePickupZone && p.departure == Pause) || (qualityOnly && p.pauseOnInsufficientQuality);
      state := if pause then WaitPaused else WaitInvalidated;
    } else if now >= resumedDeadline {
      state, reasons := FreeWaitEnding, [FreeWaitExpired];
    } else if now >= resumedDeadline - p.endingWarningSeconds * SECOND {
      state, reasons := FreeWaitEnding, [FreeWaitEndingSoon];
    } else {
      state, reasons := FreeWaitActive, [ContinuityVerified];
    }
    var pausedAt := None;
    if state == WaitPaused {
      pausedAt := if s.pausedAt.Some? then s.pausedAt else Some(now);
    }
    return Ok(s.(state := state, version := s.version + 1, updatedAt := now, lastSequence := sequence,
                 reasons := reasons, pausedAt := pausedAt, deadline := resumedDeadline,
                 totalPaused := s.totalPaused + resumedSeconds));
  }

  // ----- deadline projection

  predicate Due(s: Session, now: int) {
    s.deadline <= now && (s.state == FreeWaitActive || s.state == FreeWaitEnding)
  }

  /** The worker's projection of one claimed session. */
  function Projected(s: Session, now: int): Session {
    if s.state != FreeWaitActive then s
    else s.(state := FreeWaitEnding, version := s.version + 1, updatedAt := now, reasons := [FreeWaitExpired])
  }

  // ----- no-show evidence

  /** The signals that suppress a consequence by themselves, with the reason each gives. */
  function Mapping(g: Signals): seq<(bool, Reason)> {
    [(!g.guidanceValid, IncorrectPickup), (g.platformFailure, PlatformFailure), (g.mapOrEtaFailure, MapOrEtaFailure),
     (g.externalDisruption, ExternalDisruption), (g.unsafeOrInaccessible, UnsafePickup),
     (g.airportZoneConfusion, AirportZoneConfusion), (g.roadClosure, RoadClosure), (g.emergency, Emergency),
     (g.weakNetwork, WeakNetwork), (g.driverLate, DriverLate)]
  }

  function Flagged(mapping: seq<(bool, Reason)>): seq<Reason> {
    if mapping == [] then []
    else Flagged(mapping[..|mapping| - 1]) + If(mapping[|mapping| - 1].0, mapping[|mapping| - 1].1)
  }

  function Suppressions(s: Session, p: Snapshot, g: Signals, now: int): seq<Reason> {
    (if s.state == WaitInvalidated then s.reasons else [])
    + If(now < s.deadline, FreeWaitNotExpired) + If(!g.insidePickupZone || !g.driverAvailable, DriverMovedAway)
    + If(g.locationAge > p.maximumLocationAge, StaleGps) + If(g.locationConfidence < p.minimumConfidence, LowConfidenceGps)
    + If(p.notificationRequired && !g.reasonableNotification, NotificationFailure) + Flagged(Mapping(g))
  }

  datatype Responsibility = Rider | External | Ayo | Driver | Insufficient

  datatype Evidence = Evidence(ready: bool, responsibility: Responsibility, confidence: int, suppressed: seq<Reason>)

  /** The reasons in order of first appearance, each once. */
  function Unique(reasons: seq<Reason>): seq<Reason> {
    if reasons == [] then []
    else
      var before, last := Unique(reasons[..|reasons| - 1]), reasons[|reasons| - 1];
      if last in before then before else before + [last]
  }

  function Responsible(g: Signals, ready: bool): Responsibility {
    if ready then Rider
    else if g.externalDisruption then External
    else if g.platformFailure || g.mapOrEtaFailure then Ayo
    else if g.driverLate || !g.insidePickupZone then Driver
    else Insufficient
  }

  function EvidenceFor(s: Session, p: Snapshot, g: Signals, now: int): Evidence {
    var suppressed := Unique(Suppressions(s, p, g, now));
    var ready := suppressed == [];
    Evidence(ready, Responsible(g, ready), if ready then g.locationConfidence else 0, suppressed)
  }

  /** Keeps each reason once, as a dictionary built from the list does. */
  method Distinct(reasons: seq<Reason>) returns (unique: seq<Reason>)
    ensures unique == Unique(reasons)
  {
    unique := [];
    for i := 0 to |reasons|
      invariant unique == Unique(reasons[..i])
    {
      assert reasons[..i + 1][..i] == reasons[..i];
      if reasons[i] !in unique {
        unique := unique + [reasons[i]];
      }
    }
    assert reasons[..|reasons|] == reasons;
  }

  method CollectFlagged(mapping: seq<(bool, Reason)>) returns (reasons: seq<Reason>)
    ensures reasons == Flagged(mapping)
  {
    reasons := [];
    for i := 0 to |mapping|
      invariant reasons == Flagged(mapping[..i])
    {
      assert mapping[..i + 1][..i] == mapping[..i];
      if mapping[i].0 {
        reasons := reasons + [mapping[i].1];
      }
    }
    assert mapping[..|mapping|] == mapping;
  }

  method EvaluateEvidence(s: Session, p: Snapshot, g: Signals, now: int) returns (e: Evidence)
    ensures e == EvidenceFor(s, p, g, now)
  {
    var suppressions: seq<Reason> := [];
    if s.state == WaitInvalidated {
      suppressions := s.reasons;
    }
    suppressions := AppendIf(suppressions, now < s.deadline, FreeWaitNotExpired);
    suppressions := AppendIf(suppressions, !g.insidePickupZone || !g.driverAvailable, DriverMovedAway);
    suppressions := AppendIf(suppressions, g.locationAge > p.maximumLocationAge, StaleGps);
    suppressions := AppendIf(suppressions, g.locationConfidence < p.minimumConfidence, LowConfidenceGps);
    suppressions := AppendIf(suppressions, p.notificationRequired && !g.reasonableNotification, NotificationFailure);
    var flagged := CollectFlagged(Mapping(g));
    var unique := Distinct(suppressions + flagged);
    var ready := unique == [];
    e := Evidence(ready, Responsible(g, ready), if ready then g.locationConfidence else 0, unique);
  }

  // ----- the recovery worker

  class SessionRepository {
    var sessions: map<string, Session>

    constructor (stored: map<string, Session>)
      ensures sessions == stored
    {
      sessions := stored;
    }

    /** One pass over claimed sessions, all due: active ones move to ending, everything else stays. */
    method RunOnce(claimed: seq<string>, now: int) returns (changed: nat)
      requires forall k :: 0 <= k < |claimed| ==> claimed[k] in sessions && Due(sessions[claimed[k]], now)
      requires forall k, l :: 0 <= k < l < |claimed| ==> claimed[k] != claimed[l]
      modifies this
      ensures sessions.Keys == old(sessions).Keys
      ensures forall id :: id in sessions ==>
                sessions[id] == if id in claimed then Projected(old(sessions)[id], now) else old(sessions)[id]
      ensures changed == |set id | id in claimed && old(sessions)[id].state == FreeWaitActive|
    {
      changed := 0;
      ghost var moved: set<string> := {};
      for i := 0 to |claimed|
        invariant sessions.Keys == old(sessions).Keys
        invariant forall id :: id in sessions ==>
                    sessions[id] == if id in claimed[..i] then Projected(old(sessions)[id], now) else old(sessions)[id]
        invariant moved == set id | id in claimed[..i] && old(sessions)[id].state == FreeWaitActive
        invariant changed == |moved|
      {
        var id := claimed[i];
        assert claimed[..i + 1] == claimed[..i] + [id];
        assert id !in claimed[..i];
        var session := sessions[id];
        if session.state != FreeWaitActive {
          continue;
        }
        sessions := sessions[id := session.(state := FreeWaitEnding, version := session.version + 1, updatedAt := now,
                                            reasons := [FreeWaitExpired])];
        moved := moved + {id};
        changed := changed + 1;
      }
      assert claimed[..|claimed|] == claimed;
    }
  }
}

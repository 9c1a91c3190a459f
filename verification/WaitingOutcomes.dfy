/** Exactly what one observation, one start and one evidence decision answer, in signals and policy terms. */
module WaitingOutcomes {
  import opened Options
  import opened WaitingSession
  import opened WaitingTheorems

  // ----- the reasons of an observation

  lemma InIf(condition: bool, reason: Reason, r: Reason)
    ensures r in If(condition, reason) <==> condition && r == reason
  {
  }

  /** The signal that gives a reason against continued waiting. */
  predicate Speaks(p: Snapshot, g: Signals, r: Reason) {
    match r
    case DriverMovedAway => !g.insidePickupZone
    case StaleGps => g.locationAge > p.maximumLocationAge
    case LowConfidenceGps => g.locationConfidence < p.minimumConfidence
    case UnsafePickup => g.unsafeOrInaccessible
    case PlatformFailure => g.platformFailure
    case MapOrEtaFailure => g.mapOrEtaFailure
    case AirportZoneConfusion => g.airportZoneConfusion
    case RoadClosure => g.roadClosure
    case Emergency => g.emergency
    case WeakNetwork => g.weakNetwork
    case DriverLate => g.driverLate
    case IncorrectPickup => !g.guidanceValid
    case _ => false
  }

  lemma InLocation(p: Snapshot, g: Signals, r: Reason)
    ensures r in LocationDisruptions(p, g) <==>
              Speaks(p, g, r) && (r == DriverMovedAway || r == StaleGps || r == LowConfidenceGps || r == UnsafePickup)
  {
  }

  lemma InPlatform(p: Snapshot, g: Signals, r: Reason)
    ensures r in PlatformDisruptions(g) <==>
              Speaks(p, g, r) && (r == PlatformFailure || r == MapOrEtaFailure || r == AirportZoneConfusion || r == RoadClosure)
  {
  }

  lemma InOther(p: Snapshot, g: Signals, r: Reason)
    ensures r in OtherDisruptions(g) <==>
              Speaks(p, g, r) && (r == Emergency || r == WeakNetwork || r == DriverLate || r == IncorrectPickup)
  {
  }

  /** A reason is given exactly when its signal speaks. */
  lemma ReasonsAreExact(p: Snapshot, g: Signals, r: Reason)
    ensures r in Disruptions(p, g) <==> Speaks(p, g, r)
  {
    InLocation(p, g, r);
    InPlatform(p, g, r);
    InOther(p, g, r);
  }

  /** Only doubts about the position: stale, imprecise or over a weak network, and nothing else. */
  predicate OnlyDoubtful(p: Snapshot, g: Signals) {
    && (g.locationAge > p.maximumLocationAge || g.locationConfidence < p.minimumConfidence || g.weakNetwork)
    && g.insidePickupZone && g.guidanceValid && !g.unsafeOrInaccessible && !g.platformFailure && !g.mapOrEtaFailure
    && !g.airportZoneConfusion && !g.roadClosure && !g.emergency && !g.driverLate
  }

  predicate Undisturbed(p: Snapshot, g: Signals) {
    && g.insidePickupZone && g.guidanceValid && !g.unsafeOrInaccessible && !g.platformFailure && !g.mapOrEtaFailure
    && !g.airportZoneConfusion && !g.roadClosure && !g.emergency && !g.driverLate && !g.weakNetwork
    && g.locationAge <= p.maximumLocationAge && g.locationConfidence >= p.minimumConfidence
  }

  lemma UndisturbedIsExact(p: Snapshot, g: Signals)
    ensures Disruptions(p, g) == [] <==> Undisturbed(p, g)
  {
    if Disruptions(p, g) == [] {
      forall r ensures !Speaks(p, g, r) {
        ReasonsAreExact(p, g, r);
      }
      assert !Speaks(p, g, DriverMovedAway) && !Speaks(p, g, StaleGps) && !Speaks(p, g, LowConfidenceGps);
      assert !Speaks(p, g, UnsafePickup) && !Speaks(p, g, PlatformFailure) && !Speaks(p, g, MapOrEtaFailure);
      assert !Speaks(p, g, AirportZoneConfusion) && !Speaks(p, g, RoadClosure) && !Speaks(p, g, Emergency);
      assert !Speaks(p, g, WeakNetwork) && !Speaks(p, g, DriverLate) && !Speaks(p, g, IncorrectPickup);
    } else {
      var r := Disruptions(p, g)[0];
      assert r in Disruptions(p, g);
      ReasonsAreExact(p, g, r);
    }
  }

  lemma OnlyDoubtfulIsExact(p: Snapshot, g: Signals)
    ensures var reasons := Disruptions(p, g);
            reasons != [] && (forall k :: 0 <= k < |reasons| ==> Quality(reasons[k])) <==> OnlyDoubtful(p, g)
  {
    var reasons := Disruptions(p, g);
    UndisturbedIsExact(p, g);
    if reasons != [] && forall k :: 0 <= k < |reasons| ==> Quality(reasons[k]) {
      forall r | Speaks(p, g, r) ensures Quality(r) {
        ReasonsAreExact(p, g, r);
      }
      assert !Speaks(p, g, DriverMovedAway) && !Speaks(p, g, UnsafePickup) && !Speaks(p, g, PlatformFailure);
      assert !Speaks(p, g, MapOrEtaFailure) && !Speaks(p, g, AirportZoneConfusion) && !Speaks(p, g, RoadClosure);
      assert !Speaks(p, g, Emergency) && !Speaks(p, g, DriverLate) && !Speaks(p, g, IncorrectPickup);
    }
    if OnlyDoubtful(p, g) {
      forall k | 0 <= k < |reasons| ensures Quality(reasons[k]) {
        assert reasons[k] in reasons;
        ReasonsAreExact(p, g, reasons[k]);
      }
    }
  }

  /**
   An accepted observation pauses exactly when the driver left and leaving pauses, or the position is
   merely doubtful and doubt pauses; it invalidates exactly when anything else disturbs; and
   otherwise the time left decides.
   */
  lemma ObservationIsExact(s: Session, p: Snapshot, g: Signals, sequence: int, now: int)
    requires Continuity(s, p, g, sequence, now).Ok?
    ensures var t := Continuity(s, p, g, sequence, now).value;
            var pauses := (!g.insidePickupZone && p.departure == Pause) || (OnlyDoubtful(p, g) && p.pauseOnInsufficientQuality);
            && (t.state == WaitPaused <==> pauses)
            && (t.state == WaitInvalidated <==> !Undisturbed(p, g) && !pauses)
            && (t.state == FreeWaitEnding <==> Undisturbed(p, g) && now >= t.deadline - MaxWarning(p) * SECOND)
            && (t.state == FreeWaitActive <==> Undisturbed(p, g) && now < t.deadline - MaxWarning(p) * SECOND)
            && t.version == s.version + 1 && t.updatedAt == now && t.lastSequence == sequence
            && t.startedAt == s.startedAt
  {
    UndisturbedIsExact(p, g);
    OnlyDoubtfulIsExact(p, g);
  }

  /** The warning time before the deadline, none if it is not positive. */
  function MaxWarning(p: Snapshot): int {
    if p.endingWarningSeconds > 0 then p.endingWarningSeconds else 0
  }

  /** A pause that goes on keeps the instant it began; a new one begins now; a resumed one is credited. */
  lemma PauseInstantIsExact(s: Session, p: Snapshot, g: Signals, sequence: int, now: int)
    requires Continuity(s, p, g, sequence, now).Ok?
    ensures var t := Continuity(s, p, g, sequence, now).value;
            && (t.state == WaitPaused && s.pausedAt.Some? ==> t.pausedAt == s.pausedAt)
            && (t.state == WaitPaused && s.pausedAt.None? ==> t.pausedAt == Some(now))
            && (t.state != WaitPaused ==> t.pausedAt.None?)
            && (s.state == WaitPaused && s.pausedAt.Some? && Undisturbed(p, g) && now >= s.pausedAt.value ==>
                  0 <= (now - s.pausedAt.value) - (t.totalPaused - s.totalPaused) * SECOND < SECOND)
            && (!(s.state == WaitPaused && Undisturbed(p, g)) ==> t.totalPaused == s.totalPaused && t.deadline == s.deadline)
  {
    UndisturbedIsExact(p, g);
  }

  /** Waiting starts exactly after a verified arrival for the same ride and assignment, active, with the whole free wait ahead. */
  lemma StartIsExact(ride: string, assignment: string, arrival: Arrival, snapshotRide: string, p: Snapshot, now: int)
    ensures var r := StartWaiting(ride, assignment, arrival, snapshotRide, p, now);
            && (r.Ok? <==> arrival.verified && arrival.rideId == ride && snapshotRide == ride
                           && arrival.assignmentId == assignment)
            && (r == Err(ArrivalNotVerified) <==> !arrival.verified)
            && (r.Ok? ==> r.value.state == FreeWaitActive && r.value.deadline - now == p.freeWaitSeconds * SECOND
                          && r.value.pausedAt.None? && r.value.lastSequence == arrival.sequence)
  {
  }

  /** The worker only announces that the free wait has run out: no time, pause or sequence changes. */
  lemma ProjectionAnnouncesExpiry(s: Session, now: int)
    requires Due(s, now)
    ensures s.deadline <= now && Projected(s, now).state == FreeWaitEnding
    ensures Projected(s, now).deadline == s.deadline && Projected(s, now).totalPaused == s.totalPaused
    ensures Projected(s, now).pausedAt == s.pausedAt && Projected(s, now).lastSequence == s.lastSequence
    ensures Projected(s, now).startedAt == s.startedAt
    ensures s.state == FreeWaitActive ==> Projected(s, now).reasons == [FreeWaitExpired]
  {
  }

  // ----- the reasons of an evidence decision

  /** The signal, or the clock, that suppresses a consequence. */
  predicate Suppresses(s: Session, p: Snapshot, g: Signals, now: int, r: Reason) {
    match r
    case FreeWaitNotExpired => now < s.deadline
    case DriverMovedAway => !g.insidePickupZone || !g.driverAvailable
    case StaleGps => g.locationAge > p.maximumLocationAge
    case LowConfidenceGps => g.locationConfidence < p.minimumConfidence
    case NotificationFailure => p.notificationRequired && !g.reasonableNotification
    case IncorrectPickup => !g.guidanceValid
    case PlatformFailure => g.platformFailure
    case MapOrEtaFailure => g.mapOrEtaFailure
    case ExternalDisruption => g.externalDisruption
    case UnsafePickup => g.unsafeOrInaccessible
    case AirportZoneConfusion => g.airportZoneConfusion
    case RoadClosure => g.roadClosure
    case Emergency => g.emergency
    case WeakNetwork => g.weakNetwork
    case DriverLate => g.driverLate
    case _ => false
  }

  lemma {:induction false} InFlagged(mapping: seq<(bool, Reason)>, r: Reason)
    ensures r in Flagged(mapping) <==> exists i :: 0 <= i < |mapping| && mapping[i].0 && mapping[i].1 == r
    decreases |mapping|
  {
    if mapping != [] {
      InFlagged(mapping[..|mapping| - 1], r);
      var last := mapping[|mapping| - 1];
      assert mapping == mapping[..|mapping| - 1] + [last];
      InIf(last.0, last.1, r);
      if last.0 && last.1 == r {
        assert mapping[|mapping| - 1].0 && mapping[|mapping| - 1].1 == r;
      }
      if i :| 0 <= i < |mapping| && mapping[i].0 && mapping[i].1 == r {
        assert i < |mapping| - 1 ==> mapping[..|mapping| - 1][i] == mapping[i];
      }
    }
  }

  /** The mapping names each of its reasons once, with its own signal. */
  predicate Mapped(r: Reason) {
    || r == IncorrectPickup || r == PlatformFailure || r == MapOrEtaFailure || r == ExternalDisruption
    || r == UnsafePickup || r == AirportZoneConfusion || r == RoadClosure || r == Emergency || r == WeakNetwork
    || r == DriverLate
  }

  /** The signal behind each mapped reason. */
  predicate SignalOf(g: Signals, r: Reason)
    requires Mapped(r)
  {
    match r
    case IncorrectPickup => !g.guidanceValid
    case PlatformFailure => g.platformFailure
    case MapOrEtaFailure => g.mapOrEtaFailure
    case ExternalDisruption => g.externalDisruption
    case UnsafePickup => g.unsafeOrInaccessible
    case AirportZoneConfusion => g.airportZoneConfusion
    case RoadClosure => g.roadClosure
    case Emergency => g.emergency
    case WeakNetwork => g.weakNetwork
    case _ => g.driverLate
  }

  lemma MappedSuppresses(s: Session, p: Snapshot, g: Signals, now: int, r: Reason)
    requires Mapped(r)
    ensures SignalOf(g, r) <==> Suppresses(s, p, g, now, r)
  {
  }

  /** Where the mapping lists a reason. */
  function Position(r: Reason): nat
    requires Mapped(r)
  {
    match r
    case IncorrectPickup => 0
    case PlatformFailure => 1
    case MapOrEtaFailure => 2
    case ExternalDisruption => 3
    case UnsafePickup => 4
    case AirportZoneConfusion => 5
    case RoadClosure => 6
    case Emergency => 7
    case WeakNetwork => 8
    case _ => 9
  }

  lemma MappingLists(g: Signals, r: Reason)
    requires Mapped(r)
    ensures Position(r) < |Mapping(g)| && Mapping(g)[Position(r)] == (SignalOf(g, r), r)
  {
  }

  lemma MappingNames(g: Signals, i: nat)
    requires i < |Mapping(g)|
    ensures Mapped(Mapping(g)[i].1) && Position(Mapping(g)[i].1) == i
  {
  }

  lemma InMapping(s: Session, p: Snapshot, g: Signals, now: int, r: Reason)
    ensures r in Flagged(Mapping(g)) <==> Mapped(r) && Suppresses(s, p, g, now, r)
  {
    var m := Mapping(g);
    InFlagged(m, r);
    if Mapped(r) {
      MappingLists(g, r);
      MappedSuppresses(s, p, g, now, r);
    }
    if i :| 0 <= i < |m| && m[i].0 && m[i].1 == r {
      MappingNames(g, i);
    }
  }

  lemma InSuppressions(s: Session, p: Snapshot, g: Signals, now: int, r: Reason)
    ensures r in Suppressions(s, p, g, now) <==>
            || (s.state == WaitInvalidated && r in s.reasons)
            || (now < s.deadline && r == FreeWaitNotExpired)
            || ((!g.insidePickupZone || !g.driverAvailable) && r == DriverMovedAway)
            || (g.locationAge > p.maximumLocationAge && r == StaleGps)
            || (g.locationConfidence < p.minimumConfidence && r == LowConfidenceGps)
            || (p.notificationRequired && !g.reasonableNotification && r == NotificationFailure)
            || r in Flagged(Mapping(g))
  {
    InIf(now < s.deadline, FreeWaitNotExpired, r);
    InIf(!g.insidePickupZone || !g.driverAvailable, DriverMovedAway, r);
    InIf(g.locationAge > p.maximumLocationAge, StaleGps, r);
    InIf(g.locationConfidence < p.minimumConfidence, LowConfidenceGps, r);
    InIf(p.notificationRequired && !g.reasonableNotification, NotificationFailure, r);
  }

  /** A reason is listed exactly when it suppresses now, or made the session invalid; each once. */
  lemma SuppressionsAreExact(s: Session, p: Snapshot, g: Signals, now: int, r: Reason)
    ensures r in EvidenceFor(s, p, g, now).suppressed <==>
              Suppresses(s, p, g, now, r) || (s.state == WaitInvalidated && r in s.reasons)
  {
    UniqueKeepsReasons(Suppressions(s, p, g, now));
    InSuppressions(s, p, g, now, r);
    InMapping(s, p, g, now, r);
  }

  /** The rider answers for ready evidence alone; otherwise outside causes come before the platform's, and those before the driver's. */
  lemma ResponsibilityIsExact(s: Session, p: Snapshot, g: Signals, now: int)
    ensures var e := EvidenceFor(s, p, g, now);
            && (e.responsibility == Rider <==> e.ready)
            && (e.responsibility == External <==> !e.ready && g.externalDisruption)
            && (e.responsibility == Ayo <==> !e.ready && !g.externalDisruption && (g.platformFailure || g.mapOrEtaFailure))
            && (e.responsibility == Driver <==>
                !e.ready && !g.externalDisruption && !g.platformFailure && !g.mapOrEtaFailure
                && (g.driverLate || !g.insidePickupZone))
            && (e.ready ==> e.confidence == g.locationConfidence) && (!e.ready ==> e.confidence == 0)
  {
  }
}

/** What every run of a waiting session guarantees: its deadline, its pause credit and its evidence. */
module WaitingTheorems {
  import opened Options
  import opened WaitingSession

  datatype Step = Observe(signals: Signals, sequence: int, at: int) | Project(at: int)

  /**
   A session with its history: accepted sequences, how often and how long it was paused before
   resuming, and how long it was paused before being invalidated.
   */
  datatype Ledger = Ledger(session: Session, sequences: seq<int>, resumes: nat, resumedTime: int, lostTime: int)

  predicate Resumes(p: Snapshot, s: Session, g: Signals) {
    s.state == WaitPaused && s.pausedAt.Some? && Disruptions(p, g) == []
  }

  /** A pause that an observation turns into invalidation. */
  predicate Loses(p: Snapshot, s: Session, g: Signals) {
    s.state == WaitPaused && s.pausedAt.Some? && Disruptions(p, g) != [] && !Pauses(p, g, Disruptions(p, g))
  }

  /** A refused observation changes nothing; the worker projects only sessions that are due. */
  function Take(p: Snapshot, l: Ledger, step: Step): Ledger {
    match step
    case Observe(g, sequence, now) =>
      var r := Continuity(l.session, p, g, sequence, now);
      if r.Err? then l
      else if Resumes(p, l.session, g) then
        l.(session := r.value, sequences := l.sequences + [sequence], resumes := l.resumes + 1,
           resumedTime := l.resumedTime + now - l.session.pausedAt.value)
      else if Loses(p, l.session, g) then
        l.(session := r.value, sequences := l.sequences + [sequence],
           lostTime := l.lostTime + now - l.session.pausedAt.value)
      else l.(session := r.value, sequences := l.sequences + [sequence])
    case Project(now) =>
      if Due(l.session, now) then l.(session := Projected(l.session, now)) else l
  }

  function Run(p: Snapshot, l: Ledger, trace: seq<Step>): Ledger {
    if trace == [] then l else Take(p, Run(p, l, trace[..|trace| - 1]), trace[|trace| - 1])
  }

  function Opened(s: Session): Ledger {
    Ledger(s, [s.lastSequence], 0, 0, 0)
  }

  ghost predicate Started(p: Snapshot, s: Session) {
    exists ride, assignment, arrival, snapshotRide, now ::
      StartWaiting(ride, assignment, arrival, snapshotRide, p, now) == Ok(s)
  }

  // ----- what every step keeps

  ghost predicate Increasing(s: seq<int>) {
    forall i, j :: 0 <= i < j < |s| ==> s[i] < s[j]
  }

  ghost predicate Inv(p: Snapshot, l: Ledger) {
    && l.session.deadline == l.session.startedAt + (p.freeWaitSeconds + l.session.totalPaused) * SECOND
    && (l.session.pausedAt.Some? <==> l.session.state == WaitPaused)
    && l.session.reasons != [] && l.session.state != EvidenceReady
    && l.sequences != [] && l.sequences[|l.sequences| - 1] == l.session.lastSequence && Increasing(l.sequences)
  }

  lemma TakeKeepsInv(p: Snapshot, l: Ledger, step: Step)
    requires Inv(p, l)
    ensures Inv(p, Take(p, l, step)) && Take(p, l, step).session.startedAt == l.session.startedAt
  {
  }

  lemma {:induction false} RunKeepsInv(p: Snapshot, s: Session, trace: seq<Step>)
    requires Started(p, s)
    ensures Inv(p, Run(p, Opened(s), trace)) && Run(p, Opened(s), trace).session.startedAt == s.startedAt
    decreases |trace|
  {
    if trace != [] {
      RunKeepsInv(p, s, trace[..|trace| - 1]);
      TakeKeepsInv(p, Run(p, Opened(s), trace[..|trace| - 1]), trace[|trace| - 1]);
    }
  }

  /** In every run: deadline = start + free wait + credited pauses. */
  lemma {:induction false} DeadlineEquation(p: Snapshot, s: Session, trace: seq<Step>)
    requires Started(p, s)
    ensures var t := Run(p, Opened(s), trace).session;
            t.deadline == s.startedAt + (p.freeWaitSeconds + t.totalPaused) * SECOND
  {
    RunKeepsInv(p, s, trace);
  }

  /** In every run the pause timestamp is set exactly while paused, so only a stale sequence is ever refused. */
  lemma {:induction false} OnlyStaleObservationsAreRefused(p: Snapshot, s: Session, trace: seq<Step>, g: Signals,
                                                          sequence: int, now: int)
    requires Started(p, s)
    ensures var t := Run(p, Opened(s), trace).session;
            && (t.pausedAt.Some? <==> t.state == WaitPaused)
            && Continuity(t, p, g, sequence, now) != Err(PauseTimestampMissing)
            && (Continuity(t, p, g, sequence, now).Err? <==> sequence <= t.lastSequence)
  {
    RunKeepsInv(p, s, trace);
  }

  /** Accepted observation sequences strictly increase. */
  lemma SequencesIncrease(p: Snapshot, s: Session, trace: seq<Step>)
    requires Started(p, s)
    ensures Increasing(Run(p, Opened(s), trace).sequences)
  {
    RunKeepsInv(p, s, trace);
  }

  // ----- pauses on a clock that never runs backwards

  function TimeOf(step: Step): int { step.at }

  ghost predicate ClockRuns(start: int, trace: seq<Step>) {
    && (forall i :: 0 <= i < |trace| ==> start <= TimeOf(trace[i]))
    && (forall i, j :: 0 <= i < j < |trace| ==> TimeOf(trace[i]) <= TimeOf(trace[j]))
  }

  function ClockAfter(start: int, trace: seq<Step>): int {
    if trace == [] then start else TimeOf(trace[|trace| - 1])
  }

  /** All time paused so far: resumed pauses, invalidated ones, and the running one. */
  function PausedSoFar(l: Ledger, clock: int): int {
    l.resumedTime + l.lostTime + if l.session.pausedAt.Some? then clock - l.session.pausedAt.value else 0
  }

  ghost predicate ClockInv(l: Ledger, clock: int) {
    && (l.session.pausedAt.Some? ==> l.session.pausedAt.value <= clock)
    && 0 <= l.lostTime
    && 0 <= l.resumedTime - l.session.totalPaused * SECOND <= l.resumes * (SECOND - 1)
    && PausedSoFar(l, clock) <= clock - l.session.startedAt
  }

  lemma ClockPasses(l: Ledger, before: int, after: int)
    requires ClockInv(l, before) && before <= after
    ensures ClockInv(l, after)
  {
  }

  lemma TakeKeepsClock(p: Snapshot, l: Ledger, step: Step)
    requires Inv(p, l) && ClockInv(l, TimeOf(step))
    ensures ClockInv(Take(p, l, step), TimeOf(step))
  {
  }

  lemma {:induction false} RunKeepsClock(p: Snapshot, s: Session, trace: seq<Step>)
    requires Started(p, s) && ClockRuns(s.startedAt, trace)
    ensures ClockInv(Run(p, Opened(s), trace), ClockAfter(s.startedAt, trace))
    decreases |trace|
  {
    if trace != [] {
      var before, last := trace[..|trace| - 1], trace[|trace| - 1];
      assert forall i :: 0 <= i < |before| ==> before[i] == trace[i];
      RunKeepsClock(p, s, before);
      RunKeepsInv(p, s, before);
      ClockPasses(Run(p, Opened(s), before), ClockAfter(s.startedAt, before), TimeOf(last));
      TakeKeepsClock(p, Run(p, Opened(s), before), last);
    }
  }

  /** Credit never exceeds the true time of resumed pauses, and loses less than one second for each resume. */
  lemma PauseCreditIsBounded(p: Snapshot, s: Session, trace: seq<Step>)
    requires Started(p, s) && ClockRuns(s.startedAt, trace)
    ensures var l := Run(p, Opened(s), trace);
            && l.session.totalPaused * SECOND <= l.resumedTime
            && (l.resumes > 0 ==> l.resumedTime < (l.session.totalPaused + l.resumes) * SECOND)
            && (l.resumes == 0 ==> l.resumedTime == 0 && l.session.totalPaused == 0)
  {
    RunKeepsClock(p, s, trace);
    RunWithoutResume(p, s, trace);
  }

  lemma {:induction false} RunWithoutResume(p: Snapshot, s: Session, trace: seq<Step>)
    requires Started(p, s)
    ensures var l := Run(p, Opened(s), trace); l.resumes == 0 ==> l.resumedTime == 0 && l.session.totalPaused == 0
    decreases |trace|
  {
    if trace != [] {
      RunWithoutResume(p, s, trace[..|trace| - 1]);
      RunKeepsInv(p, s, trace[..|trace| - 1]);
    }
  }

  // ----- evidence

  lemma {:induction false} NothingFlagged(mapping: seq<(bool, Reason)>)
    ensures Flagged(mapping) == [] <==> forall i :: 0 <= i < |mapping| ==> !mapping[i].0
    decreases |mapping|
  {
    if mapping != [] {
      NothingFlagged(mapping[..|mapping| - 1]);
      assert mapping == mapping[..|mapping| - 1] + [mapping[|mapping| - 1]];
    }
  }

  lemma {:induction false} UniqueKeepsReasons(reasons: seq<Reason>)
    ensures forall r :: r in Unique(reasons) <==> r in reasons
    ensures forall i, j :: 0 <= i < j < |Unique(reasons)| ==> Unique(reasons)[i] != Unique(reasons)[j]
    decreases |reasons|
  {
    if reasons != [] {
      UniqueKeepsReasons(reasons[..|reasons| - 1]);
      assert reasons == reasons[..|reasons| - 1] + [reasons[|reasons| - 1]];
    }
  }

  /** No signal speaks against the rider's responsibility. */
  predicate Clear(p: Snapshot, g: Signals) {
    && g.insidePickupZone && g.driverAvailable && g.guidanceValid
    && g.locationAge <= p.maximumLocationAge && g.locationConfidence >= p.minimumConfidence
    && (p.notificationRequired ==> g.reasonableNotification)
    && !g.platformFailure && !g.mapOrEtaFailure && !g.externalDisruption && !g.unsafeOrInaccessible
    && !g.airportZoneConfusion && !g.roadClosure && !g.emergency && !g.weakNetwork && !g.driverLate
  }

  lemma ClearMeansUnflagged(g: Signals)
    ensures Flagged(Mapping(g)) == [] <==>
              g.guidanceValid && !g.platformFailure && !g.mapOrEtaFailure && !g.externalDisruption
              && !g.unsafeOrInaccessible && !g.airportZoneConfusion && !g.roadClosure && !g.emergency
              && !g.weakNetwork && !g.driverLate
  {
    NothingFlagged(Mapping(g));
    var m := Mapping(g);
    assert m[0].0 == !g.guidanceValid && m[1].0 == g.platformFailure && m[2].0 == g.mapOrEtaFailure;
    assert m[3].0 == g.externalDisruption && m[4].0 == g.unsafeOrInaccessible && m[5].0 == g.airportZoneConfusion;
    assert m[6].0 == g.roadClosure && m[7].0 == g.emergency && m[8].0 == g.weakNetwork && m[9].0 == g.driverLate;
  }

  /**
   No-show evidence is ready exactly when the session is not invalidated, the free wait and every
   credited pause have elapsed since the start, and no signal speaks against it.
   */
  lemma EvidenceReadyIsExact(p: Snapshot, s: Session, trace: seq<Step>, g: Signals, now: int)
    requires Started(p, s)
    ensures var t := Run(p, Opened(s), trace).session;
            EvidenceFor(t, p, g, now).ready <==>
              && t.state != WaitInvalidated && Clear(p, g)
              && now - s.startedAt >= (p.freeWaitSeconds + t.totalPaused) * SECOND
  {
    RunKeepsInv(p, s, trace);
    var t := Run(p, Opened(s), trace).session;
    var reasons := Suppressions(t, p, g, now);
    UniqueKeepsReasons(reasons);
    assert reasons == [] <==> Unique(reasons) == [] by {
      if reasons != [] {
        assert reasons[0] in reasons;
      }
    }
    ClearMeansUnflagged(g);
    assert t.state == WaitInvalidated ==> t.reasons != [];
    assert reasons == [] ==> If(now < t.deadline, FreeWaitNotExpired) == [];
  }

  /**
   Whenever evidence is ready, the rider had the free wait outside the resumed pauses, short of
   less than a second per resume.  A running or an invalidated pause is not made up for.
   */
  lemma RiderHadTheFreeWait(p: Snapshot, s: Session, trace: seq<Step>, g: Signals, now: int)
    requires Started(p, s) && ClockRuns(s.startedAt, trace)
    requires EvidenceFor(Run(p, Opened(s), trace).session, p, g, now).ready
    ensures var l := Run(p, Opened(s), trace);
            (now - s.startedAt) - l.resumedTime >= p.freeWaitSeconds * SECOND - l.resumes * (SECOND - 1)
  {
    EvidenceReadyIsExact(p, s, trace, g, now);
    RunKeepsClock(p, s, trace);
  }

  /** The last instant not inside the running pause. */
  function UnpausedUntil(s: Session, now: int): int {
    if s.pausedAt.Some? then s.pausedAt.value else now
  }

  /** Pause time that the deadline never makes up for: invalidated pauses and truncated fractions. */
  function Uncredited(l: Ledger): int {
    l.lostTime + l.resumedTime - l.session.totalPaused * SECOND
  }

  /**
   The whole free wait lay outside every pause exactly when the deadline, put off by the uncredited
   pause time, was passed while not paused: by now, or by the start of the pause that still runs.
   */
  lemma FreeWaitOutsidePausesIsExact(p: Snapshot, s: Session, trace: seq<Step>, now: int)
    requires Started(p, s) && ClockRuns(s.startedAt, trace)
    ensures var l := Run(p, Opened(s), trace);
            && Uncredited(l) >= 0
            && ((now - s.startedAt) - PausedSoFar(l, now) >= p.freeWaitSeconds * SECOND <==>
                UnpausedUntil(l.session, now) >= l.session.deadline + Uncredited(l))
  {
    RunKeepsInv(p, s, trace);
    RunKeepsClock(p, s, trace);
  }

  /** A session paused right after its start is ready once the free wait has passed, without a moment of waiting. */
  lemma ReadyWhilePaused(p: Snapshot, s: Session, away: Signals, back: Signals)
    requires Started(p, s) && p.departure == Pause && !away.insidePickupZone && Clear(p, back) && p.freeWaitSeconds >= 0
    ensures var l := Run(p, Opened(s), [Observe(away, s.lastSequence + 1, s.startedAt)]);
            var now := s.startedAt + p.freeWaitSeconds * SECOND;
            && l.session.state == WaitPaused && EvidenceFor(l.session, p, back, now).ready
            && (now - s.startedAt) - PausedSoFar(l, now) == 0
  {
    var step := Observe(away, s.lastSequence + 1, s.startedAt);
    var trace := [step];
    assert trace[..0] == [];
    assert Run(p, Opened(s), trace) == Take(p, Opened(s), step);
    assert Disruptions(p, away) != [] by {
      assert LocationDisruptions(p, away)[0] == DriverMovedAway;
    }
    var now := s.startedAt + p.freeWaitSeconds * SECOND;
    EvidenceReadyIsExact(p, s, trace, back, now);
  }

  // ----- invalidation

  /** Invalidation is not absorbing: any later clean observation brings the session back to waiting. */
  lemma CleanObservationRevives(p: Snapshot, s: Session, trace: seq<Step>, g: Signals, sequence: int, now: int)
    requires Started(p, s) && Run(p, Opened(s), trace).session.state == WaitInvalidated
    requires sequence > Run(p, Opened(s), trace).session.lastSequence && Disruptions(p, g) == []
    ensures var t := Run(p, Opened(s), trace + [Observe(g, sequence, now)]).session;
            && (t.state == FreeWaitActive || t.state == FreeWaitEnding)
            && t.deadline == Run(p, Opened(s), trace).session.deadline
  {
    assert (trace + [Observe(g, sequence, now)])[..|trace|] == trace;
  }

  /** A pause that ends in invalidation is not credited: the time it lasted is lost to the deadline. */
  lemma InvalidatedPauseIsNotCredited(p: Snapshot, s: Session, trace: seq<Step>, g: Signals, sequence: int, now: int)
    requires Started(p, s) && Run(p, Opened(s), trace).session.state == WaitPaused
    requires sequence > Run(p, Opened(s), trace).session.lastSequence
    requires Disruptions(p, g) != [] && !Pauses(p, g, Disruptions(p, g))
    ensures var before := Run(p, Opened(s), trace).session;
            var t := Run(p, Opened(s), trace + [Observe(g, sequence, now)]).session;
            t.state == WaitInvalidated && t.pausedAt.None? && t.totalPaused == before.totalPaused
            && t.deadline == before.deadline
  {
    assert (trace + [Observe(g, sequence, now)])[..|trace|] == trace;
  }
}

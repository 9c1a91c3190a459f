/**
 What a merchant operation ends as, in terms of what the network answered and what was live at
 the two moments the answer was looked at.
 */
module MerchantOutcomes {
  import opened Options
  import opened Identifiers
  import opened PickupEngine
  import opened MerchantCommand
  import opened MerchantScope
  import opened MerchantController
  import opened MerchantInvariant
  import opened MerchantTheorems

  // ----- issued attempts are well formed

  ghost predicate Issued(s: State) {
    forall o :: 0 <= o < |s.ops| ==> AttemptIsValid(s.ops[o].attempt)
  }

  lemma CreatedIsIssued(s: State, live: ScopeValue, key: string)
    requires Issued(s) && CreateAttempt(live, key).Some?
    ensures Issued(CreateAndSubmit(s, CreateAttempt(live, key).value))
  {
    CreatedAttemptMatches(live, key);
  }

  lemma AcknowledgeKeepsIssued(s: State, key: string)
    requires Inv(s) && Issued(s)
    ensures Issued(Acknowledge(s, key))
  {
    AcknowledgeShape(s, key);
    if Idle(s) && s.scope.CurrentScope().Some? && CreateAttempt(s.scope.CurrentScope().value, key).Some? {
      CreatedIsIssued(s, s.scope.CurrentScope().value, key);
    }
  }

  lemma GrowingKeepsIssued(s: State, t: State)
    requires Issued(s) && Grows(s, t) && |t.ops| == |s.ops|
    ensures Issued(t)
  {
  }

  lemma StepKeepsIssued(s: State, e: Event)
    requires Inv(s) && Issued(s)
    ensures Issued(Apply(s, e))
  {
    if e.AcknowledgePressed? {
      AcknowledgeKeepsIssued(s, e.key);
    } else {
      StepGrows(s, e);
      GrowingKeepsIssued(s, Apply(s, e));
    }
  }

  lemma {:induction false} RunKeepsIssued(s: State, trace: seq<Event>)
    requires Inv(s) && Issued(s)
    ensures Inv(Execute(s, trace)) && Issued(Execute(s, trace))
    decreases |trace|
  {
    if trace != [] {
      StepKeepsInv(s, trace[0]);
      StepKeepsIssued(s, trace[0]);
      RunKeepsIssued(Apply(s, trace[0]), trace[1..]);
    }
  }

  lemma ReachableIssued(s: State)
    requires Reachable(s)
    ensures Inv(s) && Issued(s)
  {
    var identity: Option<Identity>, context: Option<Context>, trace: seq<Event> :|
      s == Execute(Initial(identity, context), trace);
    RunKeepsIssued(Initial(identity, context), trace);
  }

  // ----- a result waits until its own flight is resumed

  /** The one event that moves a flight holding a result: the service's turn, then the controller's. */
  predicate Resumes(f: Flight, i: nat, e: Event) {
    if f.stage.TransportDone? then e == ServiceResumed(i) else e == ControllerResumed(i)
  }

  predicate HoldsResult(f: Flight) {
    f.stage.TransportDone? || f.stage.ServiceDone?
  }

  lemma OwnEventsWait(s: State, e: Event, i: nat)
    requires Inv(s) && i < |s.flights| && HoldsResult(s.flights[i]) && !Resumes(s.flights[i], i, e)
    requires !Environment(e) && !e.AcknowledgePressed? && !e.ReconcilePressed? && e.flight == i
    ensures Apply(s, e) == s
  {
  }

  lemma PressesWait(s: State, e: Event, i: nat)
    requires Inv(s) && i < |s.flights| && HoldsResult(s.flights[i])
    requires e.AcknowledgePressed? || e.ReconcilePressed?
    ensures Apply(s, e) == s
  {
    assert FlightOk(s, i);
  }

  lemma StepWaits(s: State, e: Event, i: nat)
    requires Inv(s) && i < |s.flights| && HoldsResult(s.flights[i]) && !Resumes(s.flights[i], i, e)
    ensures i < |Apply(s, e).flights| && Apply(s, e).flights[i] == s.flights[i]
  {
    if Environment(e) {
      EnvironmentShape(s, e);
    } else if e.AcknowledgePressed? || e.ReconcilePressed? {
      PressesWait(s, e, i);
    } else if e.flight == i {
      OwnEventsWait(s, e, i);
    } else if Exists(s, e.flight) {
      OtherFlightsKeepStage(s, e, i);
    }
  }

  /** Whatever else happens, the flight keeps its result and its operation keeps its attempt. */
  lemma {:induction false} ResultWaits(s: State, trace: seq<Event>, i: nat)
    requires Inv(s) && Issued(s) && i < |s.flights| && HoldsResult(s.flights[i])
    requires forall e :: e in trace ==> !Resumes(s.flights[i], i, e)
    ensures var t := Execute(s, trace);
            && Inv(t) && Issued(t) && i < |t.flights| && t.flights[i] == s.flights[i]
            && s.flights[i].op < |s.ops| && s.flights[i].op < |t.ops|
            && t.ops[s.flights[i].op].attempt == s.ops[s.flights[i].op].attempt
    decreases |trace|
  {
    assert FlightOk(s, i);
    if trace != [] {
      var t := Apply(s, trace[0]);
      StepWaits(s, trace[0], i);
      StepKeepsInv(s, trace[0]);
      StepKeepsIssued(s, trace[0]);
      StepGrows(s, trace[0]);
      ResultWaits(t, trace[1..], i);
    }
  }

  // ----- reconciliation

  /** The timestamps that prove a waiting pickup was acknowledged and not ended. */
  predicate ProvingTimes(p: PickupSnapshot) {
    && p.arrivedAt.Some? && p.acknowledgedAt.Some? && p.waitingSeconds.Some? && !p.terminal
    && p.arrivedAt.value <= p.acknowledgedAt.value <= p.updatedAt
  }

  predicate WaitsAbove(p: PickupSnapshot, attempt: Attempt) {
    p.pickupId == attempt.pickupId && p.state == Waiting && p.version > attempt.expectedVersion
  }

  predicate StillArrived(p: PickupSnapshot, attempt: Attempt) {
    p.pickupId == attempt.pickupId && p.state == Arrived && p.version == attempt.expectedVersion
  }

  /** A flight that awaits its read gets it, other things happen, and then its controller goes on. */
  ghost function AfterRead(s: State, i: nat, reply: ReadReply, between: seq<Event>): State {
    Execute(Apply(s, ReadReceived(i, reply)), between)
  }

  lemma ReadWaits(s: State, i: nat, reply: ReadReply, between: seq<Event>)
    requires Inv(s) && Issued(s) && i < |s.flights| && s.flights[i].stage == AwaitRead
    requires ControllerResumed(i) !in between
    ensures s.flights[i].op < |s.ops|
    ensures var t, o := AfterRead(s, i, reply, between), s.flights[i].op;
            && Inv(t) && Issued(t) && i < |t.flights| && o < |t.ops| && t.ops[o].attempt == s.ops[o].attempt
            && t.flights[i] == s.flights[i].(stage := ServiceDone(ClassifyRead(s, s.ops[o].attempt, reply)))
  {
    assert FlightOk(s, i);
    var e := ReadReceived(i, reply);
    StepKeepsInv(s, e);
    StepKeepsIssued(s, e);
    ResultWaits(Apply(s, e), between, i);
  }

  /** How the controller's segment settles a reconciliation that holds a service result. */
  lemma ResumedReconciliation(t: State, i: nat)
    requires Inv(t) && Issued(t) && i < |t.flights| && t.flights[i].phase == Reconciling
    requires t.flights[i].stage.ServiceDone? && t.flights[i].op < |t.ops|
    ensures var o, r, u := t.flights[i].op, t.flights[i].stage.result, Apply(t, ControllerResumed(i));
            var attempt := t.ops[o].attempt;
            && o < |u.ops| && AttemptIsValid(attempt)
            && u.ops[o].settled == Some(
                 match r
                 case Reconciled(value) =>
                   if !t.scope.OperationIsCurrent(attempt) then Invalid(ScopeChanged)
                   else (
                     match value
                     case RetrySameAttempt(p) =>
                       if t.scope.RetryAcceptable(attempt, p) then RetryAttempt else Invalid(ScopeChanged)
                     case AlreadyApplied(_) => Applied
                     case Invalidated(reason) => Invalid(reason))
                 case ReadThrew(ReadPublicError(kind, status)) =>
                   if AuthorityError(kind, status) then Invalid(AuthorityLost) else OutcomeUnknown
                 case _ => OutcomeUnknown)
  {
    assert FlightOk(t, i);
    var r := t.flights[i].stage.result;
    if r.Reconciled? && r.value.RetrySameAttempt? {
      RetryEvidenceAccepted(t.scope, t.ops[t.flights[i].op].attempt, r.value.pickup);
    }
  }

  /**
   A read of the pickup, taken and settled while the operation is current, decides the outcome:
   applied exactly if the pickup waits above the attempt's version with proving timestamps, retry
   exactly if it has still arrived at that version, offers the action and no other evidence stands,
   unknown exactly if it waits without proof, and otherwise invalid with its reason.
   */
  lemma ReconciliationIsExact(s: State, i: nat, p: PickupSnapshot, between: seq<Event>)
    requires Reachable(s) && i < |s.flights| && s.flights[i].stage == AwaitRead && Exists(s, i)
    requires ControllerResumed(i) !in between && SnapshotIsValid(p)
    requires s.scope.OperationIsCurrent(s.ops[s.flights[i].op].attempt)
    requires AfterRead(s, i, ReadPickup(p), between).scope.OperationIsCurrent(s.ops[s.flights[i].op].attempt)
    ensures var o, attempt, t := s.flights[i].op, s.ops[s.flights[i].op].attempt, AfterRead(s, i, ReadPickup(p), between);
            var u := Apply(t, ControllerResumed(i));
            var ownEvidence := t.scope.evidence.None? || t.scope.EvidenceMatchesAttempt(attempt);
            && o < |u.ops| && u.ops[o].settled.Some?
            && var outcome := u.ops[o].settled.value;
            && (outcome == Applied <==> WaitsAbove(p, attempt) && ProvingTimes(p))
            && (outcome == OutcomeUnknown <==> WaitsAbove(p, attempt) && !ProvingTimes(p))
            && (outcome == RetryAttempt <==> StillArrived(p, attempt) && p.offersAcknowledge && ownEvidence)
            && (outcome == Invalid(ScopeChanged) <==> StillArrived(p, attempt) && p.offersAcknowledge && !ownEvidence)
            && (outcome == Invalid(AuthorityLost) <==> StillArrived(p, attempt) && !p.offersAcknowledge)
            && (outcome == Invalid(StateChanged) <==> !WaitsAbove(p, attempt) && !StillArrived(p, attempt))
  {
    ReachableIssued(s);
    assert FlightOk(s, i);
    ReadWaits(s, i, ReadPickup(p), between);
    ResumedReconciliation(AfterRead(s, i, ReadPickup(p), between), i);
  }

  /** Outside that, nothing is applied or retried: each way the read or the operation failed has its own outcome. */
  lemma FailedReconciliationIsExact(s: State, i: nat, reply: ReadReply, between: seq<Event>)
    requires Reachable(s) && i < |s.flights| && s.flights[i].stage == AwaitRead && Exists(s, i)
    requires ControllerResumed(i) !in between
    ensures var o, attempt, t := s.flights[i].op, s.ops[s.flights[i].op].attempt, AfterRead(s, i, reply, between);
            var u := Apply(t, ControllerResumed(i));
            var before, after := s.scope.OperationIsCurrent(attempt), t.scope.OperationIsCurrent(attempt);
            && o < |u.ops| && u.ops[o].settled.Some?
            && var outcome := u.ops[o].settled.value;
            match reply
            case ReadPickup(p) =>
              && (before && !SnapshotIsValid(p) ==> outcome == OutcomeUnknown)
              && (!before ==> outcome == Invalid(if after then AuthorityLost else ScopeChanged))
              && (before && SnapshotIsValid(p) && !after ==>
                    outcome == if WaitsAbove(p, attempt) && !ProvingTimes(p) then OutcomeUnknown
                               else Invalid(ScopeChanged))
            case ReadFailed(ReadPublicError(kind, status)) =>
              if || status == Some(403) || status == Some(404)
                 || (status == Some(409) && kind == TemporarilyUnavailable)
              then outcome == Invalid(if after then AuthorityLost else ScopeChanged)
              else if || status == Some(401) || kind == AuthenticationRequired || kind == SessionExpired
                      || kind == AccessDenied || kind == NotFound
              then outcome == Invalid(AuthorityLost)
              else outcome == OutcomeUnknown
            case ReadFailed(_) => outcome == OutcomeUnknown
  {
    ReachableIssued(s);
    assert FlightOk(s, i);
    ReadWaits(s, i, reply, between);
    ResumedReconciliation(AfterRead(s, i, reply, between), i);
  }

  // ----- submission

  /** A success body that proves this very attempt moved the pickup. */
  predicate BodyProves(body: ResultBody, attempt: Attempt) {
    && Lower(body.pickupId) == attempt.pickupId && body.state == Waiting
    && body.version == attempt.expectedVersion + 1 <= MAX_SAFE_INTEGER
    && 0 <= body.waitingSeconds <= MAX_SAFE_INTEGER && !body.terminal
    && body.arrivedAt <= body.acknowledgedAt <= body.updatedAt
  }

  predicate Proving(body: BodyReply, attempt: Attempt) {
    body.ResultDocument? && body.result.Some? && BodyProves(body.result.value, attempt)
  }

  /** The state when the service looks at the body, and the one when the controller looks at the service's result. */
  ghost function AtService(s: State, i: nat, e: Event, before: seq<Event>): State {
    Execute(Apply(s, e), before)
  }

  ghost function AtController(s: State, i: nat, e: Event, before: seq<Event>, after: seq<Event>): State {
    Execute(Apply(AtService(s, i, e, before), ServiceResumed(i)), after)
  }

  /** A transport result travels through the service to the controller, whatever happens in between. */
  lemma TransportTravels(s: State, i: nat, e: Event, before: seq<Event>, after: seq<Event>)
    requires Inv(s) && Issued(s) && Exists(s, i)
    requires ServiceResumed(i) !in before && ControllerResumed(i) !in after
    requires i < |Apply(s, e).flights| && Apply(s, e).flights[i].stage.TransportDone?
    requires Apply(s, e).flights[i].op == s.flights[i].op
    ensures var r, t, o := AtService(s, i, e, before), AtController(s, i, e, before, after), s.flights[i].op;
            var f := Apply(s, e).flights[i];
            && Inv(t) && Issued(t) && i < |t.flights| && o < |t.ops| && t.ops[o].attempt == s.ops[o].attempt
            && t.flights[i] == f.(stage := ServiceDone(ClassifyTransport(r, s.ops[o].attempt, f.stage.transport)))
  {
    StepKeepsInv(s, e);
    StepKeepsIssued(s, e);
    StepGrows(s, e);
    ResultWaits(Apply(s, e), before, i);
    var r := AtService(s, i, e, before);
    StepKeepsInv(r, ServiceResumed(i));
    StepKeepsIssued(r, ServiceResumed(i));
    ResultWaits(Apply(r, ServiceResumed(i)), after, i);
  }

  /** How the controller's segment settles a submit that holds a service result. */
  lemma ResumedSubmit(t: State, i: nat)
    requires Inv(t) && i < |t.flights| && t.flights[i].phase == Submitting
    requires t.flights[i].stage.ServiceDone? && t.flights[i].op < |t.ops|
    ensures var o, r, u := t.flights[i].op, t.flights[i].stage.result, Apply(t, ControllerResumed(i));
            && o < |u.ops|
            && u.ops[o].settled == Some(
                 match r
                 case Submitted =>
                   if t.scope.OperationIsCurrent(t.ops[o].attempt) then Applied else Invalid(ScopeChanged)
                 case SubmitThrew(RejectedError(rejection)) => Rejected(rejection)
                 case SubmitThrew(AttemptInvalid) => Invalid(ScopeChanged)
                 case SubmitThrew(PublicError(kind, status)) =>
                   if AuthorityError(kind, status) then Invalid(AuthorityLost) else Rejected(RefreshRequired)
                 case _ => OutcomeUnknown)
  {
    assert FlightOk(t, i);
  }

  /** An error envelope, or the status itself, that takes the authority away. */
  predicate LosesAuthority(status: int, body: BodyReply) {
    || status == 401 || status == 403 || status == 404
    || (body.ErrorCode? && (body.kind == AuthenticationRequired || body.kind == SessionExpired
                            || body.kind == AccessDenied || body.kind == NotFound))
  }

  predicate NamesRejection(body: BodyReply) {
    body.RejectionCode? && body.rejection != RefreshRequired && body.rejection != ReconciliationNotAvailable
  }

  /** The service's verdict on an answer, in terms of its status, its body and what was live. */
  lemma AnswerIsClassified(s: State, attempt: Attempt, status: int, body: BodyReply)
    requires AttemptIsValid(attempt)
    ensures var r, live := ClassifyTransport(s, attempt, InterpretBody(status, body)), LiveEquals(attempt, s.scope);
            if 200 <= status <= 299 then
              r == if body.Unreadable? then SubmitThrew(OutcomeUnknownError)
                   else if !live then SubmitThrew(AttemptInvalid)
                   else if Proving(body, attempt) then Submitted else SubmitThrew(OutcomeUnknownError)
            else if status >= 500 then r == SubmitThrew(OutcomeUnknownError)
            else if status == 409 && NamesRejection(body) then r == SubmitThrew(RejectedError(body.rejection))
            else
              && r.SubmitThrew? && r.error.PublicError? && r.error.status == Some(status)
              && (AuthorityError(r.error.kind, r.error.status) <==> status != 409 && LosesAuthority(status, body))
  {
    GuardMeansLive(attempt, s.scope);
  }

  /**
   The answer of a submitted acknowledgement decides its outcome.  A success is applied exactly if
   its body proves the acknowledgement, the condition was still live when the body was read and the
   operation still current when it settled; unknown is any other success of a live condition, an
   unreadable one and every server failure; a refusal says what it refuses.
   */
  lemma SubmitIsExact(s: State, i: nat, body: BodyReply, before: seq<Event>, after: seq<Event>)
    requires Reachable(s) && Exists(s, i) && s.flights[i].stage.AwaitBody?
    requires ServiceResumed(i) !in before && ControllerResumed(i) !in after
    ensures var o, status, attempt := s.flights[i].op, s.flights[i].stage.status, s.ops[s.flights[i].op].attempt;
            var live := LiveEquals(attempt, AtService(s, i, BodyReceived(i, body), before).scope);
            var t := AtController(s, i, BodyReceived(i, body), before, after);
            var current, u := t.scope.OperationIsCurrent(attempt), Apply(t, ControllerResumed(i));
            && o < |u.ops| && u.ops[o].settled.Some?
            && var outcome := u.ops[o].settled.value;
            if 200 <= status <= 299 then
              && (outcome == Applied <==> Proving(body, attempt) && live && current)
              && (outcome == OutcomeUnknown <==> body.Unreadable? || (live && !Proving(body, attempt)))
              && (outcome == Invalid(ScopeChanged) <==>
                  !body.Unreadable? && (!live || (Proving(body, attempt) && !current)))
            else if status >= 500 then outcome == OutcomeUnknown
            else if status == 409 then
              outcome == Rejected(if NamesRejection(body) then body.rejection else RefreshRequired)
            else
              outcome == if LosesAuthority(status, body) then Invalid(AuthorityLost) else Rejected(RefreshRequired)
  {
    ReachableIssued(s);
    assert FlightOk(s, i);
    var e := BodyReceived(i, body);
    TransportTravels(s, i, e, before, after);
    AnswerIsClassified(AtService(s, i, e, before), s.ops[s.flights[i].op].attempt, s.flights[i].stage.status, body);
    ResumedSubmit(AtController(s, i, e, before, after), i);
  }

  /** A post that is never answered, and a session that cannot be restored, leave the outcome unknown. */
  lemma UnansweredIsUnknown(s: State, i: nat, e: Event, before: seq<Event>, after: seq<Event>)
    requires Reachable(s) && Exists(s, i)
    requires || (s.flights[i].stage.AwaitResponse? && e.ResponseReceived? && e.flight == i && e.answer.NoAnswer?)
             || ((s.flights[i].stage == AwaitSession || s.flights[i].stage == AwaitRefresh)
                 && e.SessionReplied? && e.flight == i && e.session.SessionFailure?)
    requires ServiceResumed(i) !in before && ControllerResumed(i) !in after
    ensures var o, u := s.flights[i].op, Apply(AtController(s, i, e, before, after), ControllerResumed(i));
            o < |u.ops| && u.ops[o].settled == Some(OutcomeUnknown)
  {
    ReachableIssued(s);
    assert FlightOk(s, i);
    TransportTravels(s, i, e, before, after);
    ResumedSubmit(AtController(s, i, e, before, after), i);
  }

  /** A session reply that lets the post leave: the attempt's own session, not aborted, everything live. */
  ghost predicate LetsSend(s: State, attempt: Attempt, reply: SessionReply, aborted: bool) {
    && reply.Session? && Lower(reply.identityId) == attempt.identityId && Lower(reply.sessionId) == attempt.sessionId
    && !aborted && LiveEquals(attempt, s.scope)
  }

  /** Exactly such a reply sends one post, of this attempt, under that session. */
  lemma SendIsExact(s: State, i: nat, reply: SessionReply, aborted: bool)
    requires Reachable(s) && Exists(s, i)
    ensures var t, attempt := Apply(s, SessionReplied(i, reply, aborted)), s.ops[s.flights[i].op].attempt;
            if (s.flights[i].stage == AwaitSession || s.flights[i].stage == AwaitRefresh)
               && LetsSend(s, attempt, reply, aborted)
            then
              && |t.wire| == |s.wire| + 1 && t.wire[..|s.wire|] == s.wire
              && t.wire[|s.wire|].attempt == attempt && t.wire[|s.wire|].flight == i
              && t.flights[i].stage == AwaitResponse(|s.wire|, s.flights[i].stage == AwaitRefresh)
            else t.wire == s.wire
  {
    ReachableIssued(s);
    assert FlightOk(s, i);
    GuardMeansLive(s.ops[s.flights[i].op].attempt, s.scope);
  }

  /** Any other reply of a working session manager ends the submit as invalid, for a changed scope. */
  lemma UnsentIsInvalid(s: State, i: nat, reply: SessionReply, aborted: bool, before: seq<Event>, after: seq<Event>)
    requires Reachable(s) && Exists(s, i) && (s.flights[i].stage == AwaitSession || s.flights[i].stage == AwaitRefresh)
    requires !reply.SessionFailure? && !LetsSend(s, s.ops[s.flights[i].op].attempt, reply, aborted)
    requires ServiceResumed(i) !in before && ControllerResumed(i) !in after
    ensures var t := AtController(s, i, SessionReplied(i, reply, aborted), before, after);
            var o, u := s.flights[i].op, Apply(t, ControllerResumed(i));
            o < |u.ops| && u.ops[o].settled == Some(Invalid(ScopeChanged))
  {
    ReachableIssued(s);
    assert FlightOk(s, i);
    var e := SessionReplied(i, reply, aborted);
    GuardMeansLive(s.ops[s.flights[i].op].attempt, s.scope);
    TransportTravels(s, i, e, before, after);
    ResumedSubmit(AtController(s, i, e, before, after), i);
  }
}

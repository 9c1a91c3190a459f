/**
 The merchant controller as the object that holds the operation, the consumed versions and
 the running flights.  Each method is one synchronous segment of the controller, its service
 or its transport; each is proved to take the step of the state machine, and so to keep its
 invariant.
 */
module MerchantControllerObject {
  import opened Options
  import opened Identifiers
  import opened MerchantCommand
  import opened MerchantScope
  import opened MerchantController
  import opened MerchantInvariant

  class AcknowledgeArrivalController {
    const scope: CommandScope
    var consumedVersions: map<CustodyKey, int>
    var operations: seq<Operation>
    var operation: Option<nat>
    var nextGeneration: nat
    var flights: seq<Flight>
    var wire: seq<Post>

    function View(): State
      reads this, scope
    {
      State(scope.View(), operations, operation, consumedVersions, nextGeneration, flights, wire)
    }

    ghost predicate Valid()
      reads this, scope
    {
      Inv(View())
    }

    constructor (scope: CommandScope)
      requires scope.View() == Initial(scope.identity, scope.context).scope
      ensures this.scope == scope && Valid()
      ensures View() == Initial(scope.identity, scope.context)
    {
      this.scope := scope;
      consumedVersions, operations, operation := map[], [], None;
      nextGeneration, flights, wire := 1, [], [];
    }

    method IsAcknowledgeArrivalActionable() returns (actionable: bool)
      requires Valid()
      ensures actionable == Actionable(View())
    {
      if operation.Some? {
        var op := operations[operation.value];
        if op.inFlight.Some? || op.settled == Some(OutcomeUnknown) {
          return false;
        }
        if op.settled == Some(RetryAttempt) {
          return scope.View().ResolveForSubmit(op.handle).Some?;
        }
      }
      var current := scope.View().CurrentScope();
      actionable := current.Some? && !Suppressed(View(), current.value);
    }

    /** Settles the operation unless another one took its place. */
    method SettleOperation(o: nat, outcome: Outcome)
      requires o < |operations|
      modifies this`operations
      ensures View() == Settle(old(View()), o, outcome)
    {
      if operation == Some(o) {
        operations := operations[o := operations[o].(settled := Some(outcome))];
      }
    }

    /** Raises the consumed version of the operation's custody to the operation's version. */
    method RecordConsumedVersion(o: nat)
      requires o < |operations|
      modifies this`consumedVersions
      ensures View() == RecordConsumed(old(View()), o)
    {
      if operation != Some(o) {
        return;
      }
      var key := KeyOf(operations[o].attempt);
      var prior := if key in consumedVersions then consumedVersions[key] else 0;
      var version := operations[o].attempt.expectedVersion;
      consumedVersions := consumedVersions[key := if prior < version then version else prior];
    }

    method BeginFlight(o: nat, phase: Phase) returns (flight: nat)
      requires o < |operations|
      modifies this`operations, this`flights
      ensures View() == StartFlight(old(View()), o, phase) && flight == |old(flights)|
    {
      flight := |flights|;
      operations := operations[o := operations[o].(phase := Some(phase), inFlight := Some(flight))];
      flights := flights + [Flight(o, phase, AwaitService, false)];
    }

    method SubmitOperation(o: nat) returns (result: CallResult)
      requires o < |operations|
      modifies this`operations, this`flights
      ensures View() == Submit(old(View()), o) && result == SubmitResult(old(View()), o)
    {
      if operation != Some(o) {
        return Resolved(Invalid(ScopeChanged));
      }
      if operations[o].inFlight.Some? {
        return Pending(operations[o].inFlight.value);
      }
      if scope.View().ResolveForSubmit(operations[o].handle).None? {
        SettleOperation(o, Invalid(ScopeChanged));
        return Resolved(Invalid(ScopeChanged));
      }
      var flight := BeginFlight(o, Submitting);
      result := Pending(flight);
    }

    /** A new attempt for the live scope, with its operation; the resolved handle is submitted at once. */
    method SubmitNewAttempt(key: string) returns (result: CallResult)
      requires scope.View().CurrentScope().Some?
      modifies this, scope`attempts
      ensures var was := old(View());
              var attempt := CreateAttempt(was.scope.CurrentScope().value, key);
              && View() == (if attempt.None? then was else CreateAndSubmit(was, attempt.value))
              && result == if attempt.None? then Thrown else Pending(|was.flights|)
    {
      ghost var before := View();
      var current := scope.View().CurrentScope();
      var handle := scope.CreateForCurrentPickup(key);
      if handle.None? {
        return Thrown;
      }
      CreatedResolves(before.scope, current.value, key);
      var attempt := scope.View().ResolveForSubmit(handle.value);
      if attempt.None? {
        return Resolved(Invalid(ScopeChanged));
      }
      var o := |operations|;
      operations := operations + [Operation(nextGeneration, handle.value, attempt.value, None, None, None)];
      operation := Some(o);
      nextGeneration := nextGeneration + 1;
      result := SubmitOperation(o);
    }

    /** Acknowledge: share the pending flight, keep an unknown outcome, retry the same attempt, or start a new one. */
    method AcknowledgeArrival(key: string) returns (result: CallResult)
      requires Valid()
      modifies this, scope`attempts
      ensures Valid()
      ensures View() == Apply(old(View()), AcknowledgePressed(key))
      ensures result == AcknowledgeResult(old(View()), key)
    {
      StepKeepsInv(View(), AcknowledgePressed(key));
      var applied := false;
      if operation.Some? {
        var existing := operations[operation.value];
        if existing.inFlight.Some? {
          return Pending(existing.inFlight.value);
        }
        if existing.settled == Some(OutcomeUnknown) {
          return Resolved(OutcomeUnknown);
        }
        if existing.settled == Some(RetryAttempt) {
          result := SubmitOperation(operation.value);
          return;
        }
        applied := existing.settled == Some(Applied);
      }
      var current := scope.View().CurrentScope();
      if current.None? || Suppressed(View(), current.value) {
        return Resolved(if applied then Applied else Invalid(ScopeChanged));
      }
      result := SubmitNewAttempt(key);
    }

    method ReconcileAcknowledgeArrival() returns (result: CallResult)
      requires Valid()
      modifies this`operations, this`flights
      ensures Valid()
      ensures View() == Apply(old(View()), ReconcilePressed)
      ensures result == ReconcileResult(old(View()))
    {
      StepKeepsInv(View(), ReconcilePressed);
      if operation.None? {
        return Resolved(Rejected(ReconciliationNotAvailable));
      }
      var o := operation.value;
      if operations[o].inFlight.Some? {
        return Pending(operations[o].inFlight.value);
      }
      if operations[o].settled != Some(OutcomeUnknown) {
        return Resolved(Rejected(ReconciliationNotAvailable));
      }
      if scope.View().ResolveForOperation(operations[o].handle).None? {
        SettleOperation(o, Invalid(ScopeChanged));
        return Resolved(Invalid(ScopeChanged));
      }
      var flight := BeginFlight(o, Reconciling);
      result := Pending(flight);
    }

    method SetStage(i: nat, stage: Stage)
      requires i < |flights|
      modifies this`flights
      ensures View() == WithStage(old(View()), i, stage)
    {
      flights := flights[i := flights[i].(stage := stage)];
    }

    /** The command service resolved, and the service call ran to its first await. */
    method ServiceResolves(i: nat, available: bool, aborted: bool)
      requires Valid() && i < |flights| && flights[i].stage == AwaitService
      modifies this`flights, this`operations, this`consumedVersions
      ensures Valid() && View() == Apply(old(View()), ServiceResolved(i, available, aborted))
    {
      assert FlightOk(View(), i);
      StepKeepsInv(View(), ServiceResolved(i, available, aborted));
      var o := flights[i].op;
      var attempt := operations[o].attempt;
      if !available {
        if flights[i].phase == Submitting {
          RecordConsumedVersion(o);
        }
        SettleOperation(o, OutcomeUnknown);
        SetStage(i, Finishing);
      } else if flights[i].phase == Reconciling {
        SetStage(i, if scope.View().OperationIsCurrent(attempt) then AwaitRead
                    else ServiceDone(Reconciled(Invalidated(AuthorityLost))));
      } else if !MatchesScope(attempt, scope.View().CurrentScope()) {
        SetStage(i, ServiceDone(SubmitThrew(AttemptInvalid)));
      } else if aborted {
        SetStage(i, TransportDone(Threw(AttemptInvalid)));
      } else {
        SetStage(i, AwaitSession);
      }
    }

    /** The session was restored or refreshed: check it, check the guard again, and send. */
    method SessionReplies(i: nat, reply: SessionReply, aborted: bool)
      requires Valid() && i < |flights| && (flights[i].stage == AwaitSession || flights[i].stage == AwaitRefresh)
      modifies this`flights, this`wire
      ensures Valid() && View() == Apply(old(View()), SessionReplied(i, reply, aborted))
    {
      assert FlightOk(View(), i);
      StepKeepsInv(View(), SessionReplied(i, reply, aborted));
      var op := operations[flights[i].op];
      if reply.SessionFailure? {
        SetStage(i, TransportDone(Threw(Unexpected)));
        return;
      }
      if reply.NoSession? || Lower(reply.identityId) != op.attempt.identityId
         || Lower(reply.sessionId) != op.attempt.sessionId
      {
        SetStage(i, TransportDone(Threw(AttemptInvalid)));
        return;
      }
      if aborted || !MatchesScope(op.attempt, scope.View().CurrentScope()) {
        SetStage(i, TransportDone(Threw(AttemptInvalid)));
        return;
      }
      var resent := flights[i].stage == AwaitRefresh;
      wire := wire + [Post(op.attempt, i, Lower(reply.identityId), Lower(reply.sessionId),
                           scope.View(), op.settled, None)];
      flights := flights[i := flights[i].(stage := AwaitResponse(|wire| - 1, resent), mayHaveDispatched := true)];
    }

    /** The response headers (or a transport failure) arrived: refresh once on a 401, else read the body. */
    method ResponseArrives(i: nat, answer: Answer)
      requires Valid() && i < |flights| && flights[i].stage.AwaitResponse?
      modifies this`flights, this`wire
      ensures Valid() && View() == Apply(old(View()), ResponseReceived(i, answer))
    {
      assert FlightOk(View(), i);
      StepKeepsInv(View(), ResponseReceived(i, answer));
      var n, resent := flights[i].stage.post, flights[i].stage.resent;
      wire := wire[n := wire[n].(answer := Some(answer))];
      if answer.NoAnswer? {
        SetStage(i, TransportDone(Threw(PublicError(
                      if answer.cancelled then RequestCancelled else TemporarilyUnavailable, None))));
      } else if answer.status == 401 && !resent {
        SetStage(i, AwaitRefresh);
      } else {
        SetStage(i, AwaitBody(answer.status));
      }
    }

    method BodyArrives(i: nat, body: BodyReply)
      requires Valid() && i < |flights| && flights[i].stage.AwaitBody?
      modifies this`flights
      ensures Valid() && View() == Apply(old(View()), BodyReceived(i, body))
    {
      assert FlightOk(View(), i);
      StepKeepsInv(View(), BodyReceived(i, body));
      SetStage(i, TransportDone(InterpretBody(flights[i].stage.status, body)));
    }

    method ServiceResumes(i: nat)
      requires Valid() && i < |flights| && flights[i].stage.TransportDone?
      modifies this`flights
      ensures Valid() && View() == Apply(old(View()), ServiceResumed(i))
    {
      assert FlightOk(View(), i);
      StepKeepsInv(View(), ServiceResumed(i));
      SetStage(i, ServiceDone(ClassifyTransport(View(), operations[flights[i].op].attempt, flights[i].stage.transport)));
    }

    method ReadArrives(i: nat, reply: ReadReply)
      requires Valid() && i < |flights| && flights[i].stage == AwaitRead
      modifies this`flights
      ensures Valid() && View() == Apply(old(View()), ReadReceived(i, reply))
    {
      assert FlightOk(View(), i);
      StepKeepsInv(View(), ReadReceived(i, reply));
      SetStage(i, ServiceDone(ClassifyRead(View(), operations[flights[i].op].attempt, reply)));
    }

    method FinishSubmit(o: nat, mayHaveDispatched: bool, r: ServiceResult)
      requires o < |operations| && ResultFits(Submitting, r)
      modifies this`operations, this`consumedVersions, scope`freshEvidence
      ensures View() == SettleSubmit(old(View()), o, mayHaveDispatched, r)
    {
      var attempt := operations[o].attempt;
      match r
      case Submitted =>
        if !scope.View().OperationIsCurrent(attempt) {
          if mayHaveDispatched {
            RecordConsumedVersion(o);
          }
          SettleOperation(o, Invalid(ScopeChanged));
        } else {
          RecordConsumedVersion(o);
          scope.ClearFreshForAttempt(attempt);
          SettleOperation(o, Applied);
        }
      case SubmitThrew(OutcomeUnknownError) =>
        RecordConsumedVersion(o);
        scope.ClearFreshForAttempt(attempt);
        SettleOperation(o, OutcomeUnknown);
      case SubmitThrew(RejectedError(rejection)) =>
        scope.ClearFreshForAttempt(attempt);
        SettleOperation(o, Rejected(rejection));
      case SubmitThrew(AttemptInvalid) =>
        if mayHaveDispatched {
          RecordConsumedVersion(o);
        }
        scope.ClearFreshForAttempt(attempt);
        SettleOperation(o, Invalid(ScopeChanged));
      case SubmitThrew(PublicError(kind, status)) =>
        scope.ClearFreshForAttempt(attempt);
        SettleOperation(o, if AuthorityError(kind, status) then Invalid(AuthorityLost) else Rejected(RefreshRequired));
      case SubmitThrew(Unexpected) =>
        RecordConsumedVersion(o);
        SettleOperation(o, OutcomeUnknown);
    }

    method FinishReconcile(o: nat, r: ServiceResult)
      requires o < |operations|
      modifies this`operations, this`consumedVersions, scope`freshEvidence
      ensures View() == SettleReconcile(old(View()), o, r)
    {
      var attempt := operations[o].attempt;
      match r
      case Reconciled(value) =>
        if !scope.View().OperationIsCurrent(attempt) {
          SettleOperation(o, Invalid(ScopeChanged));
          return;
        }
        match value {
          case RetrySameAttempt(pickup) =>
            var published := scope.PublishRetryEvidence(attempt, pickup);
            SettleOperation(o, if published then RetryAttempt else Invalid(ScopeChanged));
          case AlreadyApplied(_) =>
            RecordConsumedVersion(o);
            scope.ClearFreshForAttempt(attempt);
            SettleOperation(o, Applied);
          case Invalidated(reason) =>
            scope.ClearFreshForAttempt(attempt);
            SettleOperation(o, Invalid(reason));
        }
      case ReadThrew(ReadPublicError(kind, status)) =>
        if AuthorityError(kind, status) {
          scope.ClearFreshForAttempt(attempt);
          SettleOperation(o, Invalid(AuthorityLost));
        } else {
          SettleOperation(o, OutcomeUnknown);
        }
      case _ => SettleOperation(o, OutcomeUnknown);
    }

    /** The controller resumes after its service: record, clear and settle. */
    method ControllerResumes(i: nat)
      requires Valid() && i < |flights| && flights[i].stage.ServiceDone?
      modifies this, scope`freshEvidence
      ensures Valid() && View() == Apply(old(View()), ControllerResumed(i))
    {
      assert FlightOk(View(), i);
      StepKeepsInv(View(), ControllerResumed(i));
      assert Apply(View(), ControllerResumed(i)) == ControllerContinues(View(), i);
      SettleFlight(i);
    }

    /** Settles the flight's operation and moves on to the clearing callback. */
    method SettleFlight(i: nat)
      requires i < |flights| && flights[i].op < |operations| && flights[i].stage.ServiceDone?
      requires ResultFits(flights[i].phase, flights[i].stage.result)
      modifies this, scope`freshEvidence
      ensures View() == ControllerContinues(old(View()), i)
    {
      var f := flights[i];
      if f.phase == Submitting {
        FinishSubmit(f.op, f.mayHaveDispatched, f.stage.result);
      } else {
        FinishReconcile(f.op, f.stage.result);
      }
      SetStage(i, Finishing);
    }

    /** The flight's promise settled: release the operation if it still waits for this very flight. */
    method Clear(i: nat)
      requires Valid() && i < |flights| && flights[i].stage == Finishing
      modifies this`flights, this`operations
      ensures Valid() && View() == Apply(old(View()), FlightCleared(i))
    {
      assert FlightOk(View(), i);
      StepKeepsInv(View(), FlightCleared(i));
      var o := flights[i].op;
      if operation == Some(o) && operations[o].inFlight == Some(i) {
        operations := operations[o := operations[o].(phase := None, inFlight := None)];
      }
      SetStage(i, Done);
    }
  }
}

/** The mark-arrived controller as the object that updates its operation, latch and recovery count in place. */
module CourierControllerObject {
  import opened Options
  import opened CourierCommand
  import opened CourierController
  import opened CourierTheorems

  class MarkArrivedController {
    const scope: CommandScope
    var operations: seq<Operation>
    var operation: Option<nat>
    var unexpectedSubmitFailure: bool
    var explicitRecoveryGeneration: nat
    var flights: seq<Flight>

    function View(): State
      reads this, scope
    {
      State(scope.View(), operations, operation, unexpectedSubmitFailure, explicitRecoveryGeneration, flights)
    }

    ghost predicate Valid()
      reads this, scope
    {
      Inv(View())
    }

    constructor (scope: CommandScope)
      requires scope.View() == Initial(scope.identity, scope.context).scope
      ensures this.scope == scope && Valid() && View() == Initial(scope.identity, scope.context)
    {
      this.scope := scope;
      operations, operation, unexpectedSubmitFailure := [], None, false;
      explicitRecoveryGeneration, flights := 0, [];
    }

    /** A condition already applied or still unresolved keeps its attempt; otherwise the current pickup gets a new one. */
    method CreateAttempt(key: string) returns (handle: Option<nat>)
      requires operation.Some? ==> operation.value < |operations|
      modifies this`operations, this`operation, scope`attempts
      ensures (View(), handle) == CreateAttemptStep(old(View()), key)
    {
      if operation.Some? {
        var o := operation.value;
        if operations[o].settled == Some(Applied) && MatchesScope(operations[o].attempt, scope.View().CurrentScope()) {
          return Some(operations[o].handle);
        }
        if Unresolved(operations[o]) {
          if scope.View().ResolvesForOperation(operations[o].handle) {
            return Some(operations[o].handle);
          }
          if operations[o].inFlight.Some? {
            return None;
          }
          operations := operations[o := operations[o].(settled := Some(Invalid(InvalidHandle)))];
        }
      }
      handle := scope.CreateForCurrentPickup(key);
      if handle.None? {
        return;
      }
      if !scope.View().ResolvesForSubmit(handle.value) {
        return None;
      }
      operations := operations + [Operation(handle.value, scope.attempts[handle.value], None, None, None)];
      operation := Some(|operations| - 1);
    }

    method Submit(handle: nat)
      requires operation.Some? ==> operation.value < |operations|
      modifies this`operations, this`flights
      ensures View() == SubmitStep(old(View()), handle)
    {
      if operation.None? || operations[operation.value].handle != handle {
        return;
      }
      var o := operation.value;
      if operations[o].inFlight.Some? {
        return;
      }
      if !scope.View().ResolvesForOperation(handle) {
        operations := operations[o := operations[o].(settled := Some(Invalid(InvalidHandle)))];
        return;
      }
      if operations[o].settled.Some? && operations[o].settled != Some(RetryAttempt) {
        return;
      }
      if !scope.View().ResolvesForSubmit(handle) {
        operations := operations[o := operations[o].(settled := Some(Invalid(ScopeChanged)))];
        return;
      }
      operations := operations[o := operations[o].(submitRecoveryGeneration := Some(explicitRecoveryGeneration))];
      operations := operations[o := operations[o].(inFlight := Some(|flights|))];
      flights := flights + [Flight(o, SubmitFlight, Running)];
    }

    method MarkArrived(key: string)
      requires Valid()
      modifies this`operations, this`operation, this`flights, scope`attempts
      ensures Valid() && View() == Apply(old(View()), MarkArrivedPressed(key))
    {
      StepKeepsInv(View(), MarkArrivedPressed(key));
      if unexpectedSubmitFailure {
        return;
      }
      CreateKeepsInv(View(), key);
      var handle := CreateAttempt(key);
      if handle.Some? {
        Submit(handle.value);
      }
    }

    method ReconcileCurrentOperation()
      requires Valid()
      modifies this`operations, this`flights
      ensures Valid() && View() == Apply(old(View()), ReconcilePressed)
    {
      StepKeepsInv(View(), ReconcilePressed);
      if operation.None? {
        return;
      }
      var o := operation.value;
      if operations[o].inFlight.Some? || operations[o].settled != Some(OutcomeUnknown) {
        return;
      }
      if !scope.View().ResolvesForOperation(operations[o].handle) {
        operations := operations[o := operations[o].(settled := Some(Invalid(InvalidHandle)))];
        return;
      }
      operations := operations[o := operations[o].(inFlight := Some(|flights|))];
      flights := flights + [Flight(o, ReconcileFlight, Running)];
    }

    /** Releases the latch if a recovery newer than the operation's last submit is there to consume. */
    method ConsumeExplicitRecovery(o: nat)
      requires o < |operations|
      modifies this`operations, this`unexpectedSubmitFailure
      ensures View() == ConsumeRecovery(old(View()), o)
    {
      if operation != Some(o) || operations[o].settled == Some(OutcomeUnknown)
         || operations[o].submitRecoveryGeneration.None?
         || explicitRecoveryGeneration <= operations[o].submitRecoveryGeneration.value
      {
        return;
      }
      if !scope.View().ResolvesForSubmit(operations[o].handle) {
        operations := operations[o := operations[o].(settled := Some(Invalid(ScopeChanged)))];
      }
      unexpectedSubmitFailure := false;
    }

    method RecordExplicitRecovery()
      requires Valid()
      modifies this`operations, this`unexpectedSubmitFailure, this`explicitRecoveryGeneration
      ensures Valid() && View() == Apply(old(View()), RecoveryRecorded)
    {
      StepKeepsInv(View(), RecoveryRecorded);
      explicitRecoveryGeneration := explicitRecoveryGeneration + 1;
      if !unexpectedSubmitFailure || operation.None? || operations[operation.value].inFlight.Some?
         || operations[operation.value].settled == Some(OutcomeUnknown)
      {
        return;
      }
      ConsumeExplicitRecovery(operation.value);
    }

    /** The submit's service promise settled. */
    method SubmitReturned(i: nat, reply: SubmitReply)
      requires Valid() && i < |flights| && flights[i].stage == Running && flights[i].kind == SubmitFlight
      modifies this, scope`freshEvidence
      ensures Valid() && View() == Apply(old(View()), SubmitReplied(i, reply))
    {
      assert FlightOk(View(), i);
      StepKeepsInv(View(), SubmitReplied(i, reply));
      var o := flights[i].op;
      if reply.SubmitUnexpected? {
        unexpectedSubmitFailure := true;
        ConsumeExplicitRecovery(o);
      } else {
        scope.ClearFreshForAttempt(operations[o].attempt);
        var outcome :=
          match reply
          case SubmitSucceeded => Applied
          case SubmitUnknown => OutcomeUnknown
          case SubmitRejected(rejection) => Rejected(rejection)
          case SubmitContract => Rejected(Malformed)
          case SubmitInvalid => Invalid(ScopeChanged)
          case SubmitPublic(error) => PublicOutcome(error);
        operations := operations[o := operations[o].(settled := Some(outcome))];
      }
      flights := flights[i := flights[i].(stage := Finishing)];
    }

    /** The flight's promise settled: release it, then let a latched failure consume a recovery. */
    method ClearPending(i: nat)
      requires Valid() && i < |flights| && flights[i].stage == Finishing
      modifies this
      ensures Valid() && View() == Apply(old(View()), FlightCleared(i))
    {
      assert FlightOk(View(), i);
      StepKeepsInv(View(), FlightCleared(i));
      var o := flights[i].op;
      flights := flights[i := flights[i].(stage := Done)];
      if operations[o].inFlight == Some(i) {
        operations := operations[o := operations[o].(inFlight := None)];
      }
      if unexpectedSubmitFailure {
        ConsumeExplicitRecovery(o);
      }
    }

    /** The reconciliation's service promise settled. */
    method ReconcileReturned(i: nat, reply: ReconcileReply)
      requires Valid() && i < |flights| && flights[i].stage == Running && flights[i].kind == ReconcileFlight
      modifies this, scope`freshEvidence
      ensures Valid() && View() == Apply(old(View()), ReconcileReplied(i, reply))
    {
      assert FlightOk(View(), i);
      StepKeepsInv(View(), ReconcileReplied(i, reply));
      var o := flights[i].op;
      var attempt, settled := operations[o].attempt, operations[o].settled;
      match reply {
        case Answer(RetrySameAttempt(pickup)) =>
          var published := scope.PublishRetryEvidence(attempt, pickup);
          settled := Some(if published then RetryAttempt else Invalid(ScopeChanged));
        case Answer(AlreadyApplied(_)) =>
          scope.ClearFreshForAttempt(attempt);
          settled := Some(Applied);
        case Answer(Invalidated(reason)) =>
          settled := Some(Invalid(reason));
        case ReadContract =>
          scope.ClearFreshForAttempt(attempt);
          settled := Some(Rejected(Malformed));
        case ReadInvalid =>
          scope.ClearFreshForAttempt(attempt);
          settled := Some(Invalid(ScopeChanged));
        case ReadPublic(error) =>
          if !error.ambiguous {
            scope.ClearFreshForAttempt(attempt);
            settled := Some(PublicOutcome(error));
          }
        case ReadUnexpected =>
      }
      if settled != operations[o].settled {
        operations := operations[o := operations[o].(settled := settled)];
      }
      flights := flights[i := flights[i].(stage := Finishing)];
      assert View() == Apply(old(View()), ReconcileReplied(i, reply));
    }
  }
}

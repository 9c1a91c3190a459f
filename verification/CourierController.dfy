/**
 The courier "mark arrived" controller as a state machine over the code segments between
 awaits.  What the command service answers is left open: any answer may come back at any time.
 */
module CourierController {
  import opened Options
  import opened CourierCommand

  datatype Rejection =
    | VersionConflict | TransitionNotAllowed | IdempotencyConflict | ReplayUnavailable
    | Malformed | RefreshRequired | ReconciliationNotAvailable

  datatype Outcome =
    | Applied
    | OutcomeUnknown
    | RetryAttempt
    | Rejected(rejection: Rejection)
    | Invalid(reason: InvalidReason)

  /** Public errors, reduced to what the controller asks of them. */
  datatype PublicError = PublicError(authorityLost: bool, ambiguous: bool, malformed: bool)

  datatype SubmitReply =
    | SubmitSucceeded
    | SubmitUnknown
    | SubmitRejected(rejection: Rejection)
    | SubmitContract
    | SubmitInvalid
    | SubmitPublic(error: PublicError)
    | SubmitUnexpected

  datatype ReconcileReply =
    | Answer(value: Reconciliation)
    | ReadContract
    | ReadInvalid
    | ReadPublic(error: PublicError)
    | ReadUnexpected

  datatype Kind = SubmitFlight | ReconcileFlight

  /** A flight runs, then its promise settles, then the clearing callback runs. */
  datatype Stage = Running | Finishing | Done

  datatype Flight = Flight(op: nat, kind: Kind, stage: Stage)

  datatype Operation = Operation(
    handle: nat, attempt: Attempt, inFlight: Option<nat>, settled: Option<Outcome>,
    submitRecoveryGeneration: Option<nat>)

  datatype State = State(
    scope: Scope, ops: seq<Operation>, current: Option<nat>,
    unexpectedSubmitFailure: bool, explicitRecoveryGeneration: nat, flights: seq<Flight>)

  predicate HasOperation(s: State) {
    s.current.Some? && s.current.value < |s.ops|
  }

  predicate Exists(s: State, i: nat) {
    i < |s.flights| && s.flights[i].op < |s.ops|
  }

  predicate Unresolved(op: Operation) {
    op.settled == None || op.settled == Some(OutcomeUnknown) || op.settled == Some(RetryAttempt)
  }

  function WithOp(s: State, o: nat, op: Operation): State
    requires o < |s.ops|
  {
    s.(ops := s.ops[o := op])
  }

  function Settle(s: State, o: nat, outcome: Outcome): State
    requires o < |s.ops|
  {
    WithOp(s, o, s.ops[o].(settled := Some(outcome)))
  }

  /** Creates an attempt for the current pickup, or keeps the operation that still stands for it. */
  function CreateAttemptStep(s: State, key: string): (State, Option<nat>)
  {
    var existing := if HasOperation(s) then Some(s.ops[s.current.value]) else None;
    if existing.Some? && existing.value.settled == Some(Applied)
       && MatchesScope(existing.value.attempt, s.scope.CurrentScope())
    then (s, Some(existing.value.handle))
    else if existing.Some? && Unresolved(existing.value) && s.scope.ResolvesForOperation(existing.value.handle)
    then (s, Some(existing.value.handle))
    else if existing.Some? && Unresolved(existing.value) && existing.value.inFlight.Some?
    then (s, None)
    else
      var released := if existing.Some? && Unresolved(existing.value)
                      then Settle(s, s.current.value, Invalid(InvalidHandle)) else s;
      NewAttempt(released, key)
  }

  function NewAttempt(s: State, key: string): (State, Option<nat>) {
    var live := s.scope.CurrentScope();
    if live.None? || CreateAttempt(live.value, key).None? then (s, None)
    else
      var attempt := CreateAttempt(live.value, key).value;
      var handle := |s.scope.attempts|;
      var created := s.(scope := s.scope.(attempts := s.scope.attempts + [attempt]));
      if !created.scope.ResolvesForSubmit(handle) then (created, None)
      else (created.(ops := s.ops + [Operation(handle, attempt, None, None, None)], current := Some(|s.ops|)),
            Some(handle))
  }

  function StartFlight(s: State, o: nat, kind: Kind): State
    requires o < |s.ops|
  {
    WithOp(s, o, s.ops[o].(inFlight := Some(|s.flights|)))
    .(flights := s.flights + [Flight(o, kind, Running)])
  }

  function SubmitStep(s: State, handle: nat): State
  {
    if !HasOperation(s) || s.ops[s.current.value].handle != handle then s
    else
      var o := s.current.value;
      var op := s.ops[o];
      if op.inFlight.Some? then s
      else if !s.scope.ResolvesForOperation(handle) then Settle(s, o, Invalid(InvalidHandle))
      else if op.settled.Some? && op.settled != Some(RetryAttempt) then s
      else if !s.scope.ResolvesForSubmit(handle) then Settle(s, o, Invalid(ScopeChanged))
      else StartFlight(
          WithOp(s, o, op.(submitRecoveryGeneration := Some(s.explicitRecoveryGeneration))), o, SubmitFlight)
  }

  function MarkArrivedStep(s: State, key: string): State
  {
    if s.unexpectedSubmitFailure then s
    else
      var (created, handle) := CreateAttemptStep(s, key);
      if handle.None? then created else SubmitStep(created, handle.value)
  }

  function ReconcileStep(s: State, handle: nat): State
  {
    if !HasOperation(s) || s.ops[s.current.value].handle != handle then s
    else
      var o := s.current.value;
      if s.ops[o].inFlight.Some? then s
      else if !s.scope.ResolvesForOperation(handle) then Settle(s, o, Invalid(InvalidHandle))
      else if s.ops[o].settled != Some(OutcomeUnknown) then s
      else StartFlight(s, o, ReconcileFlight)
  }

  function ReconcileCurrentStep(s: State): State
  {
    if !HasOperation(s) then s
    else
      var op := s.ops[s.current.value];
      if (op.settled.None? && op.inFlight.Some?) || (op.inFlight.None? && op.settled != Some(OutcomeUnknown)) then s
      else ReconcileStep(s, op.handle)
  }

  /** Whether a recovery newer than the operation's last submit is there for it to consume. */
  predicate RecoveryConsumable(s: State, o: nat)
    requires o < |s.ops|
  {
    && s.current == Some(o) && s.ops[o].settled != Some(OutcomeUnknown)
    && s.ops[o].submitRecoveryGeneration.Some?
    && s.explicitRecoveryGeneration > s.ops[o].submitRecoveryGeneration.value
  }

  function ConsumeRecovery(s: State, o: nat): State
    requires o < |s.ops|
  {
    if !RecoveryConsumable(s, o) then s
    else
      (if s.scope.ResolvesForSubmit(s.ops[o].handle) then s else Settle(s, o, Invalid(ScopeChanged)))
      .(unexpectedSubmitFailure := false)
  }

  function RecordRecoveryStep(s: State): State
  {
    var recorded := s.(explicitRecoveryGeneration := s.explicitRecoveryGeneration + 1);
    if !s.unexpectedSubmitFailure || !HasOperation(s) || s.ops[s.current.value].inFlight.Some?
       || s.ops[s.current.value].settled == Some(OutcomeUnknown)
    then recorded
    else ConsumeRecovery(recorded, s.current.value)
  }

  function ClearFor(s: State, o: nat): State
    requires o < |s.ops|
  {
    s.(scope := s.scope.ClearForAttempt(s.ops[o].attempt))
  }

  function PublicOutcome(error: PublicError): Outcome {
    if error.authorityLost then Invalid(AuthorityLost)
    else Rejected(if error.malformed then Malformed else RefreshRequired)
  }

  function SettleSubmit(s: State, o: nat, reply: SubmitReply): State
    requires o < |s.ops|
  {
    match reply
    case SubmitSucceeded => Settle(ClearFor(s, o), o, Applied)
    case SubmitUnknown => Settle(ClearFor(s, o), o, OutcomeUnknown)
    case SubmitRejected(rejection) => Settle(ClearFor(s, o), o, Rejected(rejection))
    case SubmitContract => Settle(ClearFor(s, o), o, Rejected(Malformed))
    case SubmitInvalid => Settle(ClearFor(s, o), o, Invalid(ScopeChanged))
    case SubmitPublic(error) => Settle(ClearFor(s, o), o, PublicOutcome(error))
    case SubmitUnexpected => ConsumeRecovery(s.(unexpectedSubmitFailure := true), o)
  }

  function SettleReconcile(s: State, o: nat, reply: ReconcileReply): State
    requires o < |s.ops|
  {
    match reply
    case Answer(RetrySameAttempt(pickup)) =>
      var (scope, published) := s.scope.PublishRetry(s.ops[o].attempt, pickup);
      Settle(s.(scope := scope), o, if published then RetryAttempt else Invalid(ScopeChanged))
    case Answer(AlreadyApplied(_)) => Settle(ClearFor(s, o), o, Applied)
    case Answer(Invalidated(reason)) => Settle(s, o, Invalid(reason))
    case ReadContract => Settle(ClearFor(s, o), o, Rejected(Malformed))
    case ReadInvalid => Settle(ClearFor(s, o), o, Invalid(ScopeChanged))
    case ReadPublic(error) => if error.ambiguous then s else Settle(ClearFor(s, o), o, PublicOutcome(error))
    case ReadUnexpected => s
  }

  function WithStage(s: State, i: nat, stage: Stage): State
    requires i < |s.flights|
  {
    s.(flights := s.flights[i := s.flights[i].(stage := stage)])
  }

  function SubmitReturns(s: State, i: nat, reply: SubmitReply): State
    requires Exists(s, i)
  {
    if s.flights[i].stage != Running || s.flights[i].kind != SubmitFlight then s
    else WithStage(SettleSubmit(s, s.flights[i].op, reply), i, Finishing)
  }

  function ReconcileReturns(s: State, i: nat, reply: ReconcileReply): State
    requires Exists(s, i)
  {
    if s.flights[i].stage != Running || s.flights[i].kind != ReconcileFlight then s
    else WithStage(SettleReconcile(s, s.flights[i].op, reply), i, Finishing)
  }

  /** The clearing callback: release the flight, then let a latched failure consume a recovery. */
  function ClearFlight(s: State, i: nat): State
    requires Exists(s, i)
  {
    if s.flights[i].stage != Finishing then s
    else
      var o := s.flights[i].op;
      var done := WithStage(s, i, Done);
      var released := if s.ops[o].inFlight == Some(i) then WithOp(done, o, s.ops[o].(inFlight := None)) else done;
      if s.unexpectedSubmitFailure then ConsumeRecovery(released, o) else released
  }

  // ----- runs

  datatype Event =
    | IdentityChanges(identity: Option<Identity>)
    | ContextChanges(context: Option<Context>)
    | EvidencePublished(pickupId: string, version: int, offersMarkArrived: bool)
    | EvidenceCleared(pickupId: string)
    | LifetimeRetained
    | LifetimeReleased
    | ScopeRetired
    | MarkArrivedPressed(key: string)
    | ReconcilePressed
    | RecoveryRecorded
    | SubmitReplied(flight: nat, submit: SubmitReply)
    | ReconcileReplied(flight: nat, read: ReconcileReply)
    | FlightCleared(flight: nat)
      // the handle-based entry points, which the presentation boundary does not expose
    | AttemptCreated(key: string)
    | HandleSubmitted(handle: nat)
    | HandleReconciled(handle: nat)

  /** The events of the presentation boundary: no handle ever crosses it. */
  predicate Bounded(e: Event) {
    !e.AttemptCreated? && !e.HandleSubmitted? && !e.HandleReconciled?
  }

  function Apply(s: State, e: Event): State
  {
    match e
    case IdentityChanges(identity) => s.(scope := s.scope.(identity := identity))
    case ContextChanges(context) => s.(scope := s.scope.(context := context))
    case EvidencePublished(id, version, offers) => s.(scope := s.scope.Publish(id, version, offers))
    case EvidenceCleared(id) => s.(scope := s.scope.ClearFor(id))
    case LifetimeRetained => s.(scope := s.scope.Retain())
    case LifetimeReleased => s.(scope := s.scope.Release())
    case ScopeRetired => s.(scope := s.scope.Retire())
    case MarkArrivedPressed(key) => MarkArrivedStep(s, key)
    case ReconcilePressed => ReconcileCurrentStep(s)
    case RecoveryRecorded => RecordRecoveryStep(s)
    case SubmitReplied(i, reply) => if Exists(s, i) then SubmitReturns(s, i, reply) else s
    case ReconcileReplied(i, reply) => if Exists(s, i) then ReconcileReturns(s, i, reply) else s
    case FlightCleared(i) => if Exists(s, i) then ClearFlight(s, i) else s
    case AttemptCreated(key) => CreateAttemptStep(s, key).0
    case HandleSubmitted(handle) => SubmitStep(s, handle)
    case HandleReconciled(handle) => ReconcileStep(s, handle)
  }

  function Execute(s: State, trace: seq<Event>): State
    decreases |trace|
  {
    if trace == [] then s else Execute(Apply(s, trace[0]), trace[1..])
  }

  function Initial(identity: Option<Identity>, context: Option<Context>): State {
    State(Scope(identity, context, None, true, false, []), [], None, false, 0, [])
  }
}

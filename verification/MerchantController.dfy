/**
 The merchant "acknowledge arrival" command custody as a state machine.  A step is one
 code segment between two awaits of the controller, its service or its transport, or one
 change made by the environment (identity, context, published evidence, lifetime).
 Every start of a flight appends a new asynchronous execution, so nothing in the state
 itself limits how many run at once.
 */
module MerchantController {
  import opened Options
  import opened Identifiers
  import opened MerchantCommand
  import opened MerchantScope

  datatype Rejection =
    | VersionConflict | TransitionNotAllowed | IdempotencyConflict | ReplayUnavailable
    | RejectedUnavailable | RefreshRequired | ReconciliationNotAvailable

  datatype Outcome =
    | Applied
    | OutcomeUnknown
    | RetryAttempt
    | Rejected(rejection: Rejection)
    | Invalid(reason: InvalidReason)

  datatype Phase = Submitting | Reconciling

  datatype PublicErrorKind =
    | AuthenticationRequired | AccessDenied | SessionExpired | FeatureUnavailable
    | NotFound | TemporarilyUnavailable | MalformedResponse | RequestCancelled

  /** Errors a submit can end with; a public error without a status is a transport failure. */
  datatype SubmitError =
    | AttemptInvalid
    | OutcomeUnknownError
    | RejectedError(rejection: Rejection)
    | PublicError(kind: PublicErrorKind, status: Option<int>)
    | Unexpected

  datatype TransportResult = Value(body: Option<ResultBody>) | Threw(error: SubmitError)

  datatype ReadFailure = ReadPublicError(kind: PublicErrorKind, status: Option<int>) | ReadContract | ReadUnexpected

  datatype ServiceResult =
    | Submitted
    | SubmitThrew(error: SubmitError)
    | Reconciled(value: Reconciliation)
    | ReadThrew(failure: ReadFailure)

  /** Where an asynchronous execution is suspended. */
  datatype Stage =
    | AwaitService
    | AwaitSession
    | AwaitResponse(post: nat, resent: bool)
    | AwaitRefresh
    | AwaitBody(status: int)
    | TransportDone(transport: TransportResult)
    | AwaitRead
    | ServiceDone(result: ServiceResult)
    | Finishing
    | Done

  datatype Flight = Flight(op: nat, phase: Phase, stage: Stage, mayHaveDispatched: bool)

  datatype Operation = Operation(
    generation: nat, handle: nat, attempt: Attempt,
    phase: Option<Phase>, inFlight: Option<nat>, settled: Option<Outcome>)

  datatype Answer = HttpStatus(status: int) | NoAnswer(cancelled: bool)

  /** One POST as the network saw it: who sent it, what was live at that instant, what came back. */
  datatype Post = Post(
    attempt: Attempt, flight: nat, bearerIdentity: string, bearerSession: string,
    live: Scope, settled: Option<Outcome>, answer: Option<Answer>)

  /** The key of the consumed-version map: identity, merchant, order and pickup. */
  datatype CustodyKey = CustodyKey(identityId: string, merchantId: string, orderId: string, pickupId: string)

  datatype State = State(
    scope: Scope, ops: seq<Operation>, current: Option<nat>, consumed: map<CustodyKey, int>,
    nextGeneration: nat, flights: seq<Flight>, wire: seq<Post>)

  function KeyOf(attempt: Attempt): CustodyKey {
    CustodyKey(attempt.identityId, attempt.merchantId, attempt.orderId, attempt.pickupId)
  }

  function KeyOfScope(scope: ScopeValue): CustodyKey {
    CustodyKey(Lower(scope.identityId), Lower(scope.merchantId), Lower(scope.orderId), Lower(scope.pickupId))
  }

  function ConsumedVersion(consumed: map<CustodyKey, int>, key: CustodyKey): int {
    if key in consumed then consumed[key] else 0
  }

  predicate Suppressed(s: State, scope: ScopeValue) {
    scope.pickupVersion <= ConsumedVersion(s.consumed, KeyOfScope(scope))
  }

  predicate OkStatus(status: int) {
    200 <= status <= 299
  }

  /** A definite refusal: an HTTP answer that is neither a success nor a server failure. */
  predicate Refused(post: Post) {
    post.answer.Some? && post.answer.value.HttpStatus?
    && !OkStatus(post.answer.value.status) && post.answer.value.status < 500
  }

  predicate AuthorityError(kind: PublicErrorKind, status: Option<int>) {
    || status == Some(401) || status == Some(403) || status == Some(404)
    || kind == AuthenticationRequired || kind == SessionExpired || kind == AccessDenied || kind == NotFound
  }

  // ----- reading the controller

  function CurrentOp(s: State): Option<Operation> {
    if s.current.Some? && s.current.value < |s.ops| then Some(s.ops[s.current.value]) else None
  }

  predicate SettledAs(op: Option<Operation>, outcome: Outcome) {
    op.Some? && op.value.settled == Some(outcome)
  }

  predicate InFlight(op: Option<Operation>) {
    op.Some? && op.value.inFlight.Some?
  }

  predicate Actionable(s: State) {
    var op := CurrentOp(s);
    if InFlight(op) || SettledAs(op, OutcomeUnknown) then false
    else if SettledAs(op, RetryAttempt) then s.scope.ResolveForSubmit(op.value.handle).Some?
    else s.scope.CurrentScope().Some? && !Suppressed(s, s.scope.CurrentScope().value)
  }

  predicate ReconciliationAvailable(s: State) {
    var op := CurrentOp(s);
    && op.Some? && op.value.inFlight.None? && op.value.settled == Some(OutcomeUnknown)
    && s.scope.ResolveForOperation(op.value.handle).Some?
  }

  // ----- updating the controller

  function WithOp(s: State, o: nat, op: Operation): State
    requires o < |s.ops|
  {
    s.(ops := s.ops[o := op])
  }

  function WithStage(s: State, i: nat, stage: Stage): State
    requires i < |s.flights|
  {
    s.(flights := s.flights[i := s.flights[i].(stage := stage)])
  }

  /** The settlement of an operation, ignored once another operation took its place. */
  function Settle(s: State, o: nat, outcome: Outcome): State
    requires o < |s.ops|
  {
    if s.current == Some(o) then WithOp(s, o, s.ops[o].(settled := Some(outcome))) else s
  }

  function RecordConsumed(s: State, o: nat): State
    requires o < |s.ops|
  {
    if s.current != Some(o) then s
    else
      var key, version := KeyOf(s.ops[o].attempt), s.ops[o].attempt.expectedVersion;
      var prior := ConsumedVersion(s.consumed, key);
      s.(consumed := s.consumed[key := if prior < version then version else prior])
  }

  function ClearFor(s: State, o: nat): State
    requires o < |s.ops|
  {
    s.(scope := s.scope.ClearForAttempt(s.ops[o].attempt))
  }

  function StartFlight(s: State, o: nat, phase: Phase): State
    requires o < |s.ops|
  {
    var i := |s.flights|;
    WithOp(s, o, s.ops[o].(phase := Some(phase), inFlight := Some(i)))
    .(flights := s.flights + [Flight(o, phase, AwaitService, false)])
  }

  /** The private submit of an existing operation. */
  function Submit(s: State, o: nat): State
    requires o < |s.ops|
  {
    if s.current != Some(o) || s.ops[o].inFlight.Some? then s
    else if s.scope.ResolveForSubmit(s.ops[o].handle).None? then Settle(s, o, Invalid(ScopeChanged))
    else StartFlight(s, o, Submitting)
  }

  /** A new attempt under the next handle, and its operation if the handle resolves for submit. */
  function CreateAndSubmit(s: State, attempt: Attempt): State {
    var handle := |s.scope.attempts|;
    var created := s.(scope := s.scope.(attempts := s.scope.attempts + [attempt]));
    if created.scope.ResolveForSubmit(handle).None? then created
    else
      var o := |s.ops|;
      Submit(
        created.(ops := s.ops + [Operation(s.nextGeneration, handle, attempt, None, None, None)],
                 current := Some(o), nextGeneration := s.nextGeneration + 1),
        o)
  }

  /** The acknowledge action: reuse the pending flight, retry the same attempt, or create a new one. */
  function Acknowledge(s: State, key: string): State {
    var op := CurrentOp(s);
    if InFlight(op) || SettledAs(op, OutcomeUnknown) then s
    else if SettledAs(op, RetryAttempt) then Submit(s, s.current.value)
    else
      var live := s.scope.CurrentScope();
      if live.None? || Suppressed(s, live.value) then s
      else
        var attempt := CreateAttempt(live.value, key);
        if attempt.None? then s else CreateAndSubmit(s, attempt.value)
  }

  function Reconcile(s: State): State {
    var op := CurrentOp(s);
    if op.None? || op.value.settled != Some(OutcomeUnknown) || op.value.inFlight.Some? then s
    else if s.scope.ResolveForOperation(op.value.handle).None? then Settle(s, s.current.value, Invalid(ScopeChanged))
    else StartFlight(s, s.current.value, Reconciling)
  }

  /** What a call hands back: the promise of a flight, an outcome at once, or an exception. */
  datatype CallResult = Pending(flight: nat) | Resolved(outcome: Outcome) | Thrown

  function SubmitResult(s: State, o: nat): CallResult
    requires o < |s.ops|
  {
    if s.current != Some(o) then Resolved(Invalid(ScopeChanged))
    else if s.ops[o].inFlight.Some? then Pending(s.ops[o].inFlight.value)
    else if s.scope.ResolveForSubmit(s.ops[o].handle).None? then Resolved(Invalid(ScopeChanged))
    else Pending(|s.flights|)
  }

  function AcknowledgeResult(s: State, key: string): CallResult {
    var op := CurrentOp(s);
    if InFlight(op) then Pending(op.value.inFlight.value)
    else if SettledAs(op, OutcomeUnknown) then Resolved(OutcomeUnknown)
    else if SettledAs(op, RetryAttempt) then SubmitResult(s, s.current.value)
    else
      var live := s.scope.CurrentScope();
      if live.None? || Suppressed(s, live.value) then
        Resolved(if SettledAs(op, Applied) then Applied else Invalid(ScopeChanged))
      else if CreateAttempt(live.value, key).None? then Thrown
      else Pending(|s.flights|)
  }

  function ReconcileResult(s: State): CallResult {
    var op := CurrentOp(s);
    if InFlight(op) then Pending(op.value.inFlight.value)
    else if !SettledAs(op, OutcomeUnknown) then Resolved(Rejected(ReconciliationNotAvailable))
    else if s.scope.ResolveForOperation(op.value.handle).None? then Resolved(Invalid(ScopeChanged))
    else Pending(|s.flights|)
  }

  // ----- the segments of one flight

  predicate Dispatchable(s: State, attempt: Attempt, aborted: bool) {
    !aborted && MatchesScope(attempt, s.scope.CurrentScope())
  }

  /** The memoized service resolved (or failed), and the service call ran up to its first await. */
  function ServiceReady(s: State, i: nat, available: bool, aborted: bool): State
    requires i < |s.flights| && s.flights[i].op < |s.ops|
  {
    var f := s.flights[i];
    var attempt := s.ops[f.op].attempt;
    if f.stage != AwaitService then s
    else if f.phase == Submitting then
      if !available then
        WithStage(Settle(RecordConsumed(s, f.op), f.op, OutcomeUnknown), i, Finishing)
      else if !MatchesScope(attempt, s.scope.CurrentScope()) then
        WithStage(s, i, ServiceDone(SubmitThrew(AttemptInvalid)))
      else if !Dispatchable(s, attempt, aborted) then
        WithStage(s, i, TransportDone(Threw(AttemptInvalid)))
      else WithStage(s, i, AwaitSession)
    else
      if !available then WithStage(Settle(s, f.op, OutcomeUnknown), i, Finishing)
      else if !s.scope.OperationIsCurrent(attempt) then
        WithStage(s, i, ServiceDone(Reconciled(Invalidated(AuthorityLost))))
      else WithStage(s, i, AwaitRead)
  }

  datatype SessionReply = Session(identityId: string, sessionId: string) | NoSession | SessionFailure

  /** A POST leaves: it is on the wire before the segment ends, and the dispatch observer fires. */
  function Send(s: State, i: nat, bearer: SessionReply, resent: bool): State
    requires i < |s.flights| && s.flights[i].op < |s.ops| && bearer.Session?
  {
    var f := s.flights[i];
    var post := Post(s.ops[f.op].attempt, i, Lower(bearer.identityId), Lower(bearer.sessionId),
                     s.scope, s.ops[f.op].settled, None);
    s.(wire := s.wire + [post],
       flights := s.flights[i := f.(stage := AwaitResponse(|s.wire|, resent), mayHaveDispatched := true)])
  }

  /** The segment after the session was restored, or force-refreshed once after a 401. */
  function SessionArrived(s: State, i: nat, reply: SessionReply, aborted: bool): State
    requires i < |s.flights| && s.flights[i].op < |s.ops|
  {
    var f := s.flights[i];
    var attempt := s.ops[f.op].attempt;
    if f.stage != AwaitSession && f.stage != AwaitRefresh then s
    else if reply.SessionFailure? then WithStage(s, i, TransportDone(Threw(Unexpected)))
    else if reply.NoSession? || Lower(reply.identityId) != attempt.identityId
            || Lower(reply.sessionId) != attempt.sessionId
    then WithStage(s, i, TransportDone(Threw(AttemptInvalid)))
    else if !Dispatchable(s, attempt, aborted) then WithStage(s, i, TransportDone(Threw(AttemptInvalid)))
    else Send(s, i, reply, f.stage == AwaitRefresh)
  }

  function ResponseArrived(s: State, i: nat, answer: Answer): State
    requires i < |s.flights|
  {
    var f := s.flights[i];
    if !f.stage.AwaitResponse? || f.stage.post >= |s.wire| then s
    else
      var answered := s.(wire := s.wire[f.stage.post := s.wire[f.stage.post].(answer := Some(answer))]);
      match answer
      case NoAnswer(cancelled) =>
        var kind := if cancelled then RequestCancelled else TemporarilyUnavailable;
        WithStage(answered, i, TransportDone(Threw(PublicError(kind, None))))
      case HttpStatus(status) =>
        if status == 401 && !f.stage.resent then WithStage(answered, i, AwaitRefresh)
        else WithStage(answered, i, AwaitBody(status))
  }

  /** What reading the answer's body yields, before it is interpreted for the answer's status. */
  datatype BodyReply =
    | Unreadable
    | ErrorCode(kind: PublicErrorKind)
    | RejectionCode(rejection: Rejection)
    | ResultDocument(result: Option<ResultBody>)

  /** The kinds an error envelope can name; the two transport-only kinds are never among them. */
  function EnvelopeKind(body: BodyReply): PublicErrorKind {
    if body.ErrorCode? && body.kind != MalformedResponse && body.kind != RequestCancelled
    then body.kind else TemporarilyUnavailable
  }

  function InterpretBody(status: int, body: BodyReply): TransportResult {
    if OkStatus(status) then
      match body
      case Unreadable => Threw(PublicError(MalformedResponse, Some(status)))
      case ResultDocument(result) => Value(result)
      case _ => Value(None)
    else if status == 409 then
      if body.RejectionCode? && body.rejection != RefreshRequired && body.rejection != ReconciliationNotAvailable
      then Threw(RejectedError(body.rejection))
      else Threw(PublicError(TemporarilyUnavailable, Some(status)))
    else Threw(PublicError(EnvelopeKind(body), Some(status)))
  }

  function BodyArrived(s: State, i: nat, body: BodyReply): State
    requires i < |s.flights|
  {
    if !s.flights[i].stage.AwaitBody? then s
    else WithStage(s, i, TransportDone(InterpretBody(s.flights[i].stage.status, body)))
  }

  /** The service's verdict on what its transport returned. */
  function ClassifyTransport(s: State, attempt: Attempt, r: TransportResult): ServiceResult {
    match r
    case Value(body) =>
      if !MatchesScope(attempt, s.scope.CurrentScope()) then SubmitThrew(AttemptInvalid)
      else if body.Some? && ResultProvesApplied(body.value, attempt) then Submitted
      else SubmitThrew(OutcomeUnknownError)
    case Threw(error) =>
      if error.PublicError? && (error.kind == MalformedResponse || error.kind == RequestCancelled
                                || error.status.None? || error.status.value >= 500)
      then SubmitThrew(OutcomeUnknownError)
      else SubmitThrew(error)
  }

  function ServiceContinues(s: State, i: nat): State
    requires i < |s.flights| && s.flights[i].op < |s.ops|
  {
    var f := s.flights[i];
    if !f.stage.TransportDone? then s
    else WithStage(s, i, ServiceDone(ClassifyTransport(s, s.ops[f.op].attempt, f.stage.transport)))
  }

  datatype ReadReply = ReadPickup(pickup: PickupSnapshot) | ReadFailed(failure: ReadFailure)

  function ClassifyRead(s: State, attempt: Attempt, reply: ReadReply): ServiceResult {
    match reply
    case ReadPickup(pickup) =>
      if !s.scope.OperationIsCurrent(attempt) then Reconciled(Invalidated(AuthorityLost))
      else
        var value := ReconcileRead(pickup, attempt);
        if value.Some? then Reconciled(value.value) else ReadThrew(ReadContract)
    case ReadFailed(failure) =>
      if failure.ReadPublicError?
         && (failure.status == Some(403) || failure.status == Some(404)
             || (failure.status == Some(409) && failure.kind == TemporarilyUnavailable))
      then Reconciled(Invalidated(AuthorityLost))
      else ReadThrew(failure)
  }

  function ReadArrived(s: State, i: nat, reply: ReadReply): State
    requires i < |s.flights| && s.flights[i].op < |s.ops|
  {
    var f := s.flights[i];
    if f.stage != AwaitRead then s
    else WithStage(s, i, ServiceDone(ClassifyRead(s, s.ops[f.op].attempt, reply)))
  }

  /** The controller's settlement of a submit. */
  function SettleSubmit(s: State, o: nat, mayHaveDispatched: bool, r: ServiceResult): State
    requires o < |s.ops|
  {
    match r
    case Submitted =>
      if !s.scope.OperationIsCurrent(s.ops[o].attempt) then
        Settle(if mayHaveDispatched then RecordConsumed(s, o) else s, o, Invalid(ScopeChanged))
      else Settle(ClearFor(RecordConsumed(s, o), o), o, Applied)
    case SubmitThrew(OutcomeUnknownError) =>
      Settle(ClearFor(RecordConsumed(s, o), o), o, OutcomeUnknown)
    case SubmitThrew(RejectedError(rejection)) =>
      Settle(ClearFor(s, o), o, Rejected(rejection))
    case SubmitThrew(AttemptInvalid) =>
      Settle(ClearFor(if mayHaveDispatched then RecordConsumed(s, o) else s, o), o, Invalid(ScopeChanged))
    case SubmitThrew(PublicError(kind, status)) =>
      if AuthorityError(kind, status) then Settle(ClearFor(s, o), o, Invalid(AuthorityLost))
      else if kind == RequestCancelled || kind == MalformedResponse || status.None? || status.value >= 500 then
        Settle(RecordConsumed(ClearFor(s, o), o), o, OutcomeUnknown)
      else Settle(ClearFor(s, o), o, Rejected(RefreshRequired))
    case _ => Settle(RecordConsumed(s, o), o, OutcomeUnknown)
  }

  /** The controller's settlement of a reconciliation. */
  function SettleReconcile(s: State, o: nat, r: ServiceResult): State
    requires o < |s.ops|
  {
    var attempt := s.ops[o].attempt;
    match r
    case Reconciled(value) =>
      if !s.scope.OperationIsCurrent(attempt) then Settle(s, o, Invalid(ScopeChanged))
      else (
        match value
        case RetrySameAttempt(pickup) =>
          var (scope, published) := s.scope.PublishRetry(attempt, pickup);
          Settle(s.(scope := scope), o, if published then RetryAttempt else Invalid(ScopeChanged))
        case AlreadyApplied(_) => Settle(ClearFor(RecordConsumed(s, o), o), o, Applied)
        case Invalidated(reason) => Settle(ClearFor(s, o), o, Invalid(reason)))
    case ReadThrew(ReadPublicError(kind, status)) =>
      if AuthorityError(kind, status) then Settle(ClearFor(s, o), o, Invalid(AuthorityLost))
      else Settle(s, o, OutcomeUnknown)
    case _ => Settle(s, o, OutcomeUnknown)
  }

  function ControllerContinues(s: State, i: nat): State
    requires i < |s.flights| && s.flights[i].op < |s.ops|
  {
    var f := s.flights[i];
    if !f.stage.ServiceDone? then s
    else
      WithStage(
        if f.phase == Submitting then SettleSubmit(s, f.op, f.mayHaveDispatched, f.stage.result)
        else SettleReconcile(s, f.op, f.stage.result),
        i, Finishing)
  }

  /** The callback that releases the flight once its promise settled. */
  function ClearFlight(s: State, i: nat): State
    requires i < |s.flights| && s.flights[i].op < |s.ops|
  {
    var o := s.flights[i].op;
    if s.flights[i].stage != Finishing then s
    else
      var done := WithStage(s, i, Done);
      if s.current == Some(o) && s.ops[o].inFlight == Some(i)
      then WithOp(done, o, s.ops[o].(phase := None, inFlight := None))
      else done
  }

  // ----- runs

  datatype Event =
    | IdentityChanges(identity: Option<Identity>)
    | ContextChanges(context: Option<Context>)
    | EvidencePublished(merchantId: string, orderId: string, pickup: PickupSnapshot)
    | EvidenceCleared
    | LifetimeRetained
    | LifetimeReleased
    | ScopeRetired
    | AcknowledgePressed(key: string)
    | ReconcilePressed
    | ServiceResolved(flight: nat, available: bool, aborted: bool)
    | SessionReplied(flight: nat, session: SessionReply, aborted: bool)
    | ResponseReceived(flight: nat, answer: Answer)
    | BodyReceived(flight: nat, body: BodyReply)
    | ServiceResumed(flight: nat)
    | ReadReceived(flight: nat, read: ReadReply)
    | ControllerResumed(flight: nat)
    | FlightCleared(flight: nat)

  predicate Exists(s: State, i: nat) {
    i < |s.flights| && s.flights[i].op < |s.ops|
  }

  /** One step of the system; an event aimed at a flight that is not waiting for it changes nothing. */
  function Apply(s: State, e: Event): State {
    match e
    case IdentityChanges(identity) => s.(scope := s.scope.(identity := identity))
    case ContextChanges(context) => s.(scope := s.scope.(context := context))
    case EvidencePublished(m, o, p) => s.(scope := s.scope.Publish(m, o, p))
    case EvidenceCleared => s.(scope := s.scope.(evidence := None))
    case LifetimeRetained => s.(scope := s.scope.Retain())
    case LifetimeReleased => s.(scope := s.scope.Release())
    case ScopeRetired => s.(scope := s.scope.Retire())
    case AcknowledgePressed(key) => Acknowledge(s, key)
    case ReconcilePressed => Reconcile(s)
    case ServiceResolved(i, available, aborted) => if Exists(s, i) then ServiceReady(s, i, available, aborted) else s
    case SessionReplied(i, reply, aborted) => if Exists(s, i) then SessionArrived(s, i, reply, aborted) else s
    case ResponseReceived(i, answer) => if Exists(s, i) then ResponseArrived(s, i, answer) else s
    case BodyReceived(i, body) => if Exists(s, i) then BodyArrived(s, i, body) else s
    case ServiceResumed(i) => if Exists(s, i) then ServiceContinues(s, i) else s
    case ReadReceived(i, reply) => if Exists(s, i) then ReadArrived(s, i, reply) else s
    case ControllerResumed(i) => if Exists(s, i) then ControllerContinues(s, i) else s
    case FlightCleared(i) => if Exists(s, i) then ClearFlight(s, i) else s
  }

  function Execute(s: State, trace: seq<Event>): State
    decreases |trace|
  {
    if trace == [] then s else Execute(Apply(s, trace[0]), trace[1..])
  }

  /** A new controller over a new scope. */
  function Initial(identity: Option<Identity>, context: Option<Context>): State {
    State(Scope(identity, context, None, true, false, []), [], None, map[], 1, [], [])
  }
}

/**
 The merchant "acknowledge arrival" command values: the live scope, the immutable
 attempt created from it, their match, and the classification of a reconciliation read.
 */
module MerchantCommand {
  import opened Options
  import opened Identifiers
  import opened PickupEngine

  datatype ScopeValue = ScopeValue(
    identityId: string, sessionId: string, identityGeneration: int, contextGeneration: int,
    merchantId: string, orderId: string, pickupId: string, pickupVersion: int)

  datatype Attempt = Attempt(
    identityId: string, sessionId: string, identityGeneration: int, contextGeneration: int,
    merchantId: string, orderId: string, pickupId: string, expectedVersion: int,
    idempotencyKey: string)

  predicate ScopeIsValid(scope: ScopeValue) {
    && IsUuid(scope.identityId) && IsUuid(scope.sessionId) && IsUuid(scope.merchantId)
    && IsUuid(scope.orderId) && IsUuid(scope.pickupId)
    && SafePositive(scope.pickupVersion)
    && SafeNatural(scope.identityGeneration) && SafeNatural(scope.contextGeneration)
  }

  predicate AttemptIsValid(attempt: Attempt) {
    && IsUuid(attempt.identityId) && IsUuid(attempt.sessionId) && IsUuid(attempt.merchantId)
    && IsUuid(attempt.orderId) && IsUuid(attempt.pickupId) && IsUuid(attempt.idempotencyKey)
    && SafePositive(attempt.expectedVersion)
    && SafeNatural(attempt.identityGeneration) && SafeNatural(attempt.contextGeneration)
  }

  /** Attempt creation; nothing is created when the scope or the generated key is malformed. */
  function CreateAttempt(scope: ScopeValue, key: string): Option<Attempt> {
    if !ScopeIsValid(scope) || !IsUuid(key) then None
    else
      Some(Attempt(
             Lower(scope.identityId), Lower(scope.sessionId), scope.identityGeneration, scope.contextGeneration,
             Lower(scope.merchantId), Lower(scope.orderId), Lower(scope.pickupId), scope.pickupVersion,
             Lower(key)))
  }

  predicate MatchesScope(attempt: Attempt, scope: Option<ScopeValue>) {
    && AttemptIsValid(attempt) && scope.Some? && ScopeIsValid(scope.value)
    && attempt.identityId == Lower(scope.value.identityId)
    && attempt.sessionId == Lower(scope.value.sessionId)
    && attempt.identityGeneration == scope.value.identityGeneration
    && attempt.contextGeneration == scope.value.contextGeneration
    && attempt.merchantId == Lower(scope.value.merchantId)
    && attempt.orderId == Lower(scope.value.orderId)
    && attempt.pickupId == Lower(scope.value.pickupId)
    && attempt.expectedVersion == scope.value.pickupVersion
  }

  /** An attempt exists exactly for a valid scope and key, and then it matches the scope it came from. */
  lemma CreatedAttemptMatches(scope: ScopeValue, key: string)
    ensures CreateAttempt(scope, key).Some? <==> ScopeIsValid(scope) && IsUuid(key)
    ensures CreateAttempt(scope, key).Some? ==> MatchesScope(CreateAttempt(scope, key).value, Some(scope))
  {
    if ScopeIsValid(scope) && IsUuid(key) {
      LowerKeepsUuid(scope.identityId);
      LowerKeepsUuid(scope.sessionId);
      LowerKeepsUuid(scope.merchantId);
      LowerKeepsUuid(scope.orderId);
      LowerKeepsUuid(scope.pickupId);
      LowerKeepsUuid(key);
    }
  }

  /** What a merchant pickup read returns; instants are milliseconds. */
  datatype PickupSnapshot = PickupSnapshot(
    pickupId: string, state: PickupState, version: int,
    arrivedAt: Option<int>, acknowledgedAt: Option<int>, waitingSeconds: Option<int>,
    terminal: bool, updatedAt: int, offersAcknowledge: bool)

  predicate SnapshotIsValid(p: PickupSnapshot) {
    && IsUuid(p.pickupId) && p.pickupId == Lower(p.pickupId)
    && SafePositive(p.version)
    && (p.offersAcknowledge ==> p.state == Arrived)
    && (p.state == Arrived ==> p.arrivedAt.Some?)
    && (p.waitingSeconds.Some? ==> SafeNatural(p.waitingSeconds.value))
  }

  predicate WaitingProvesAcknowledgement(p: PickupSnapshot) {
    && p.state == Waiting && p.arrivedAt.Some? && p.acknowledgedAt.Some?
    && p.waitingSeconds.Some? && !p.terminal
    && p.acknowledgedAt.value >= p.arrivedAt.value
    && p.updatedAt >= p.acknowledgedAt.value
  }

  datatype InvalidReason = ScopeChanged | AuthorityLost | StateChanged

  datatype Reconciliation =
    | AlreadyApplied(pickup: PickupSnapshot)
    | RetrySameAttempt(pickup: PickupSnapshot)
    | Invalidated(reason: InvalidReason)

  /** Classification of a reconciliation read; nothing is returned on a contract error. */
  function ReconcileRead(p: PickupSnapshot, attempt: Attempt): Option<Reconciliation> {
    if !AttemptIsValid(attempt) || !SnapshotIsValid(p) then None
    else if p.pickupId != attempt.pickupId then Some(Invalidated(StateChanged))
    else if p.state == Arrived && p.version == attempt.expectedVersion then
      Some(if p.offersAcknowledge then RetrySameAttempt(p) else Invalidated(AuthorityLost))
    else if p.state == Waiting && p.version >= attempt.expectedVersion + 1 then
      if WaitingProvesAcknowledgement(p) then Some(AlreadyApplied(p)) else None
    else Some(Invalidated(StateChanged))
  }

  /** The decoded body of a successful command answer. */
  datatype ResultBody = ResultBody(
    pickupId: string, state: PickupState, version: int, arrivedAt: int, acknowledgedAt: int,
    waitingSeconds: int, terminal: bool, updatedAt: int)

  /** The strict check a success body passes before the command counts as applied. */
  predicate ResultProvesApplied(body: ResultBody, attempt: Attempt) {
    && AttemptIsValid(attempt)
    && Lower(body.pickupId) == attempt.pickupId
    && body.state == Waiting
    && SafeNatural(body.version) && body.version == attempt.expectedVersion + 1
    && SafeNatural(body.waitingSeconds) && !body.terminal
    && body.acknowledgedAt >= body.arrivedAt && body.updatedAt >= body.acknowledgedAt
  }
}

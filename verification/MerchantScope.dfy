/**
 The trusted publication and command-custody boundary of one merchant pickup context.
 `Scope` is the boundary's state together with what its identity and context readers
 currently answer; `CommandScope` is the object that updates it in place.
 */
module MerchantScope {
  import opened Options
  import opened Identifiers
  import opened PickupEngine
  import opened MerchantCommand

  datatype Identity = Identity(identityId: string, sessionId: string, generation: int)

  datatype Context = Context(
    merchantId: string, orderId: string, pickupId: string, generation: int, continuityCurrent: bool)

  datatype Evidence = Evidence(
    identityId: string, sessionId: string, identityGeneration: int, contextGeneration: int,
    merchantId: string, orderId: string, pickup: PickupSnapshot)

  datatype Scope = Scope(
    identity: Option<Identity>, context: Option<Context>, evidence: Option<Evidence>,
    lifetimeActive: bool, retired: bool, attempts: seq<Attempt>)
  {
    predicate LifetimeCurrent() {
      !retired && lifetimeActive
    }

    /** The live scope an attempt may be created from, or nothing. */
    function CurrentScope(): Option<ScopeValue> {
      if !LifetimeCurrent() || identity.None? || context.None? || evidence.None? then None
      else
        var id, ctx, ev := identity.value, context.value, evidence.value;
        if || !ctx.continuityCurrent
           || Lower(id.identityId) != ev.identityId
           || Lower(id.sessionId) != ev.sessionId
           || id.generation != ev.identityGeneration
           || ctx.generation != ev.contextGeneration
           || Lower(ctx.merchantId) != ev.merchantId
           || Lower(ctx.orderId) != ev.orderId
           || Lower(ctx.pickupId) != ev.pickup.pickupId
           || ev.pickup.state != Arrived
           || !ev.pickup.offersAcknowledge
        then None
        else
          Some(ScopeValue(
                 id.identityId, id.sessionId, id.generation, ctx.generation,
                 ctx.merchantId, ctx.orderId, ctx.pickupId, ev.pickup.version))
    }

    predicate OperationIsCurrent(attempt: Attempt) {
      && LifetimeCurrent() && identity.Some? && context.Some?
      && context.value.continuityCurrent
      && Lower(identity.value.identityId) == attempt.identityId
      && Lower(identity.value.sessionId) == attempt.sessionId
      && identity.value.generation == attempt.identityGeneration
      && context.value.generation == attempt.contextGeneration
      && Lower(context.value.merchantId) == attempt.merchantId
      && Lower(context.value.orderId) == attempt.orderId
      && Lower(context.value.pickupId) == attempt.pickupId
    }

    predicate EvidenceMatchesAttempt(attempt: Attempt) {
      && evidence.Some?
      && evidence.value.identityGeneration == attempt.identityGeneration
      && evidence.value.contextGeneration == attempt.contextGeneration
      && evidence.value.merchantId == attempt.merchantId
      && evidence.value.orderId == attempt.orderId
      && evidence.value.pickup.pickupId == attempt.pickupId
      && evidence.value.pickup.version == attempt.expectedVersion
      && evidence.value.pickup.offersAcknowledge
    }

    function ResolveForOperation(handle: nat): Option<Attempt> {
      if LifetimeCurrent() && handle < |attempts| && OperationIsCurrent(attempts[handle])
      then Some(attempts[handle]) else None
    }

    function ResolveForSubmit(handle: nat): Option<Attempt> {
      var attempt := ResolveForOperation(handle);
      if attempt.Some? && MatchesScope(attempt.value, CurrentScope()) then attempt else None
    }

    function Publish(merchantId: string, orderId: string, pickup: PickupSnapshot): Scope {
      if !LifetimeCurrent() then this
      else if || identity.None? || context.None? || !context.value.continuityCurrent
              || Lower(context.value.merchantId) != Lower(merchantId)
              || Lower(context.value.orderId) != Lower(orderId)
              || Lower(context.value.pickupId) != pickup.pickupId
      then this.(evidence := None)
      else
        this.(evidence := Some(Evidence(
                                 Lower(identity.value.identityId), Lower(identity.value.sessionId),
                                 identity.value.generation, context.value.generation,
                                 Lower(merchantId), Lower(orderId), pickup)))
    }

    function ClearForAttempt(attempt: Attempt): Scope {
      if EvidenceMatchesAttempt(attempt) then this.(evidence := None) else this
    }

    predicate RetryAcceptable(attempt: Attempt, pickup: PickupSnapshot) {
      && OperationIsCurrent(attempt)
      && pickup.pickupId == attempt.pickupId && pickup.state == Arrived
      && pickup.version == attempt.expectedVersion && pickup.offersAcknowledge
      && (evidence.Some? ==> EvidenceMatchesAttempt(attempt))
    }

    /** Re-authorizes the exact original condition after a read proved that nothing happened. */
    function PublishRetry(attempt: Attempt, pickup: PickupSnapshot): (Scope, bool) {
      if !RetryAcceptable(attempt, pickup) then (this, false)
      else
        var next := Publish(attempt.merchantId, attempt.orderId, pickup);
        (next, MatchesScope(attempt, next.CurrentScope()))
    }

    function Retain(): Scope {
      if retired then this else this.(lifetimeActive := true)
    }

    function Release(): Scope {
      this.(lifetimeActive := false, evidence := None)
    }

    function Retire(): Scope {
      this.(retired := true, lifetimeActive := false, evidence := None)
    }
  }

  /** What "the attempt's condition is live" means, spelled out over identity, context and evidence. */
  ghost predicate LiveEquals(attempt: Attempt, scope: Scope) {
    && !scope.retired && scope.lifetimeActive
    && scope.identity.Some? && scope.context.Some? && scope.evidence.Some?
    && scope.context.value.continuityCurrent
    && Lower(scope.identity.value.identityId) == attempt.identityId
    && Lower(scope.identity.value.sessionId) == attempt.sessionId
    && scope.identity.value.generation == attempt.identityGeneration
    && scope.context.value.generation == attempt.contextGeneration
    && Lower(scope.context.value.merchantId) == attempt.merchantId
    && Lower(scope.context.value.orderId) == attempt.orderId
    && Lower(scope.context.value.pickupId) == attempt.pickupId
    && scope.evidence.value.identityId == attempt.identityId
    && scope.evidence.value.sessionId == attempt.sessionId
    && scope.evidence.value.identityGeneration == attempt.identityGeneration
    && scope.evidence.value.contextGeneration == attempt.contextGeneration
    && scope.evidence.value.merchantId == attempt.merchantId
    && scope.evidence.value.orderId == attempt.orderId
    && scope.evidence.value.pickup.pickupId == attempt.pickupId
    && scope.evidence.value.pickup.version == attempt.expectedVersion
    && scope.evidence.value.pickup.state == Arrived
    && scope.evidence.value.pickup.offersAcknowledge
  }

  /** The dispatch guard is exact: it holds precisely for a valid attempt at an instant of full equality. */
  lemma GuardMeansLive(attempt: Attempt, scope: Scope)
    ensures MatchesScope(attempt, scope.CurrentScope()) <==> AttemptIsValid(attempt) && LiveEquals(attempt, scope)
  {
    if AttemptIsValid(attempt) && LiveEquals(attempt, scope) {
      LowerOfUuid(scope.identity.value.identityId);
      LowerOfUuid(scope.identity.value.sessionId);
      LowerOfUuid(scope.context.value.merchantId);
      LowerOfUuid(scope.context.value.orderId);
      LowerOfUuid(scope.context.value.pickupId);
    }
  }

  /** An operation is current exactly when some evidence would make its attempt live again. */
  lemma CurrentMeansRestorable(attempt: Attempt, scope: Scope)
    ensures scope.OperationIsCurrent(attempt) <==> exists evidence :: LiveEquals(attempt, scope.(evidence := evidence))
  {
    if scope.OperationIsCurrent(attempt) {
      var pickup := PickupSnapshot(
        attempt.pickupId, Arrived, attempt.expectedVersion, None, None, None, false, 0, true);
      var evidence := Some(Evidence(attempt.identityId, attempt.sessionId, attempt.identityGeneration,
                                    attempt.contextGeneration, attempt.merchantId, attempt.orderId, pickup));
      assert LiveEquals(attempt, scope.(evidence := evidence));
    }
  }

  /** Retry evidence of a valid attempt is published exactly when it is acceptable, and then the attempt is live again. */
  lemma RetryEvidenceAccepted(scope: Scope, attempt: Attempt, pickup: PickupSnapshot)
    requires AttemptIsValid(attempt)
    ensures scope.PublishRetry(attempt, pickup).1 <==> scope.RetryAcceptable(attempt, pickup)
    ensures scope.PublishRetry(attempt, pickup).1 ==> LiveEquals(attempt, scope.PublishRetry(attempt, pickup).0)
  {
    if scope.RetryAcceptable(attempt, pickup) {
      LowerIdempotent(scope.context.value.merchantId);
      LowerIdempotent(scope.context.value.orderId);
      LowerOfUuid(scope.identity.value.identityId);
      LowerOfUuid(scope.identity.value.sessionId);
      LowerOfUuid(scope.context.value.merchantId);
      LowerOfUuid(scope.context.value.orderId);
      LowerOfUuid(scope.context.value.pickupId);
    }
  }

  /** A created attempt resolves for submission at once, through the handle it was stored under. */
  lemma CreatedResolves(scope: Scope, live: ScopeValue, key: string)
    requires scope.CurrentScope() == Some(live) && CreateAttempt(live, key).Some?
    ensures scope.(attempts := scope.attempts + [CreateAttempt(live, key).value])
            .ResolveForSubmit(|scope.attempts|) == CreateAttempt(live, key)
  {
    CreatedAttemptMatches(live, key);
  }

  /** The publication boundary as the object the providers and the controller mutate. */
  class CommandScope {
    var identity: Option<Identity>
    var context: Option<Context>
    var freshEvidence: Option<Evidence>
    var providerLifetimeActive: bool
    var retired: bool
    var attempts: seq<Attempt>

    function View(): Scope
      reads this
    {
      Scope(identity, context, freshEvidence, providerLifetimeActive, retired, attempts)
    }

    constructor (identity: Option<Identity>, context: Option<Context>)
      ensures View() == Scope(identity, context, None, true, false, [])
    {
      this.identity, this.context, this.freshEvidence := identity, context, None;
      this.providerLifetimeActive, this.retired, this.attempts := true, false, [];
    }

    method RetainProviderLifetime()
      modifies this`providerLifetimeActive
      ensures View() == old(View()).Retain()
    {
      if !retired {
        providerLifetimeActive := true;
      }
    }

    method ReleaseProviderLifetime()
      modifies this`providerLifetimeActive, this`freshEvidence
      ensures View() == old(View()).Release()
    {
      providerLifetimeActive := false;
      freshEvidence := None;
    }

    method Retire()
      modifies this`retired, this`providerLifetimeActive, this`freshEvidence
      ensures View() == old(View()).Retire()
    {
      retired := true;
      providerLifetimeActive := false;
      freshEvidence := None;
    }

    method PublishFresh(merchantId: string, orderId: string, pickup: PickupSnapshot)
      modifies this`freshEvidence
      ensures View() == old(View()).Publish(merchantId, orderId, pickup)
    {
      if retired || !providerLifetimeActive {
        return;
      }
      if identity.None? || context.None? || !context.value.continuityCurrent ||
         Lower(context.value.merchantId) != Lower(merchantId) ||
         Lower(context.value.orderId) != Lower(orderId) ||
         Lower(context.value.pickupId) != pickup.pickupId
      {
        freshEvidence := None;
        return;
      }
      freshEvidence := Some(Evidence(
        Lower(identity.value.identityId), Lower(identity.value.sessionId),
        identity.value.generation, context.value.generation,
        Lower(merchantId), Lower(orderId), pickup));
    }

    method ClearFresh()
      modifies this`freshEvidence
      ensures View() == old(View()).(evidence := None)
    {
      freshEvidence := None;
    }

    method ClearFreshForAttempt(attempt: Attempt)
      modifies this`freshEvidence
      ensures View() == old(View()).ClearForAttempt(attempt)
    {
      if View().EvidenceMatchesAttempt(attempt) {
        freshEvidence := None;
      }
    }

    method PublishRetryEvidence(attempt: Attempt, pickup: PickupSnapshot) returns (published: bool)
      modifies this`freshEvidence
      ensures (View(), published) == old(View()).PublishRetry(attempt, pickup)
    {
      if !View().OperationIsCurrent(attempt) || pickup.pickupId != attempt.pickupId ||
         pickup.state != Arrived || pickup.version != attempt.expectedVersion || !pickup.offersAcknowledge
      {
        return false;
      }
      if freshEvidence.Some? && !View().EvidenceMatchesAttempt(attempt) {
        return false;
      }
      PublishFresh(attempt.merchantId, attempt.orderId, pickup);
      published := MatchesScope(attempt, View().CurrentScope());
    }

    /** A handle names the attempt it was created with; without a live scope or a valid one there is none. */
    method CreateForCurrentPickup(key: string) returns (handle: Option<nat>)
      modifies this`attempts
      ensures handle.Some? ==
              (old(View()).CurrentScope().Some? && CreateAttempt(old(View()).CurrentScope().value, key).Some?)
      ensures handle.None? ==> View() == old(View())
      ensures handle.Some? ==>
                && handle.value == |old(attempts)|
                && View() == old(View()).(attempts := old(attempts)
                                          + [CreateAttempt(old(View()).CurrentScope().value, key).value])
    {
      var live := View().CurrentScope();
      if live.None? {
        return None;
      }
      var attempt := CreateAttempt(live.value, key);
      if attempt.None? {
        return None;
      }
      handle := Some(|attempts|);
      attempts := attempts + [attempt.value];
    }
  }
}

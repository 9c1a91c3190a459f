/**
 The courier "mark arrived" command values, the classification of its reconciliation read,
 and the courier's publication scope.
 */
module CourierCommand {
  import opened Options
  import opened Identifiers
  import opened PickupEngine

  datatype ScopeValue = ScopeValue(
    identityId: string, sessionId: string, identityGeneration: int, contextGeneration: int,
    pickupId: string, pickupVersion: int)

  datatype Attempt = Attempt(
    pickupId: string, expectedVersion: int, idempotencyKey: string,
    identityId: string, sessionId: string, identityGeneration: int, contextGeneration: int)

  function CreateAttempt(scope: ScopeValue, key: string): Option<Attempt> {
    if && IsUuid(scope.identityId) && IsUuid(scope.sessionId) && IsUuid(scope.pickupId)
       && SafeNatural(scope.identityGeneration) && SafeNatural(scope.contextGeneration)
       && SafePositive(scope.pickupVersion) && IsUuid(key)
    then Some(Attempt(Lower(scope.pickupId), scope.pickupVersion, Lower(key), Lower(scope.identityId),
                      Lower(scope.sessionId), scope.identityGeneration, scope.contextGeneration))
    else None
  }

  predicate MatchesScope(attempt: Attempt, scope: Option<ScopeValue>) {
    && scope.Some?
    && attempt.identityId == Lower(scope.value.identityId)
    && attempt.sessionId == Lower(scope.value.sessionId)
    && attempt.identityGeneration == scope.value.identityGeneration
    && attempt.contextGeneration == scope.value.contextGeneration
    && attempt.pickupId == Lower(scope.value.pickupId)
    && attempt.expectedVersion == scope.value.pickupVersion
  }

  datatype PickupSnapshot = PickupSnapshot(pickupId: string, state: PickupState, version: int, offersMarkArrived: bool)

  datatype InvalidReason = InvalidHandle | ScopeChanged | AuthorityLost | StateChanged

  datatype Reconciliation =
    | AlreadyApplied(pickup: PickupSnapshot)
    | RetrySameAttempt(pickup: PickupSnapshot)
    | Invalidated(reason: InvalidReason)

  function ReconcileRead(p: PickupSnapshot, attempt: Attempt): Reconciliation {
    if p.pickupId != attempt.pickupId then Invalidated(StateChanged)
    else if p.state == Travelling && p.version == attempt.expectedVersion && p.offersMarkArrived then RetrySameAttempt(p)
    else if p.state == Arrived && p.version >= attempt.expectedVersion + 1 then AlreadyApplied(p)
    else if p.state == Waiting && p.version >= attempt.expectedVersion + 2 then AlreadyApplied(p)
    else Invalidated(StateChanged)
  }

  datatype Identity = Identity(identityId: string, sessionId: string, generation: int)

  datatype Context = Context(pickupId: string, generation: int, continuityCurrent: bool)

  datatype Evidence = Evidence(
    pickupId: string, identityGeneration: int, contextGeneration: int, pickupVersion: int, offersMarkArrived: bool)

  datatype Scope = Scope(
    identity: Option<Identity>, context: Option<Context>, evidence: Option<Evidence>,
    lifetimeActive: bool, retired: bool, attempts: seq<Attempt>)
  {
    predicate LifetimeCurrent() {
      !retired && lifetimeActive
    }

    function CurrentScope(): Option<ScopeValue> {
      if !LifetimeCurrent() || identity.None? || context.None? || evidence.None? then None
      else
        var id, ctx, ev := identity.value, context.value, evidence.value;
        if || !ctx.continuityCurrent || Lower(ctx.pickupId) != ev.pickupId
           || ev.identityGeneration != id.generation || ev.contextGeneration != ctx.generation
           || !ev.offersMarkArrived
        then None
        else Some(ScopeValue(id.identityId, id.sessionId, id.generation, ctx.generation, ctx.pickupId, ev.pickupVersion))
    }

    predicate OperationIsCurrent(attempt: Attempt) {
      && LifetimeCurrent() && identity.Some? && context.Some? && context.value.continuityCurrent
      && Lower(identity.value.identityId) == attempt.identityId
      && Lower(identity.value.sessionId) == attempt.sessionId
      && identity.value.generation == attempt.identityGeneration
      && context.value.generation == attempt.contextGeneration
      && Lower(context.value.pickupId) == attempt.pickupId
    }

    predicate EvidenceMatchesAttempt(attempt: Attempt) {
      && evidence.Some?
      && evidence.value.pickupId == attempt.pickupId
      && evidence.value.identityGeneration == attempt.identityGeneration
      && evidence.value.contextGeneration == attempt.contextGeneration
      && evidence.value.pickupVersion == attempt.expectedVersion
      && evidence.value.offersMarkArrived
    }

    predicate ResolvesForOperation(handle: nat) {
      LifetimeCurrent() && handle < |attempts| && OperationIsCurrent(attempts[handle])
    }

    predicate ResolvesForSubmit(handle: nat) {
      ResolvesForOperation(handle) && MatchesScope(attempts[handle], CurrentScope())
    }

    function ClearFor(pickupId: string): Scope {
      if evidence.Some? && evidence.value.pickupId == Lower(pickupId) then this.(evidence := None) else this
    }

    function ClearForAttempt(attempt: Attempt): Scope {
      if EvidenceMatchesAttempt(attempt) then this.(evidence := None) else this
    }

    function Publish(pickupId: string, version: int, offersMarkArrived: bool): Scope {
      if !LifetimeCurrent() then this
      else if identity.None? || context.None? || !context.value.continuityCurrent
              || Lower(context.value.pickupId) != Lower(pickupId)
      then ClearFor(pickupId)
      else this.(evidence := Some(Evidence(Lower(pickupId), identity.value.generation, context.value.generation,
                                           version, offersMarkArrived)))
    }

    function PublishRetry(attempt: Attempt, pickup: PickupSnapshot): (Scope, bool) {
      if || !OperationIsCurrent(attempt) || pickup.pickupId != attempt.pickupId || pickup.state != Travelling
         || pickup.version != attempt.expectedVersion || !pickup.offersMarkArrived
         || (evidence.Some? && !EvidenceMatchesAttempt(attempt))
      then (this, false)
      else
        var next := Publish(attempt.pickupId, pickup.version, true);
        (next, MatchesScope(attempt, next.CurrentScope()))
    }

    function Retain(): Scope {
      if retired then this else this.(lifetimeActive := true)
    }

    function Release(): Scope {
      this.(lifetimeActive := false, evidence := None)
    }

    function Retire(): Scope {
      this.(retired := true, lifetimeActive := false, evidence := None)
    }
  }

  /** The scope as the object the providers and the controller mutate. */
  class CommandScope {
    var identity: Option<Identity>
    var context: Option<Context>
    var freshEvidence: Option<Evidence>
    var providerLifetimeActive: bool
    var retired: bool
    var attempts: seq<Attempt>

    function View(): Scope
      reads this
    {
      Scope(identity, context, freshEvidence, providerLifetimeActive, retired, attempts)
    }

    constructor (identity: Option<Identity>, context: Option<Context>)
      ensures View() == Scope(identity, context, None, true, false, [])
    {
      this.identity, this.context, this.freshEvidence := identity, context, None;
      this.providerLifetimeActive, this.retired, this.attempts := true, false, [];
    }

    method ClearFresh(pickupId: string)
      modifies this`freshEvidence
      ensures View() == old(View()).ClearFor(pickupId)
    {
      if freshEvidence.Some? && freshEvidence.value.pickupId == Lower(pickupId) {
        freshEvidence := None;
      }
    }

    method ClearFreshForAttempt(attempt: Attempt)
      modifies this`freshEvidence
      ensures View() == old(View()).ClearForAttempt(attempt)
    {
      if View().EvidenceMatchesAttempt(attempt) {
        freshEvidence := None;
      }
    }

    method PublishFresh(pickupId: string, version: int, offersMarkArrived: bool)
      modifies this`freshEvidence
      ensures View() == old(View()).Publish(pickupId, version, offersMarkArrived)
    {
      if retired || !providerLifetimeActive {
        return;
      }
      if identity.None? || context.None? || !context.value.continuityCurrent
         || Lower(context.value.pickupId) != Lower(pickupId)
      {
        ClearFresh(pickupId);
        return;
      }
      freshEvidence := Some(Evidence(
        Lower(pickupId), identity.value.generation, context.value.generation, version, offersMarkArrived));
    }

    method PublishRetryEvidence(attempt: Attempt, pickup: PickupSnapshot) returns (published: bool)
      modifies this`freshEvidence
      ensures (View(), published) == old(View()).PublishRetry(attempt, pickup)
    {
      if !View().OperationIsCurrent(attempt) || pickup.pickupId != attempt.pickupId || pickup.state != Travelling
         || pickup.version != attempt.expectedVersion || !pickup.offersMarkArrived
      {
        return false;
      }
      if freshEvidence.Some? && !View().EvidenceMatchesAttempt(attempt) {
        return false;
      }
      PublishFresh(attempt.pickupId, pickup.version, true);
      published := MatchesScope(attempt, View().CurrentScope());
    }

    method CreateForCurrentPickup(key: string) returns (handle: Option<nat>)
      modifies this`attempts
      ensures handle.Some? ==
              (old(View()).CurrentScope().Some? && CreateAttempt(old(View()).CurrentScope().value, key).Some?)
      ensures handle.None? ==> View() == old(View())
      ensures handle.Some? ==>
                && handle.value == |old(attempts)|
                && View() == old(View()).(attempts := old(attempts)
                                          + [CreateAttempt(old(View()).CurrentScope().value, key).value])
    {
      var live := View().CurrentScope();
      if live.None? {
        return None;
      }
      var attempt := CreateAttempt(live.value, key);
      if attempt.None? {
        return None;
      }
      handle := Some(|attempts|);
      attempts := attempts + [attempt.value];
    }
  }
}

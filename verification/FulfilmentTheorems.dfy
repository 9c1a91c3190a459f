/** What every run of dispatch, pickup and custody guarantees about the chain of custody. */
module FulfilmentTheorems {
  import opened Options
  import opened PickupEngine
  import opened Fulfilment

  /** The four custody steps in their only order. */
  const CHAIN: seq<CustodyAction> := [Seal, Verify, ReleaseOrder, AcceptCustody]

  function Progress(state: CustodyState): nat {
    match state
    case CustodyWaiting => 0
    case Sealed => 1
    case Verified => 2
    case Released => 3
    case Accepted => 4
  }

  /** A merchant step was taken by the owner; a courier step by the bound courier, while its assignment was current. */
  predicate StepProper(k: Custody, event: CustodyEvent) {
    if event.action == Seal || event.action == ReleaseOrder then event.byOwner
    else event.actor == k.courier && event.assignmentCurrent
  }

  predicate HistoryOk(k: Custody) {
    && |k.events| == Progress(k.state) && k.version == 1 + |k.events|
    && (forall i :: 0 <= i < |k.events| ==> k.events[i].action == CHAIN[i] && StepProper(k, k.events[i]))
    && ChallengeOk(k)
  }

  /** The challenge is what the seal issued, and it is used up by showing exactly its code in time. */
  predicate ChallengeOk(k: Custody)
    requires |k.events| == Progress(k.state)
  {
    match k.state
    case CustodyWaiting => k.challenge.None?
    case Sealed =>
      k.events[0].code.Some? && k.challenge == Some(Challenge(k.events[0].code.value, k.events[0].time, false))
    case _ =>
      && k.events[0].code.Some? && k.challenge == Some(Challenge(k.events[0].code.value, k.events[0].time, true))
      && k.events[1].code == k.events[0].code && k.events[1].time <= k.events[0].time
  }

  /** A custody is bound to a waiting pickup and is the only one of its order. */
  predicate CustodyOk(s: Store, c: Id)
    requires c in s.custodies
  {
    var k := s.custodies[c];
    && k.pickupId in s.pickups
    && s.pickups[k.pickupId].state == Waiting && s.pickups[k.pickupId].orderId == k.orderId
    && s.pickups[k.pickupId].merchantId == k.merchantId && s.pickups[k.pickupId].courier == k.courier
    && k.orderId in s.custodyByOrder && s.custodyByOrder[k.orderId] == c
    && HistoryOk(k)
    && (k.state == Accepted ==> MatchesCurrentAssignment(s, s.pickups[k.pickupId]))
  }

  predicate DispatchOk(s: Store, d: Id)
    requires d in s.dispatches
  {
    s.dispatches[d].activeAssignment.Some? ==>
      && s.dispatches[d].activeAssignment.value in s.assignments
      && s.assignments[s.dispatches[d].activeAssignment.value].dispatchId == d
  }

  predicate PickupOk(s: Store, p: Id)
    requires p in s.pickups
  {
    s.pickups[p].assignmentId in s.assignments
  }

  predicate OrderOk(s: Store, o: Id)
    requires o in s.custodyByOrder
  {
    s.custodyByOrder[o] in s.custodies && s.custodies[s.custodyByOrder[o]].orderId == o
  }

  ghost predicate Inv(s: Store) {
    && (forall d :: d in s.dispatches ==> DispatchOk(s, d))
    && (forall p :: p in s.pickups ==> PickupOk(s, p))
    && (forall o :: o in s.custodyByOrder ==> OrderOk(s, o))
    && (forall c :: c in s.custodies ==> CustodyOk(s, c))
  }

  // ----- preservation

  /** A command that leaves pickups and custodies alone; dispatches, offers and assignments may change. */
  ghost predicate SameTables(s: Store, t: Store) {
    && t.pickups == s.pickups && t.custodies == s.custodies && t.custodyByOrder == s.custodyByOrder
  }

  /** A dispatch command keeps the invariant if it never takes an accepted custody's assignment away. */
  lemma DispatchStep(s: Store, t: Store, d: Id)
    requires Inv(s) && SameTables(s, t)
    requires forall a :: a in s.assignments ==> a in t.assignments
    requires forall e :: e in t.dispatches ==> DispatchOk(t, e)
    requires forall e :: e in s.dispatches && e != d ==> e in t.dispatches && t.dispatches[e] == s.dispatches[e]
    requires forall a :: a in s.assignments && s.assignments[a].dispatchId != d ==> t.assignments[a] == s.assignments[a]
    requires d in s.dispatches && s.dispatches[d].state == DispatchAssigned ==> !CustodyAccepted(s, s.dispatches[d].orderId)
    ensures Inv(t)
  {
    assert forall p :: p in s.pickups ==> PickupOk(s, p) ==> PickupOk(t, p);
    assert forall o :: o in s.custodyByOrder ==> OrderOk(s, o) ==> OrderOk(t, o);
    forall c | c in t.custodies ensures CustodyOk(t, c) {
      assert CustodyOk(s, c);
    }
  }

  lemma AdmitStep(s: Store, d: Id, order: Id, merchant: Id, message: Id, permitted: bool)
    requires Inv(s) && AdmitReady(s, d, order, merchant, message, permitted).Some?
    ensures Inv(AdmitReady(s, d, order, merchant, message, permitted).value)
  {
    var t := AdmitReady(s, d, order, merchant, message, permitted).value;
    assert forall e :: e in s.dispatches ==> DispatchOk(s, e) ==> DispatchOk(t, e);
    DispatchStep(s, t, d);
  }

  lemma OfferStep(s: Store, d: Id, v: int, courier: Id, offer: Id, expiresAt: int, permitted: bool)
    requires Inv(s) && OfferCourier(s, d, v, courier, offer, expiresAt, permitted).Some?
    ensures Inv(OfferCourier(s, d, v, courier, offer, expiresAt, permitted).value)
  {
    var t := OfferCourier(s, d, v, courier, offer, expiresAt, permitted).value;
    assert forall e :: e in s.dispatches ==> DispatchOk(s, e) ==> DispatchOk(t, e);
    DispatchStep(s, t, d);
  }

  lemma RespondStep(s: Store, d: Id, v: int, action: DispatchAction, courier: Id, a: Id, at: int)
    requires Inv(s) && RespondOffer(s, d, v, action, courier, a, at).Some?
    ensures Inv(RespondOffer(s, d, v, action, courier, a, at).value)
  {
    var t := RespondOffer(s, d, v, action, courier, a, at).value;
    assert forall e :: e in s.dispatches ==> DispatchOk(s, e) ==> DispatchOk(t, e);
    DispatchStep(s, t, d);
  }

  /** What an authority command may change: its dispatch, offers, and the dispatch's own assignment by closing it. */
  ghost predicate AuthorityFrame(s: Store, t: Store, d: Id) {
    && d in s.dispatches && d in t.dispatches && SameTables(s, t)
    && t.dispatches == s.dispatches[d := t.dispatches[d]]
    && var active := s.dispatches[d].activeAssignment;
    && (t.dispatches[d].activeAssignment.None? || t.dispatches[d].activeAssignment == active)
    && (t.assignments == s.assignments
        || (active.Some? && exists state: AssignmentState {:trigger ClosedBy(s, t, active.value, state)} ::
              ClosedBy(s, t, active.value, state)))
  }

  predicate ClosedBy(s: Store, t: Store, a: Id, state: AssignmentState) {
    && a in s.assignments && s.assignments[a].state == Assigned && state != Assigned
    && t.assignments == s.assignments[a := s.assignments[a].(state := state, version := s.assignments[a].version + 1)]
  }

  lemma ReleaseFrame(s: Store, d: Id, moved: Dispatch)
    requires d in s.dispatches && moved.activeAssignment == s.dispatches[d].activeAssignment
    ensures ReleaseAssignment(s, d, moved).Some? ==> AuthorityFrame(s, ReleaseAssignment(s, d, moved).value, d)
  {
    if ReleaseAssignment(s, d, moved).Some? {
      assert ClosedBy(s, ReleaseAssignment(s, d, moved).value, moved.activeAssignment.value, AssignmentReleased);
    }
  }

  lemma CancelFrame(s: Store, d: Id, moved: Dispatch)
    requires d in s.dispatches && moved.activeAssignment == s.dispatches[d].activeAssignment
    ensures CancelDispatch(s, d, moved).Some? ==> AuthorityFrame(s, CancelDispatch(s, d, moved).value, d)
  {
    if CancelDispatch(s, d, moved).Some? && moved.activeAssignment.Some? {
      assert ClosedBy(s, CancelDispatch(s, d, moved).value, moved.activeAssignment.value, AssignmentCancelled);
    }
  }

  lemma WithdrawFrame(s: Store, d: Id, moved: Dispatch, expiry: Option<int>)
    requires d in s.dispatches && moved.activeAssignment == s.dispatches[d].activeAssignment
    ensures WithdrawOffer(s, d, moved, expiry).Some? ==> AuthorityFrame(s, WithdrawOffer(s, d, moved, expiry).value, d)
  {
  }

  lemma AuthorityShape(s: Store, d: Id, v: int, action: DispatchAction, at: int, permitted: bool)
    requires AuthorityCommand(s, d, v, action, at, permitted).Some?
    ensures AuthorityFrame(s, AuthorityCommand(s, d, v, action, at, permitted).value, d)
    ensures s.dispatches[d].state == DispatchAssigned ==> !CustodyAccepted(s, s.dispatches[d].orderId)
  {
    var before := s.dispatches[d];
    var moved := before.(state := DispatchTarget(before.state, action).value, version := before.version + 1);
    if action == Release {
      ReleaseFrame(s, d, moved);
    } else if action == Cancel {
      CancelFrame(s, d, moved);
    } else if action != ConcludeUnfulfilled {
      WithdrawFrame(s, d, moved, if action == Expire then Some(at) else None);
    }
  }

  /** Closing the active assignment of a dispatch touches no assignment of another dispatch. */
  lemma CloseStep(s: Store, t: Store, d: Id)
    requires Inv(s) && AuthorityFrame(s, t, d)
    requires s.dispatches[d].state == DispatchAssigned ==> !CustodyAccepted(s, s.dispatches[d].orderId)
    ensures Inv(t)
  {
    assert DispatchOk(s, d);
    assert forall e :: e in s.dispatches ==> DispatchOk(s, e) ==> DispatchOk(t, e);
    DispatchStep(s, t, d);
  }

  lemma AuthorityStep(s: Store, d: Id, v: int, action: DispatchAction, at: int, permitted: bool)
    requires Inv(s) && AuthorityCommand(s, d, v, action, at, permitted).Some?
    ensures Inv(AuthorityCommand(s, d, v, action, at, permitted).value)
  {
    AuthorityShape(s, d, v, action, at, permitted);
    CloseStep(s, AuthorityCommand(s, d, v, action, at, permitted).value, d);
  }

  lemma StartPickupStep(s: Store, p: Id, d: Id, order: Id, message: Id, valid: bool)
    requires Inv(s) && ConsumeAssignment(s, p, d, order, message, valid).Some?
    ensures Inv(ConsumeAssignment(s, p, d, order, message, valid).value)
  {
    var t := ConsumeAssignment(s, p, d, order, message, valid).value;
    PickupsStep(s, t);
  }

  /** Pickups of orders without custody may change; those bound into a custody stay as they are. */
  lemma PickupsStep(s: Store, t: Store)
    requires Inv(s) && t == s.(pickups := t.pickups, pickupByAssignment := t.pickupByAssignment)
    requires forall q :: q in t.pickups ==> PickupOk(t, q)
    requires forall q :: q in s.pickups ==>
               q in t.pickups && (s.pickups[q].orderId in s.custodyByOrder ==> t.pickups[q] == s.pickups[q])
    ensures Inv(t)
  {
    assert forall e :: e in s.dispatches ==> DispatchOk(s, e) ==> DispatchOk(t, e);
    assert forall o :: o in s.custodyByOrder ==> OrderOk(s, o) ==> OrderOk(t, o);
    forall c | c in t.custodies ensures CustodyOk(t, c) {
      assert CustodyOk(s, c);
    }
  }

  /** Activating custody for a pickup that just began to wait, in an order that has none. */
  lemma ActivateStep(s: Store, c: Id, p: Id)
    requires Inv(s) && c !in s.custodies && p in s.pickups
    requires s.pickups[p].state == Waiting && s.pickups[p].orderId !in s.custodyByOrder
    ensures var q := s.pickups[p];
            Inv(s.(custodyByOrder := s.custodyByOrder[q.orderId := c],
                   custodies := s.custodies[c :=
                     Custody(p, q.orderId, q.merchantId, q.courier, CustodyWaiting, 1, None, [])]))
  {
    var q := s.pickups[p];
    var t := s.(custodyByOrder := s.custodyByOrder[q.orderId := c],
                custodies := s.custodies[c := Custody(p, q.orderId, q.merchantId, q.courier, CustodyWaiting, 1, None, [])]);
    assert forall e :: e in s.dispatches ==> DispatchOk(s, e) ==> DispatchOk(t, e);
    assert forall e :: e in s.pickups ==> PickupOk(s, e) ==> PickupOk(t, e);
    assert forall o :: o in s.custodyByOrder ==> OrderOk(s, o) ==> OrderOk(t, o);
    forall e | e in t.custodies ensures CustodyOk(t, e) {
      if e != c {
        assert CustodyOk(s, e);
      }
    }
  }

  /** The tables after a pickup moved, before any custody is activated. */
  function MovedPickup(s: Store, p: Id, action: PickupAction): Store
    requires p in s.pickups && TargetState(s.pickups[p].state, action).Some?
  {
    var q := s.pickups[p];
    s.(pickups := s.pickups[p := q.(state := TargetState(q.state, action).value, version := q.version + 1)])
  }

  lemma MovedPickupStep(s: Store, p: Id, action: PickupAction)
    requires Inv(s) && p in s.pickups && s.pickups[p].orderId !in s.custodyByOrder
    requires TargetState(s.pickups[p].state, action).Some?
    ensures Inv(MovedPickup(s, p, action))
  {
    var t := MovedPickup(s, p, action);
    assert PickupOk(s, p);
    assert forall e :: e in s.pickups ==> PickupOk(s, e) ==> PickupOk(t, e);
    PickupsStep(s, t);
  }

  /** A pickup command moves its pickup, and an acknowledgement also opens the order's custody. */
  lemma PickupCommandShape(s: Store, subject: Id, m: Option<Id>, p: Id, v: int, action: PickupAction, k: Id, checks: Checks)
    requires PickupCommand(s, subject, m, p, v, action, k, checks).Some?
    ensures p in s.pickups && TargetState(s.pickups[p].state, action).Some?
    ensures s.pickups[p].orderId !in s.custodyByOrder && (action == AcknowledgeArrival ==> k !in s.custodies)
    ensures var q, moved := s.pickups[p], MovedPickup(s, p, action);
            PickupCommand(s, subject, m, p, v, action, k, checks).value
            == if action != AcknowledgeArrival then moved
               else moved.(custodyByOrder := s.custodyByOrder[q.orderId := k],
                           custodies := s.custodies[k :=
                             Custody(p, q.orderId, q.merchantId, q.courier, CustodyWaiting, 1, None, [])])
  {
  }

  lemma MovePickupStep(s: Store, subject: Id, m: Option<Id>, p: Id, v: int, action: PickupAction, k: Id, checks: Checks)
    requires Inv(s) && PickupCommand(s, subject, m, p, v, action, k, checks).Some?
    ensures Inv(PickupCommand(s, subject, m, p, v, action, k, checks).value)
  {
    PickupCommandShape(s, subject, m, p, v, action, k, checks);
    MovedPickupStep(s, p, action);
    if action == AcknowledgeArrival {
      ActivateStep(MovedPickup(s, p, action), k, p);
    }
  }

  /** Adding one proper event, in order, keeps a custody's history. */
  lemma EventStep(s: Store, t: Store, c: Id, k: Custody)
    requires Inv(s) && c in s.custodies && t == s.(custodies := s.custodies[c := k])
    requires k == s.custodies[c].(state := k.state, version := k.version, challenge := k.challenge, events := k.events)
    requires HistoryOk(k)
    requires k.state == Accepted ==> MatchesCurrentAssignment(s, s.pickups[k.pickupId])
    ensures Inv(t)
  {
    assert forall e :: e in s.dispatches ==> DispatchOk(s, e) ==> DispatchOk(t, e);
    assert forall q :: q in s.pickups ==> PickupOk(s, q) ==> PickupOk(t, q);
    assert forall o :: o in s.custodyByOrder ==> OrderOk(s, o) ==> OrderOk(t, o);
    forall e | e in t.custodies ensures CustodyOk(t, e) {
      assert CustodyOk(s, e);
    }
  }

  lemma SealStep(s: Store, subject: Id, m: Id, c: Id, v: int, unused: bool, code: int, expiresAt: int)
    requires Inv(s) && SealOrder(s, subject, m, c, v, unused, code, expiresAt).Some?
    ensures Inv(SealOrder(s, subject, m, c, v, unused, code, expiresAt).value)
  {
    assert CustodyOk(s, c);
    var t := SealOrder(s, subject, m, c, v, unused, code, expiresAt).value;
    EventStep(s, t, c, t.custodies[c]);
  }

  /** A custody step appends its own event to a proper history. */
  lemma MovedHistory(s: Store, subject: Id, m: Option<Id>, c: Id, v: int, action: CustodyAction, unused: bool,
                     code: Option<int>, at: int)
    requires c in s.custodies && CustodyOk(s, c) && CustodyCommand(s, subject, m, c, v, action, unused, code, at).Some?
    ensures var t := CustodyCommand(s, subject, m, c, v, action, unused, code, at).value;
            && c in t.custodies && t == s.(custodies := s.custodies[c := t.custodies[c]])
            && var k := t.custodies[c];
            && k == s.custodies[c].(state := k.state, version := k.version, challenge := k.challenge, events := k.events)
            && HistoryOk(k)
            && (k.state == Accepted ==> MatchesCurrentAssignment(s, s.pickups[k.pickupId]))
  {
  }

  lemma MoveCustodyStep(s: Store, subject: Id, m: Option<Id>, c: Id, v: int, action: CustodyAction, unused: bool,
                        code: Option<int>, at: int)
    requires Inv(s) && CustodyCommand(s, subject, m, c, v, action, unused, code, at).Some?
    ensures Inv(CustodyCommand(s, subject, m, c, v, action, unused, code, at).value)
  {
    assert CustodyOk(s, c);
    var t := CustodyCommand(s, subject, m, c, v, action, unused, code, at).value;
    MovedHistory(s, subject, m, c, v, action, unused, code, at);
    EventStep(s, t, c, t.custodies[c]);
  }

  lemma StepKeepsInv(s: Store, c: Command)
    requires Inv(s)
    ensures Inv(Apply(s, c))
  {
    if Attempt(s, c).Some? {
      match c
      case MerchantsChange(owners) =>
        var t := s.(owners := owners);
        assert forall e :: e in s.dispatches ==> DispatchOk(s, e) ==> DispatchOk(t, e);
        assert forall q :: q in s.pickups ==> PickupOk(s, q) ==> PickupOk(t, q);
        assert forall o :: o in s.custodyByOrder ==> OrderOk(s, o) ==> OrderOk(t, o);
        assert forall e :: e in s.custodies ==> CustodyOk(s, e) ==> CustodyOk(t, e);
      case Admit(d, o, m, message, permitted) => AdmitStep(s, d, o, m, message, permitted);
      case MakeOffer(d, v, courier, offer, expires, permitted) => OfferStep(s, d, v, courier, offer, expires, permitted);
      case Respond(d, v, action, courier, a, at) => RespondStep(s, d, v, action, courier, a, at);
      case Authority(d, v, action, at, permitted) => AuthorityStep(s, d, v, action, at, permitted);
      case StartPickup(p, d, o, message, valid) => StartPickupStep(s, p, d, o, message, valid);
      case MovePickup(subject, m, p, v, action, k, checks) => MovePickupStep(s, subject, m, p, v, action, k, checks);
      case SealCommand(subject, m, k, v, unused, code, expires) => SealStep(s, subject, m, k, v, unused, code, expires);
      case MoveCustody(subject, m, k, v, action, unused, code, at) =>
        MoveCustodyStep(s, subject, m, k, v, action, unused, code, at);
    }
  }

  lemma {:induction false} RunKeepsInv(s: Store, trace: seq<Command>)
    requires Inv(s)
    ensures Inv(Execute(s, trace))
    decreases |trace|
  {
    if trace != [] {
      StepKeepsInv(s, trace[0]);
      RunKeepsInv(Apply(s, trace[0]), trace[1..]);
    }
  }

  ghost predicate Reachable(s: Store) {
    exists owners: map<Id, Id>, trace: seq<Command> :: s == Execute(Empty(owners), trace)
  }

  lemma ReachableInv(s: Store)
    requires Reachable(s)
    ensures Inv(s)
  {
    var owners: map<Id, Id>, trace: seq<Command> :| s == Execute(Empty(owners), trace);
    RunKeepsInv(Empty(owners), trace);
  }

  // ----- theorems

  /**
   A custody that reached acceptance was sealed by the merchant's owner, verified by the bound
   courier, released by the owner and accepted by the courier, in this order and nothing else,
   both courier steps while the bound assignment was current; and that assignment is current now.
   */
  lemma AcceptedCustodyHistory(s: Store, c: Id)
    requires Reachable(s) && c in s.custodies && s.custodies[c].state == Accepted
    ensures var k := s.custodies[c];
            && |k.events| == 4
            && k.events[0].action == Seal && k.events[0].byOwner
            && k.events[1].action == Verify && k.events[1].actor == k.courier && k.events[1].assignmentCurrent
            && k.events[2].action == ReleaseOrder && k.events[2].byOwner
            && k.events[3].action == AcceptCustody && k.events[3].actor == k.courier && k.events[3].assignmentCurrent
    ensures IsAssigned(s, s.custodies[c])
  {
    ReachableInv(s);
    assert CustodyOk(s, c);
  }

  /** A custody at or beyond verification was verified once, with exactly the code its seal issued, and not after its expiry. */
  lemma VerifiedWithTheIssuedCode(s: Store, c: Id)
    requires Reachable(s) && c in s.custodies
    requires s.custodies[c].state == Verified || s.custodies[c].state == Released || s.custodies[c].state == Accepted
    ensures var events := s.custodies[c].events;
            && |events| >= 2 && events[0].action == Seal && events[0].code.Some?
            && events[1].action == Verify && events[1].code == events[0].code && events[1].time <= events[0].time
            && forall i :: 0 <= i < |events| && i != 1 ==> events[i].action != Verify
  {
    ReachableInv(s);
    assert CustodyOk(s, c);
  }

  /**
   The handover code decides: on a sealed custody, by the bound courier whose assignment is current,
   the verification succeeds if and only if the shown code is the issued one and has not expired.
   */
  lemma VerificationIsExact(s: Store, subject: Id, m: Option<Id>, c: Id, code: Option<int>, at: int)
    requires Reachable(s) && c in s.custodies && s.custodies[c].state == Sealed
    requires CourierMayAct(s, s.custodies[c], subject)
    ensures |s.custodies[c].events| == 1
    ensures CustodyCommand(s, subject, m, c, s.custodies[c].version, Verify, true, code, at).Some? <==>
              code.Some? && code == s.custodies[c].events[0].code && at <= s.custodies[c].events[0].time
  {
    ReachableInv(s);
    assert CustodyOk(s, c);
  }

  /** A courier step needs the bound courier and its current assignment; a release needs the owner. */
  lemma HandoverAuthorityIsExact(s: Store, subject: Id, m: Option<Id>, c: Id, action: CustodyAction, at: int)
    requires Reachable(s) && c in s.custodies && (action == ReleaseOrder || action == AcceptCustody)
    ensures CustodyCommand(s, subject, m, c, s.custodies[c].version, action, true, None, at).Some? <==>
              if action == ReleaseOrder
              then s.custodies[c].state == Verified && m == Some(s.custodies[c].merchantId)
                   && OwnsMerchant(s, subject, s.custodies[c].merchantId)
              else s.custodies[c].state == Released && subject == s.custodies[c].courier && IsAssigned(s, s.custodies[c])
  {
    ReachableInv(s);
    assert CustodyOk(s, c);
  }

  /** A custody keeps its binding, only moves forward, and never loses an event. */
  ghost predicate Continues(s: Store, t: Store, c: Id)
    requires c in s.custodies
  {
    && c in t.custodies
    && t.custodies[c].pickupId == s.custodies[c].pickupId && t.custodies[c].courier == s.custodies[c].courier
    && t.custodies[c].orderId == s.custodies[c].orderId
    && s.custodies[c].events <= t.custodies[c].events
    && (s.custodies[c].state == Accepted ==> t.custodies[c].state == Accepted)
    && (s.custodies[c].pickupId in s.pickups ==>
          && s.custodies[c].pickupId in t.pickups
          && t.pickups[s.custodies[c].pickupId] == s.pickups[s.custodies[c].pickupId])
  }

  /** Dispatch commands touch no pickup and no custody. */
  lemma DispatchCommandsFrame(s: Store, command: Command)
    requires command.MerchantsChange? || command.Admit? || command.MakeOffer? || command.Respond? || command.Authority?
    ensures SameTables(s, Apply(s, command))
  {
    if command.Authority? && Attempt(s, command).Some? {
      AuthorityShape(s, command.dispatch, command.expectedVersion, command.decision, command.at, command.permitted);
    }
  }

  lemma StartPickupContinues(s: Store, command: Command, c: Id)
    requires Inv(s) && c in s.custodies && command.StartPickup?
    ensures Continues(s, Apply(s, command), c)
  {
  }

  lemma PickupMoveContinues(s: Store, command: Command, c: Id)
    requires Inv(s) && c in s.custodies && command.MovePickup?
    ensures Continues(s, Apply(s, command), c)
  {
    assert CustodyOk(s, c);
    if Attempt(s, command).Some? {
      PickupCommandShape(s, command.subject, command.owner, command.pickup, command.expectedVersion, command.move,
                         command.custody, command.checks);
    }
  }

  lemma CustodyMoveContinues(s: Store, command: Command, c: Id)
    requires c in s.custodies && (command.SealCommand? || command.MoveCustody?)
    ensures Continues(s, Apply(s, command), c)
  {
  }

  lemma StepContinues(s: Store, command: Command, c: Id)
    requires Inv(s) && c in s.custodies
    ensures Continues(s, Apply(s, command), c)
  {
    if command.StartPickup? {
      StartPickupContinues(s, command, c);
    } else if command.MovePickup? {
      PickupMoveContinues(s, command, c);
    } else if command.SealCommand? || command.MoveCustody? {
      CustodyMoveContinues(s, command, c);
    } else {
      DispatchCommandsFrame(s, command);
    }
  }

  lemma {:induction false} RunContinues(s: Store, trace: seq<Command>, c: Id)
    requires Inv(s) && c in s.custodies
    ensures Continues(s, Execute(s, trace), c)
    decreases |trace|
  {
    if trace != [] {
      var t := Apply(s, trace[0]);
      StepKeepsInv(s, trace[0]);
      StepContinues(s, trace[0], c);
      RunContinues(t, trace[1..], c);
      assert CustodyOk(s, c);
    }
  }

  /** From acceptance on, the dispatch stays assigned, with the same assignment, to the courier of the custody. */
  lemma AcceptedStaysAssigned(s: Store, trace: seq<Command>, c: Id)
    requires Reachable(s) && c in s.custodies && s.custodies[c].state == Accepted
    ensures var t := Execute(s, trace);
            && c in t.custodies && t.custodies[c].state == Accepted
            && t.custodies[c].pickupId in t.pickups && s.custodies[c].pickupId in s.pickups
            && var p := s.pickups[s.custodies[c].pickupId];
            && t.pickups[t.custodies[c].pickupId] == p && p.dispatchId in t.dispatches
            && t.dispatches[p.dispatchId].state == DispatchAssigned
            && t.dispatches[p.dispatchId].assignedCourier == Some(s.custodies[c].courier)
            && t.dispatches[p.dispatchId].activeAssignment == Some(p.assignmentId)
  {
    ReachableInv(s);
    RunKeepsInv(s, trace);
    RunContinues(s, trace, c);
    assert CustodyOk(s, c) && CustodyOk(Execute(s, trace), c);
  }

  /** From acknowledgement on, no command at all moves the acknowledged pickup out of waiting. */
  lemma AcknowledgedPickupIsFrozen(s: Store, trace: seq<Command>, c: Id)
    requires Reachable(s) && c in s.custodies
    ensures s.custodies[c].pickupId in s.pickups && s.pickups[s.custodies[c].pickupId].state == Waiting
    ensures s.custodies[c].pickupId in Execute(s, trace).pickups
    ensures Execute(s, trace).pickups[s.custodies[c].pickupId] == s.pickups[s.custodies[c].pickupId]
  {
    ReachableInv(s);
    assert CustodyOk(s, c);
    RunContinues(s, trace, c);
  }

  /** The custody of its order is bound to this pickup. */
  predicate Bound(s: Store, p: Id)
    requires p in s.pickups
  {
    && s.pickups[p].orderId in s.custodyByOrder && s.custodyByOrder[s.pickups[p].orderId] in s.custodies
    && s.custodies[s.custodyByOrder[s.pickups[p].orderId]].pickupId == p
  }

  ghost predicate WaitingBound(s: Store) {
    forall p :: p in s.pickups && s.pickups[p].state == Waiting ==> Bound(s, p)
  }

  lemma PickupMoveKeepsBound(s: Store, command: Command)
    requires WaitingBound(s) && command.MovePickup?
    ensures WaitingBound(Apply(s, command))
  {
    if Attempt(s, command).Some? {
      PickupCommandShape(s, command.subject, command.owner, command.pickup, command.expectedVersion, command.move,
                         command.custody, command.checks);
      MovedKeepsBound(s, command.pickup, command.move, command.custody);
    }
  }

  /** Custodies of other orders are untouched, and only an acknowledgement leads to waiting. */
  lemma MovedKeepsBound(s: Store, p: Id, action: PickupAction, k: Id)
    requires WaitingBound(s) && p in s.pickups && TargetState(s.pickups[p].state, action).Some?
    requires s.pickups[p].orderId !in s.custodyByOrder && (action == AcknowledgeArrival ==> k !in s.custodies)
    ensures var q, moved := s.pickups[p], MovedPickup(s, p, action);
            WaitingBound(if action != AcknowledgeArrival then moved
                         else moved.(custodyByOrder := s.custodyByOrder[q.orderId := k],
                                     custodies := s.custodies[k :=
                                       Custody(p, q.orderId, q.merchantId, q.courier, CustodyWaiting, 1, None, [])]))
  {
    var q, moved := s.pickups[p], MovedPickup(s, p, action);
    var t := if action != AcknowledgeArrival then moved
             else moved.(custodyByOrder := s.custodyByOrder[q.orderId := k],
                         custodies := s.custodies[k :=
                           Custody(p, q.orderId, q.merchantId, q.courier, CustodyWaiting, 1, None, [])]);
    forall r | r in t.pickups && t.pickups[r].state == Waiting ensures Bound(t, r) {
      if r != p {
        assert Bound(s, r);
      }
    }
  }

  lemma OtherCommandsKeepBound(s: Store, command: Command)
    requires WaitingBound(s) && (command.StartPickup? || command.SealCommand? || command.MoveCustody?)
    ensures WaitingBound(Apply(s, command))
  {
    var t := Apply(s, command);
    forall p | p in t.pickups && t.pickups[p].state == Waiting ensures Bound(t, p) {
      assert Bound(s, p);
    }
  }

  lemma {:induction false} RunKeepsBound(s: Store, trace: seq<Command>)
    requires WaitingBound(s)
    ensures WaitingBound(Execute(s, trace))
    decreases |trace|
  {
    if trace != [] {
      var t := Apply(s, trace[0]);
      if trace[0].MovePickup? {
        PickupMoveKeepsBound(s, trace[0]);
      } else if trace[0].StartPickup? || trace[0].SealCommand? || trace[0].MoveCustody? {
        OtherCommandsKeepBound(s, trace[0]);
      } else {
        DispatchCommandsFrame(s, trace[0]);
        assert forall p :: p in s.pickups ==> Bound(s, p) ==> Bound(t, p);
      }
      RunKeepsBound(t, trace[1..]);
    }
  }

  /**
   In every reachable store a waiting pickup has the custody of its order bound to it, so it
   waits, unchanged, in every later store: nothing corrects it back and nothing ends it.
   */
  lemma WaitingPickupIsFrozen(s: Store, trace: seq<Command>, p: Id)
    requires Reachable(s) && p in s.pickups && s.pickups[p].state == Waiting
    ensures Bound(s, p)
    ensures p in Execute(s, trace).pickups && Execute(s, trace).pickups[p] == s.pickups[p]
  {
    var owners: map<Id, Id>, past: seq<Command> :| s == Execute(Empty(owners), past);
    RunKeepsBound(Empty(owners), past);
    AcknowledgedPickupIsFrozen(s, trace, s.custodyByOrder[s.pickups[p].orderId]);
  }

  /** A waiting state is never corrected: the correction is refused in every reachable store. */
  lemma WaitingIsNeverCorrected(s: Store, subject: Id, m: Option<Id>, p: Id, v: int, k: Id, checks: Checks)
    requires Reachable(s)
    ensures PickupCommand(s, subject, m, p, v, CorrectWaiting, k, checks).None?
  {
    if PickupCommand(s, subject, m, p, v, CorrectWaiting, k, checks).Some? {
      PickupCommandShape(s, subject, m, p, v, CorrectWaiting, k, checks);
      WaitingPickupIsFrozen(s, [], p);
    }
  }

  /** Every pickup of an order in custody is frozen, not only the acknowledged one. */
  lemma CustodyEndsPickupAuthority(s: Store, subject: Id, m: Option<Id>, p: Id, v: int, action: PickupAction, k: Id,
                                   checks: Checks)
    requires Reachable(s) && p in s.pickups
    ensures (exists c :: c in s.custodies && s.custodies[c].orderId == s.pickups[p].orderId) ==>
              PickupCommand(s, subject, m, p, v, action, k, checks).None?
  {
    ReachableInv(s);
    if c :| c in s.custodies && s.custodies[c].orderId == s.pickups[p].orderId {
      assert CustodyOk(s, c);
    }
  }

  /** A closed assignment is never opened again. */
  predicate Closed(s: Store, a: Id) {
    a in s.assignments && s.assignments[a].state != Assigned
  }

  /** Only a courier's answer adds assignments, under new ids. */
  lemma RespondKeepsClosed(s: Store, command: Command, a: Id)
    requires Closed(s, a) && command.Respond?
    ensures Closed(Apply(s, command), a)
  {
  }

  /** Only an authority command rewrites an assignment, and only one that is still assigned. */
  lemma AuthorityKeepsClosed(s: Store, command: Command, a: Id)
    requires Closed(s, a) && command.Authority?
    ensures Closed(Apply(s, command), a)
  {
    if Attempt(s, command).Some? {
      AuthorityShape(s, command.dispatch, command.expectedVersion, command.decision, command.at, command.permitted);
    }
  }

  lemma OthersKeepAssignments(s: Store, command: Command)
    requires !command.Respond? && !command.Authority?
    ensures Apply(s, command).assignments == s.assignments
  {
  }

  lemma ClosedStaysClosed(s: Store, command: Command, a: Id)
    requires Closed(s, a)
    ensures Closed(Apply(s, command), a)
  {
    if command.Respond? {
      RespondKeepsClosed(s, command, a);
    } else if command.Authority? {
      AuthorityKeepsClosed(s, command, a);
    } else {
      OthersKeepAssignments(s, command);
    }
  }

  /** The events a custody gained are all the merchant's. */
  ghost predicate MerchantOnlySince(before: Custody, after: Custody) {
    forall j :: |before.events| <= j < |after.events| ==>
      after.events[j].action == Seal || after.events[j].action == ReleaseOrder
  }

  /** Over a closed assignment the courier may not act. */
  lemma ClosedStopsCourier(s: Store, c: Id, subject: Id)
    requires c in s.custodies && s.custodies[c].pickupId in s.pickups
    requires Closed(s, s.pickups[s.custodies[c].pickupId].assignmentId)
    ensures !CourierMayAct(s, s.custodies[c], subject)
  {
  }

  /** A custody command appends at most one event, of its own action, to its own custody. */
  lemma CustodyCommandAppends(s: Store, command: Command, c: Id)
    requires c in s.custodies && (command.SealCommand? || command.MoveCustody?)
    ensures c in Apply(s, command).custodies
    ensures var before, after := s.custodies[c].events, Apply(s, command).custodies[c].events;
            || after == before
            || (Attempt(s, command).Some? && command.custody == c && |after| == |before| + 1
                && after[|before|].action == if command.SealCommand? then Seal else command.step)
  {
  }

  /** Over a closed assignment no courier step is taken. */
  lemma StrandedStep(s: Store, command: Command, c: Id)
    requires c in s.custodies && s.custodies[c].pickupId in s.pickups
    requires Closed(s, s.pickups[s.custodies[c].pickupId].assignmentId)
    ensures c in Apply(s, command).custodies
    ensures MerchantOnlySince(s.custodies[c], Apply(s, command).custodies[c])
  {
    if command.SealCommand? {
      CustodyCommandAppends(s, command, c);
    } else if command.MoveCustody? {
      CustodyCommandAppends(s, command, c);
      ClosedStopsCourier(s, c, command.subject);
    } else {
      OthersKeepEvents(s, command, c);
    }
  }

  lemma OthersKeepEvents(s: Store, command: Command, c: Id)
    requires c in s.custodies && !command.SealCommand? && !command.MoveCustody?
    ensures c in Apply(s, command).custodies && Apply(s, command).custodies[c].events == s.custodies[c].events
  {
    if command.MovePickup? {
      if Attempt(s, command).Some? {
        PickupCommandShape(s, command.subject, command.owner, command.pickup, command.expectedVersion, command.move,
                           command.custody, command.checks);
      }
    } else if !command.StartPickup? {
      DispatchCommandsFrame(s, command);
    }
  }

  /**
   A custody whose bound assignment was released or cancelled before acceptance is stranded:
   no run ever brings it to acceptance, or adds a courier step to it.
   */
  lemma {:induction false} StrandedCustodyIsNeverAccepted(s: Store, trace: seq<Command>, c: Id)
    requires Inv(s) && c in s.custodies && s.custodies[c].state != Accepted
    requires CustodyOk(s, c) && Closed(s, s.pickups[s.custodies[c].pickupId].assignmentId)
    ensures c in Execute(s, trace).custodies && Execute(s, trace).custodies[c].state != Accepted
    ensures MerchantOnlySince(s.custodies[c], Execute(s, trace).custodies[c])
    decreases |trace|
  {
    if trace != [] {
      var t := Apply(s, trace[0]);
      var a := s.pickups[s.custodies[c].pickupId].assignmentId;
      StepKeepsInv(s, trace[0]);
      StepContinues(s, trace[0], c);
      ClosedStaysClosed(s, trace[0], a);
      StrandedStep(s, trace[0], c);
      assert CustodyOk(t, c);
      StrandedCustodyIsNeverAccepted(t, trace[1..], c);
      RunContinues(t, trace[1..], c);
    }
  }
}

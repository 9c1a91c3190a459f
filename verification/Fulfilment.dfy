/**
 Order fulfilment: courier dispatch, pickup and chain of custody as three aggregates whose
 guards read each other.  One command is one unit of work; a conflict rolls it back.
 Unique columns are index maps, generated identifiers are parameters that must be unused,
 and permissions, request replays and location evidence enter as what the check answered.
 */
module Fulfilment {
  import opened Options
  import opened PickupEngine

  type Id = nat

  datatype DispatchState = DispatchWaiting | Offered | DispatchAssigned | DispatchCancelled | Unfulfilled

  datatype DispatchAction = Offer | Accept | Decline | Expire | Revoke | Release | Cancel | ConcludeUnfulfilled

  function DispatchTarget(state: DispatchState, action: DispatchAction): Option<DispatchState> {
    match (state, action)
    case (DispatchWaiting, Offer) => Some(Offered)
    case (Offered, Accept) => Some(DispatchAssigned)
    case (Offered, Decline) => Some(DispatchWaiting)
    case (Offered, Expire) => Some(DispatchWaiting)
    case (Offered, Revoke) => Some(DispatchWaiting)
    case (DispatchAssigned, Release) => Some(DispatchWaiting)
    case (DispatchWaiting, Cancel) => Some(DispatchCancelled)
    case (Offered, Cancel) => Some(DispatchCancelled)
    case (DispatchAssigned, Cancel) => Some(DispatchCancelled)
    case (DispatchWaiting, ConcludeUnfulfilled) => Some(Unfulfilled)
    case _ => None
  }

  datatype CustodyState = CustodyWaiting | Sealed | Verified | Released | Accepted

  datatype CustodyAction = Seal | Verify | ReleaseOrder | AcceptCustody

  function CustodyTarget(state: CustodyState, action: CustodyAction): Option<CustodyState> {
    match (state, action)
    case (CustodyWaiting, Seal) => Some(Sealed)
    case (Sealed, Verify) => Some(Verified)
    case (Verified, ReleaseOrder) => Some(Released)
    case (Released, AcceptCustody) => Some(Accepted)
    case _ => None
  }

  datatype Dispatch = Dispatch(
    orderId: Id, merchantId: Id, readinessMessage: Id, state: DispatchState, version: int,
    activeOffer: Option<Id>, activeAssignment: Option<Id>, offeredCourier: Option<Id>, assignedCourier: Option<Id>)

  datatype CourierOffer = CourierOffer(courier: Id, active: bool, expiresAt: int)

  datatype AssignmentState = Assigned | AssignmentReleased | AssignmentCancelled

  datatype Assignment = Assignment(dispatchId: Id, courier: Id, state: AssignmentState, version: int)

  datatype Pickup = Pickup(
    dispatchId: Id, assignmentId: Id, assignmentVersion: int, message: Id, orderId: Id, merchantId: Id, courier: Id,
    state: PickupState, version: int)

  /**
   A recorded custody transition, with what held when it was taken; a seal carries the code it issued
   and its expiry, a verification the code it was shown and the time.
   */
  datatype CustodyEvent = CustodyEvent(
    action: CustodyAction, actor: Id, byOwner: bool, assignmentCurrent: bool, code: Option<int>, time: int)

  datatype Challenge = Challenge(code: int, expiresAt: int, used: bool)

  datatype Custody = Custody(
    pickupId: Id, orderId: Id, merchantId: Id, courier: Id, state: CustodyState, version: int,
    challenge: Option<Challenge>, events: seq<CustodyEvent>)

  datatype Store = Store(
    owners: map<Id, Id>,  // approved merchants and their owners
    dispatches: map<Id, Dispatch>, dispatchByOrder: map<Id, Id>,
    offers: map<Id, CourierOffer>, assignments: map<Id, Assignment>,
    pickups: map<Id, Pickup>, pickupByAssignment: map<Id, Id>,
    custodies: map<Id, Custody>, custodyByOrder: map<Id, Id>)

  /** The dispatch-owned assignment bound into a pickup is the current one. */
  predicate MatchesCurrentAssignment(s: Store, p: Pickup) {
    && p.dispatchId in s.dispatches && p.assignmentId in s.assignments
    && var d := s.dispatches[p.dispatchId];
    && var a := s.assignments[p.assignmentId];
    && d.state == DispatchAssigned && d.orderId == p.orderId && d.merchantId == p.merchantId
    && d.activeAssignment == Some(p.assignmentId) && d.assignedCourier == Some(p.courier)
    && a.dispatchId == p.dispatchId && a.courier == p.courier && a.state == Assigned
    && a.version == p.assignmentVersion
  }

  predicate OwnsMerchant(s: Store, subject: Id, merchant: Id) {
    merchant in s.owners && s.owners[merchant] == subject
  }

  // ----- courier dispatch

  function AdmitReady(s: Store, dispatch: Id, order: Id, merchant: Id, message: Id, permitted: bool): Option<Store> {
    if !permitted || dispatch in s.dispatches then None
    else if order in s.dispatchByOrder then
      var existing := s.dispatchByOrder[order];
      if existing in s.dispatches && s.dispatches[existing].readinessMessage == message then Some(s) else None
    else
      Some(s.(dispatchByOrder := s.dispatchByOrder[order := dispatch],
              dispatches := s.dispatches[dispatch :=
                Dispatch(order, merchant, message, DispatchWaiting, 1, None, None, None, None)]))
  }

  function OfferCourier(s: Store, dispatch: Id, expectedVersion: int, courier: Id, offer: Id, expiresAt: int, permitted: bool)
    : Option<Store>
  {
    if !permitted || dispatch !in s.dispatches || offer in s.offers then None
    else
      var d := s.dispatches[dispatch];
      if d.version != expectedVersion || DispatchTarget(d.state, Offer).None? then None
      else
        Some(s.(offers := s.offers[offer := CourierOffer(courier, true, expiresAt)],
                dispatches := s.dispatches[dispatch :=
                  d.(state := DispatchTarget(d.state, Offer).value, version := d.version + 1,
                     offeredCourier := Some(courier), assignedCourier := None,
                     activeOffer := Some(offer), activeAssignment := None)]))
  }

  /** A courier's answer to the offer it owns; accepting creates a new assignment. */
  function RespondOffer(s: Store, dispatch: Id, expectedVersion: int, action: DispatchAction, courier: Id, assignment: Id, at: int)
    : Option<Store>
  {
    if (action != Accept && action != Decline) || dispatch !in s.dispatches || assignment in s.assignments then None
    else
      var d := s.dispatches[dispatch];
      if d.version != expectedVersion || DispatchTarget(d.state, action).None?
         || d.offeredCourier != Some(courier) || d.activeOffer.None? || d.activeOffer.value !in s.offers
      then None
      else
        var offer := s.offers[d.activeOffer.value];
        if !offer.active || offer.courier != courier || offer.expiresAt <= at then None
        else
          var accepted := action == Accept;
          Some(s.(offers := s.offers[d.activeOffer.value := offer.(active := false)],
                  assignments := if accepted
                                 then s.assignments[assignment := Assignment(dispatch, courier, Assigned, 1)]
                                 else s.assignments,
                  dispatches := s.dispatches[dispatch :=
                    d.(state := DispatchTarget(d.state, action).value, version := d.version + 1,
                       offeredCourier := if accepted then Some(courier) else None,
                       assignedCourier := if accepted then Some(courier) else None,
                       activeOffer := None,
                       activeAssignment := if accepted then Some(assignment) else None)]))
  }

  predicate CustodyAccepted(s: Store, order: Id) {
    order in s.custodyByOrder && s.custodyByOrder[order] in s.custodies
    && s.custodies[s.custodyByOrder[order]].state == Accepted
  }

  /** Closes the active assignment of a dispatch, if it is still assigned. */
  function CloseAssignment(s: Store, a: Id, state: AssignmentState): Option<Store> {
    if a !in s.assignments || s.assignments[a].state != Assigned then None
    else Some(s.(assignments := s.assignments[a :=
                   s.assignments[a].(state := state, version := s.assignments[a].version + 1)]))
  }

  /** A released assignment is closed and the dispatch waits for a courier again. */
  function ReleaseAssignment(s: Store, dispatch: Id, moved: Dispatch): Option<Store> {
    if moved.activeAssignment.None? then None
    else
      var closed := CloseAssignment(s, moved.activeAssignment.value, AssignmentReleased);
      if closed.None? then None
      else Some(closed.value.(dispatches := s.dispatches[dispatch :=
                                moved.(assignedCourier := None, activeAssignment := None)]))
  }

  /** Deactivates the dispatch's open offer; an expiry needs its time to have passed. */
  function CloseOffer(s: Store, offer: Option<Id>, expiry: Option<int>): Option<Store> {
    if offer.None? || offer.value !in s.offers || !s.offers[offer.value].active
       || (expiry.Some? && s.offers[offer.value].expiresAt > expiry.value)
    then None
    else Some(s.(offers := s.offers[offer.value := s.offers[offer.value].(active := false)]))
  }

  function CancelDispatch(s: Store, dispatch: Id, moved: Dispatch): Option<Store> {
    var revoked := if moved.activeOffer.Some? then CloseOffer(s, moved.activeOffer, None) else Some(s);
    if revoked.None? then None
    else
      var closed := if moved.activeAssignment.Some?
                    then CloseAssignment(revoked.value, moved.activeAssignment.value, AssignmentCancelled)
                    else revoked;
      if closed.None? then None
      else Some(closed.value.(dispatches := s.dispatches[dispatch :=
                                moved.(offeredCourier := None, assignedCourier := None,
                                       activeOffer := None, activeAssignment := None)]))
  }

  function WithdrawOffer(s: Store, dispatch: Id, moved: Dispatch, expiry: Option<int>): Option<Store> {
    var closed := CloseOffer(s, moved.activeOffer, expiry);
    if closed.None? then None
    else Some(closed.value.(dispatches := s.dispatches[dispatch := moved.(offeredCourier := None, activeOffer := None)]))
  }

  /** An authority action on a dispatch; release and cancel are refused once custody was accepted. */
  function AuthorityCommand(s: Store, dispatch: Id, expectedVersion: int, action: DispatchAction, at: int, permitted: bool)
    : Option<Store>
  {
    if action == Offer || action == Accept || action == Decline || !permitted || dispatch !in s.dispatches then None
    else
      var d := s.dispatches[dispatch];
      if d.version != expectedVersion then None
      else if (action == Release || action == Cancel) && CustodyAccepted(s, d.orderId) then None
      else if DispatchTarget(d.state, action).None? then None
      else
        var moved := d.(state := DispatchTarget(d.state, action).value, version := d.version + 1);
        if action == Release then ReleaseAssignment(s, dispatch, moved)
        else if action == Cancel then CancelDispatch(s, dispatch, moved)
        else if action == ConcludeUnfulfilled then Some(s.(dispatches := s.dispatches[dispatch := moved]))
        else WithdrawOffer(s, dispatch, moved, if action == Expire then Some(at) else None)
  }

  // ----- courier pickup

  /**
   A pickup is created from the dispatch's active assignment, once per assignment: the same
   message at the same assignment version finds it again, any other message is a conflict.
   */
  function ConsumeAssignment(s: Store, pickup: Id, dispatch: Id, order: Id, message: Id, messageValid: bool): Option<Store> {
    if !messageValid || pickup in s.pickups || dispatch !in s.dispatches then None
    else
      var d := s.dispatches[dispatch];
      if d.orderId != order || d.activeAssignment.None? || d.activeAssignment.value !in s.assignments then None
      else
        var a := s.assignments[d.activeAssignment.value];
        if a.state != Assigned then None
        else if d.activeAssignment.value in s.pickupByAssignment then
          var existing := s.pickupByAssignment[d.activeAssignment.value];
          if existing in s.pickups && s.pickups[existing].message == message
             && s.pickups[existing].assignmentVersion == a.version
          then Some(s) else None
        else
          Some(s.(pickupByAssignment := s.pickupByAssignment[d.activeAssignment.value := pickup],
                  pickups := s.pickups[pickup :=
                    Pickup(dispatch, d.activeAssignment.value, a.version, message, order, d.merchantId, a.courier,
                           CourierAssigned, 1)]))
  }

  predicate CourierAction(action: PickupAction) {
    action == StartTravel || action == MarkArrived || action == CorrectArrival || action == EndAttempt
  }

  predicate MerchantAction(action: PickupAction) {
    action == AcknowledgeArrival || action == CorrectWaiting || action == EndAttempt
  }

  /** What the caller presents besides the command: permission, freshness of the key, evidence and reason. */
  datatype Checks = Checks(permitted: bool, keyUnused: bool, evidenceValid: bool, reasonGiven: bool)

  /**
   A pickup command by the assigned courier (no merchant) or by a merchant owner.  Any custody
   for the order ends pickup authority; acknowledging activates custody in the same unit of work.
   */
  function PickupCommand(s: Store, subject: Id, merchant: Option<Id>, pickup: Id, expectedVersion: int,
                         action: PickupAction, custody: Id, checks: Checks): Option<Store>
  {
    if pickup !in s.pickups || !checks.permitted then None
    else
      var p := s.pickups[pickup];
      if merchant.None? && (!CourierAction(action) || p.courier != subject || !MatchesCurrentAssignment(s, p)) then None
      else if merchant.Some? && (!MerchantAction(action) || !OwnsMerchant(s, subject, merchant.value)
                                 || p.merchantId != merchant.value) then None
      else if !checks.keyUnused then None
      else if p.orderId in s.custodyByOrder || p.version != expectedVersion then None
      else if action == AcknowledgeArrival && !MatchesCurrentAssignment(s, p) then None
      else if !checks.evidenceValid || TargetState(p.state, action).None? then None
      else if action == EndAttempt && !checks.reasonGiven then None
      else
        var target := TargetState(p.state, action).value;
        var moved := s.(pickups := s.pickups[pickup := p.(state := target, version := p.version + 1)]);
        if action != AcknowledgeArrival then Some(moved)
        else if custody in s.custodies then None
        else
          Some(moved.(custodyByOrder := s.custodyByOrder[p.orderId := custody],
                      custodies := s.custodies[custody :=
                        Custody(pickup, p.orderId, p.merchantId, p.courier, CustodyWaiting, 1, None, [])]))
  }

  // ----- chain of custody

  function WithEvent(k: Custody, target: CustodyState, event: CustodyEvent): Custody {
    k.(state := target, version := k.version + 1, events := k.events + [event])
  }

  function SealOrder(s: Store, subject: Id, merchant: Id, custody: Id, expectedVersion: int, keyUnused: bool,
                     code: int, expiresAt: int): Option<Store>
  {
    if custody !in s.custodies || !OwnsMerchant(s, subject, merchant) then None
    else
      var k := s.custodies[custody];
      if k.merchantId != merchant || !keyUnused || k.version != expectedVersion || CustodyTarget(k.state, Seal).None?
      then None
      else
        Some(s.(custodies := s.custodies[custody :=
                  WithEvent(k, Sealed, CustodyEvent(Seal, subject, OwnsMerchant(s, subject, k.merchantId), IsAssigned(s, k),
                                                    Some(code), expiresAt))
                  .(challenge := Some(Challenge(code, expiresAt, false)))]))
  }

  /** Whether the courier bound into a custody still holds the assignment it was bound from. */
  predicate IsAssigned(s: Store, k: Custody) {
    k.pickupId in s.pickups && MatchesCurrentAssignment(s, s.pickups[k.pickupId])
  }

  /** A courier custody step needs a waiting pickup with the same binding and the current assignment. */
  predicate CourierMayAct(s: Store, k: Custody, subject: Id) {
    && k.courier == subject && k.pickupId in s.pickups
    && var p := s.pickups[k.pickupId];
    && p.state == Waiting && p.orderId == k.orderId && p.merchantId == k.merchantId && p.courier == subject
    && MatchesCurrentAssignment(s, p)
  }

  function CustodyCommand(s: Store, subject: Id, merchant: Option<Id>, custody: Id, expectedVersion: int,
                          action: CustodyAction, keyUnused: bool, code: Option<int>, at: int): Option<Store>
  {
    if custody !in s.custodies then None
    else
      var k := s.custodies[custody];
      if action == ReleaseOrder && (merchant.None? || !OwnsMerchant(s, subject, merchant.value)
                                    || k.merchantId != merchant.value) then None
      else if action != ReleaseOrder && !CourierMayAct(s, k, subject) then None
      else if !keyUnused || k.version != expectedVersion || action == Seal then None
      else if CustodyTarget(k.state, action).None? then None
      else if action == Verify && (code.None? || k.challenge.None? || k.challenge.value.code != code.value
                                   || k.challenge.value.used || k.challenge.value.expiresAt < at) then None
      else
        var event := CustodyEvent(action, subject, OwnsMerchant(s, subject, k.merchantId), IsAssigned(s, k), code, at);
        var moved := WithEvent(k, CustodyTarget(k.state, action).value, event);
        Some(s.(custodies := s.custodies[custody :=
                  if action == Verify then moved.(challenge := Some(k.challenge.value.(used := true))) else moved]))
  }

  // ----- runs

  datatype Command =
    | MerchantsChange(owners: map<Id, Id>)
    | Admit(dispatch: Id, order: Id, merchant: Id, message: Id, permitted: bool)
    | MakeOffer(dispatch: Id, expectedVersion: int, courier: Id, offer: Id, expiresAt: int, permitted: bool)
    | Respond(dispatch: Id, expectedVersion: int, response: DispatchAction, courier: Id, assignment: Id, at: int)
    | Authority(dispatch: Id, expectedVersion: int, decision: DispatchAction, at: int, permitted: bool)
    | StartPickup(pickup: Id, dispatch: Id, order: Id, message: Id, messageValid: bool)
    | MovePickup(subject: Id, owner: Option<Id>, pickup: Id, expectedVersion: int, move: PickupAction, custody: Id,
                 checks: Checks)
    | SealCommand(subject: Id, merchant: Id, custody: Id, expectedVersion: int, keyUnused: bool, code: int, expiresAt: int)
    | MoveCustody(subject: Id, owner: Option<Id>, custody: Id, expectedVersion: int, step: CustodyAction, keyUnused: bool,
                  shown: Option<int>, at: int)

  /** The unit of work of a command: its new tables, or nothing on a conflict. */
  function Attempt(s: Store, c: Command): Option<Store> {
    match c
    case MerchantsChange(owners) => Some(s.(owners := owners))
    case Admit(d, o, m, message, permitted) => AdmitReady(s, d, o, m, message, permitted)
    case MakeOffer(d, v, courier, offer, expires, permitted) => OfferCourier(s, d, v, courier, offer, expires, permitted)
    case Respond(d, v, action, courier, a, at) => RespondOffer(s, d, v, action, courier, a, at)
    case Authority(d, v, action, at, permitted) => AuthorityCommand(s, d, v, action, at, permitted)
    case StartPickup(p, d, o, message, valid) => ConsumeAssignment(s, p, d, o, message, valid)
    case MovePickup(subject, m, p, v, action, k, checks) => PickupCommand(s, subject, m, p, v, action, k, checks)
    case SealCommand(subject, m, k, v, unused, code, expires) => SealOrder(s, subject, m, k, v, unused, code, expires)
    case MoveCustody(subject, m, k, v, action, unused, code, at) =>
      CustodyCommand(s, subject, m, k, v, action, unused, code, at)
  }

  function Apply(s: Store, c: Command): Store {
    var t := Attempt(s, c);
    if t.Some? then t.value else s
  }

  function Execute(s: Store, trace: seq<Command>): Store
    decreases |trace|
  {
    if trace == [] then s else Execute(Apply(s, trace[0]), trace[1..])
  }

  function Empty(owners: map<Id, Id>): Store {
    Store(owners, map[], map[], map[], map[], map[], map[], map[], map[])
  }
}

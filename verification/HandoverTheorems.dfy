/** Who may move a pickup and seal an order, exactly; and that every waiting dispatch can be carried to an accepted custody. */
module HandoverTheorems {
  import opened Options
  import opened PickupEngine
  import opened Fulfilment
  import opened FulfilmentTheorems
  import opened DispatchTheorems

  // ----- who may act

  /** The assignment bound into a pickup is open. */
  predicate AssignmentOpen(s: Store, p: Pickup) {
    p.assignmentId in s.assignments && s.assignments[p.assignmentId].state == Assigned
  }

  /** The level an action starts from, in an attempt that has not ended. */
  predicate Fits(state: PickupState, action: PickupAction) {
    state != EndedBeforeCustody && (action == EndAttempt || Level(state) == From(action))
  }

  const GRANTED: Checks := Checks(true, true, true, true)

  /**
   A courier moves a pickup exactly if it is the bound courier over its open assignment, no custody
   exists for the order and the action is a courier's that fits the state.
   */
  lemma CourierMoveIsExact(s: Store, subject: Id, p: Id, action: PickupAction, k: Id)
    requires Reachable(s) && p in s.pickups
    ensures PickupCommand(s, subject, None, p, s.pickups[p].version, action, k, GRANTED).Some? <==>
            && subject == s.pickups[p].courier && AssignmentOpen(s, s.pickups[p])
            && s.pickups[p].orderId !in s.custodyByOrder
            && action != AcknowledgeArrival && action != CorrectWaiting && Fits(s.pickups[p].state, action)
  {
    CurrentMeansOpen(s, p);
    ActionsMoveOneLevel(s.pickups[p].state, action);
  }

  /**
   A merchant moves a pickup exactly if its owner asks, no custody exists for the order, the action is a
   merchant's that fits the state, and an acknowledgement finds the assignment open.
   */
  lemma MerchantMoveIsExact(s: Store, subject: Id, m: Id, p: Id, action: PickupAction, k: Id)
    requires Reachable(s) && p in s.pickups && k !in s.custodies
    ensures PickupCommand(s, subject, Some(m), p, s.pickups[p].version, action, k, GRANTED).Some? <==>
            && m == s.pickups[p].merchantId && m in s.owners && s.owners[m] == subject
            && s.pickups[p].orderId !in s.custodyByOrder
            && (action == AcknowledgeArrival || action == CorrectWaiting || action == EndAttempt)
            && Fits(s.pickups[p].state, action) && (action == AcknowledgeArrival ==> AssignmentOpen(s, s.pickups[p]))
  {
    CurrentMeansOpen(s, p);
    ActionsMoveOneLevel(s.pickups[p].state, action);
  }

  /** Nothing but such a move, by the courier or the owner of the merchant, ever changes a pickup. */
  lemma OnlyItsPartiesMoveAPickup(s: Store, command: Command, p: Id)
    requires p in s.pickups
    ensures p in Apply(s, command).pickups
    ensures Apply(s, command).pickups[p] != s.pickups[p] ==>
              && command.MovePickup? && command.pickup == p && command.expectedVersion == s.pickups[p].version
              && Apply(s, command).pickups[p].version == s.pickups[p].version + 1
              && (command.subject == s.pickups[p].courier
                  || OwnsMerchant(s, command.subject, s.pickups[p].merchantId))
  {
    if command.Authority? && Attempt(s, command).Some? {
      AuthorityShape(s, command.dispatch, command.expectedVersion, command.decision, command.at, command.permitted);
    } else if command.MovePickup? {
      MoveMovesOnePickup(s, command, p);
    }
  }

  lemma MoveMovesOnePickup(s: Store, command: Command, p: Id)
    requires p in s.pickups && command.MovePickup?
    ensures p in Apply(s, command).pickups
    ensures Apply(s, command).pickups[p] != s.pickups[p] ==>
              && command.pickup == p && command.expectedVersion == s.pickups[p].version
              && Apply(s, command).pickups[p].version == s.pickups[p].version + 1
              && (command.subject == s.pickups[p].courier
                  || OwnsMerchant(s, command.subject, s.pickups[p].merchantId))
  {
    if Attempt(s, command).Some? {
      PickupCommandShape(s, command.subject, command.owner, command.pickup, command.expectedVersion, command.move,
                         command.custody, command.checks);
    }
  }

  /** Exactly the owner of a waiting custody's merchant seals it, and the seal issues the code with its expiry. */
  lemma SealIsExact(s: Store, subject: Id, m: Id, c: Id, code: int, expiresAt: int)
    requires c in s.custodies
    ensures SealOrder(s, subject, m, c, s.custodies[c].version, true, code, expiresAt).Some? <==>
            && s.custodies[c].state == CustodyWaiting && m == s.custodies[c].merchantId
            && m in s.owners && s.owners[m] == subject
    ensures SealOrder(s, subject, m, c, s.custodies[c].version, true, code, expiresAt).Some? ==>
              var k := SealOrder(s, subject, m, c, s.custodies[c].version, true, code, expiresAt).value.custodies[c];
              k.state == Sealed && k.challenge == Some(Challenge(code, expiresAt, false))
  {
  }

  // ----- every waiting dispatch can be carried to an accepted custody

  /** The parties and the new identifiers of one delivery. */
  datatype Plan = Plan(
    dispatch: Id, order: Id, merchant: Id, owner: Id, courier: Id, offer: Id, assignment: Id, pickup: Id, message: Id,
    custody: Id, code: int, at: int)

  /** An order that waits for a courier, of a merchant with an owner, and identifiers nobody has used. */
  predicate CanStart(s: Store, x: Plan) {
    && x.dispatch in s.dispatches && s.dispatches[x.dispatch].state == DispatchWaiting
    && s.dispatches[x.dispatch].orderId == x.order && s.dispatches[x.dispatch].merchantId == x.merchant
    && OwnsMerchant(s, x.owner, x.merchant) && x.order !in s.custodyByOrder
    && x.offer !in s.offers && x.assignment !in s.assignments && x.assignment !in s.pickupByAssignment
    && x.pickup !in s.pickups && x.custody !in s.custodies
  }

  /** The courier holds the order: assigned, with an open assignment. */
  predicate Held(s: Store, x: Plan) {
    && x.dispatch in s.dispatches && x.assignment in s.assignments
    && s.dispatches[x.dispatch].state == DispatchAssigned
    && s.dispatches[x.dispatch].orderId == x.order && s.dispatches[x.dispatch].merchantId == x.merchant
    && s.dispatches[x.dispatch].activeAssignment == Some(x.assignment)
    && s.dispatches[x.dispatch].assignedCourier == Some(x.courier)
    && s.assignments[x.assignment] == Assignment(x.dispatch, x.courier, Assigned, 1)
    && OwnsMerchant(s, x.owner, x.merchant)
  }

  predicate PickedUp(s: Store, x: Plan, state: PickupState, version: int) {
    && Held(s, x) && x.pickup in s.pickups
    && s.pickups[x.pickup] ==
       Pickup(x.dispatch, x.assignment, 1, x.message, x.order, x.merchant, x.courier, state, version)
  }

  predicate InCustody(s: Store, x: Plan, state: CustodyState, version: int) {
    && PickedUp(s, x, Waiting, 4) && x.custody in s.custodies
    && var k := s.custodies[x.custody];
    && k.pickupId == x.pickup && k.orderId == x.order && k.merchantId == x.merchant && k.courier == x.courier
    && k.state == state && k.version == version
    && (state == Sealed ==> k.challenge == Some(Challenge(x.code, x.at, false)))
  }

  predicate OrderFree(s: Store, x: Plan) {
    x.order !in s.custodyByOrder && x.custody !in s.custodies
  }

  function OfferAndAccept(x: Plan, version: int): seq<Command> {
    [MakeOffer(x.dispatch, version, x.courier, x.offer, x.at + 1, true),
     Respond(x.dispatch, version + 1, Accept, x.courier, x.assignment, x.at)]
  }

  function Collect(x: Plan): seq<Command> {
    [StartPickup(x.pickup, x.dispatch, x.order, x.message, true),
     MovePickup(x.courier, None, x.pickup, 1, StartTravel, x.custody, GRANTED),
     MovePickup(x.courier, None, x.pickup, 2, MarkArrived, x.custody, GRANTED),
     MovePickup(x.owner, Some(x.merchant), x.pickup, 3, AcknowledgeArrival, x.custody, GRANTED)]
  }

  function HandOver(x: Plan): seq<Command> {
    [SealCommand(x.owner, x.merchant, x.custody, 1, true, x.code, x.at),
     MoveCustody(x.courier, None, x.custody, 2, Verify, true, Some(x.code), x.at),
     MoveCustody(x.owner, Some(x.merchant), x.custody, 3, ReleaseOrder, true, None, x.at),
     MoveCustody(x.courier, None, x.custody, 4, AcceptCustody, true, None, x.at)]
  }

  lemma {:induction false} ExecuteSplits(s: Store, a: seq<Command>, b: seq<Command>)
    ensures Execute(s, a + b) == Execute(Execute(s, a), b)
    decreases |a|
  {
    if a == [] {
      assert a + b == b;
    } else {
      assert (a + b)[1..] == a[1..] + b;
      ExecuteSplits(Apply(s, a[0]), a[1..], b);
    }
  }

  lemma ExecuteOne(s: Store, c: Command, rest: seq<Command>)
    ensures Execute(s, [c] + rest) == Execute(Apply(s, c), rest)
  {
    assert ([c] + rest)[1..] == rest;
  }

  lemma AcceptHolds(s: Store, x: Plan)
    requires CanStart(s, x)
    ensures var t := Execute(s, OfferAndAccept(x, s.dispatches[x.dispatch].version));
            && Held(t, x) && OrderFree(t, x) && x.assignment !in t.pickupByAssignment && x.pickup !in t.pickups
  {
    var v := s.dispatches[x.dispatch].version;
    var first, second := OfferAndAccept(x, v)[0], OfferAndAccept(x, v)[1];
    var t := Apply(s, first);
    assert t.dispatches[x.dispatch].state == Offered && t.dispatches[x.dispatch].version == v + 1;
    assert OfferAndAccept(x, v) == [first] + [second] && [second] == [second] + [];
    ExecuteOne(s, first, [second]);
    ExecuteOne(t, second, []);
  }

  lemma StartStep(s: Store, x: Plan)
    requires Held(s, x) && OrderFree(s, x) && x.assignment !in s.pickupByAssignment && x.pickup !in s.pickups
    ensures var t := Apply(s, Collect(x)[0]); PickedUp(t, x, CourierAssigned, 1) && OrderFree(t, x)
  {
  }

  lemma TravelStep(s: Store, x: Plan)
    requires PickedUp(s, x, CourierAssigned, 1) && OrderFree(s, x)
    ensures var t := Apply(s, Collect(x)[1]); PickedUp(t, x, Travelling, 2) && OrderFree(t, x)
  {
  }

  lemma ArriveStep(s: Store, x: Plan)
    requires PickedUp(s, x, Travelling, 2) && OrderFree(s, x)
    ensures var t := Apply(s, Collect(x)[2]); PickedUp(t, x, Arrived, 3) && OrderFree(t, x)
  {
  }

  lemma AcknowledgeStep(s: Store, x: Plan)
    requires PickedUp(s, x, Arrived, 3) && OrderFree(s, x)
    ensures InCustody(Apply(s, Collect(x)[3]), x, CustodyWaiting, 1)
  {
  }

  lemma CollectWaits(s: Store, x: Plan)
    requires Held(s, x) && OrderFree(s, x) && x.assignment !in s.pickupByAssignment && x.pickup !in s.pickups
    ensures InCustody(Execute(s, Collect(x)), x, CustodyWaiting, 1)
  {
    var c := Collect(x);
    StartStep(s, x);
    var s1 := Apply(s, c[0]);
    TravelStep(s1, x);
    var s2 := Apply(s1, c[1]);
    ArriveStep(s2, x);
    var s3 := Apply(s2, c[2]);
    AcknowledgeStep(s3, x);
    FourSteps(s, c);
  }

  lemma FourSteps(s: Store, c: seq<Command>)
    requires |c| == 4
    ensures Execute(s, c) == Apply(Apply(Apply(Apply(s, c[0]), c[1]), c[2]), c[3])
  {
    assert c == [c[0]] + ([c[1]] + ([c[2]] + ([c[3]] + [])));
    ExecuteOne(s, c[0], [c[1]] + ([c[2]] + ([c[3]] + [])));
    var s1 := Apply(s, c[0]);
    ExecuteOne(s1, c[1], [c[2]] + ([c[3]] + []));
    var s2 := Apply(s1, c[1]);
    ExecuteOne(s2, c[2], [c[3]] + []);
    ExecuteOne(Apply(s2, c[2]), c[3], []);
  }

  lemma SealStep(s: Store, x: Plan)
    requires InCustody(s, x, CustodyWaiting, 1)
    ensures InCustody(Apply(s, HandOver(x)[0]), x, Sealed, 2)
  {
  }

  lemma VerifyStep(s: Store, x: Plan)
    requires InCustody(s, x, Sealed, 2)
    ensures InCustody(Apply(s, HandOver(x)[1]), x, Verified, 3)
  {
  }

  lemma ReleaseStep(s: Store, x: Plan)
    requires InCustody(s, x, Verified, 3)
    ensures InCustody(Apply(s, HandOver(x)[2]), x, Released, 4)
  {
  }

  lemma AcceptStep(s: Store, x: Plan)
    requires InCustody(s, x, Released, 4)
    ensures InCustody(Apply(s, HandOver(x)[3]), x, Accepted, 5)
  {
  }

  /**
   From any store, a dispatch that waits, with no custody for its order yet, has a run of ten
   commands by its own courier and owner that ends with the custody accepted by that courier.
   */
  lemma EveryWaitingOrderCanBeDelivered(s: Store, x: Plan)
    requires CanStart(s, x)
    ensures var trace := OfferAndAccept(x, s.dispatches[x.dispatch].version) + Collect(x) + HandOver(x);
            InCustody(Execute(s, trace), x, Accepted, 5)
  {
    var a, b, c := OfferAndAccept(x, s.dispatches[x.dispatch].version), Collect(x), HandOver(x);
    AcceptHolds(s, x);
    var s1 := Execute(s, a);
    CollectWaits(s1, x);
    var s2 := Execute(s1, b);
    SealStep(s2, x);
    VerifyStep(Apply(s2, c[0]), x);
    ReleaseStep(Apply(Apply(s2, c[0]), c[1]), x);
    AcceptStep(Apply(Apply(Apply(s2, c[0]), c[1]), c[2]), x);
    FourSteps(s2, c);
    ExecuteSplits(s, a + b, c);
    ExecuteSplits(s, a, b);
  }
}

/**
 The fulfilment applications as they are written: each command reads records, guards, and
 updates the tables in place inside one unit of work.  A refused command writes nothing.
 */
module FulfilmentObject {
  import opened Options
  import opened PickupEngine
  import opened Fulfilment
  import opened FulfilmentTheorems

  class Repositories {
    var owners: map<Id, Id>
    var dispatches: map<Id, Dispatch>
    var dispatchByOrder: map<Id, Id>
    var offers: map<Id, CourierOffer>
    var assignments: map<Id, Assignment>
    var pickups: map<Id, Pickup>
    var pickupByAssignment: map<Id, Id>
    var custodies: map<Id, Custody>
    var custodyByOrder: map<Id, Id>

    function View(): Store
      reads this
    {
      Store(owners, dispatches, dispatchByOrder, offers, assignments, pickups, pickupByAssignment, custodies,
            custodyByOrder)
    }

    ghost predicate Valid()
      reads this
    {
      Inv(View())
    }

    constructor (approved: map<Id, Id>)
      ensures Valid() && View() == Empty(approved)
    {
      owners := approved;
      dispatches, dispatchByOrder, offers, assignments := map[], map[], map[], map[];
      pickups, pickupByAssignment, custodies, custodyByOrder := map[], map[], map[], map[];
    }

    method AdmitReadyEvent(dispatch: Id, order: Id, merchant: Id, message: Id, permitted: bool) returns (ok: bool)
      requires Valid()
      modifies this
      ensures var c := Admit(dispatch, order, merchant, message, permitted);
              Valid() && View() == Apply(old(View()), c) && ok == Attempt(old(View()), c).Some?
    {
      ghost var before := View();
      ghost var c := Admit(dispatch, order, merchant, message, permitted);
      StepKeepsInv(before, c);
      if !permitted || dispatch in dispatches {
        return false;
      }
      if order in dispatchByOrder {
        var existing := dispatchByOrder[order];
        return existing in dispatches && dispatches[existing].readinessMessage == message;
      }
      dispatchByOrder := dispatchByOrder[order := dispatch];
      dispatches := dispatches[dispatch := Dispatch(order, merchant, message, DispatchWaiting, 1, None, None, None, None)];
      assert View() == Apply(before, c);
      return true;
    }

    method Offer(dispatch: Id, expectedVersion: int, courier: Id, offer: Id, expiresAt: int, permitted: bool)
      returns (ok: bool)
      requires Valid()
      modifies this
      ensures var c := MakeOffer(dispatch, expectedVersion, courier, offer, expiresAt, permitted);
              Valid() && View() == Apply(old(View()), c) && ok == Attempt(old(View()), c).Some?
    {
      ghost var before := View();
      ghost var c := MakeOffer(dispatch, expectedVersion, courier, offer, expiresAt, permitted);
      StepKeepsInv(before, c);
      if !permitted || dispatch !in dispatches || offer in offers {
        return false;
      }
      var d := dispatches[dispatch];
      if d.version != expectedVersion || d.state != DispatchWaiting {
        return false;
      }
      offers := offers[offer := CourierOffer(courier, true, expiresAt)];
      dispatches := dispatches[dispatch :=
        d.(state := Offered, version := d.version + 1, offeredCourier := Some(courier), assignedCourier := None,
           activeOffer := Some(offer), activeAssignment := None)];
      assert View() == Apply(before, c);
      return true;
    }

    /** The guards of a courier's answer; a pass names the offer it closes. */
    method GuardAnswer(dispatch: Id, expectedVersion: int, action: DispatchAction, courier: Id, assignment: Id, at: int)
      returns (offer: Option<Id>)
      ensures offer.Some? == RespondOffer(View(), dispatch, expectedVersion, action, courier, assignment, at).Some?
      ensures offer.Some? ==>
                && (action == Accept || action == Decline) && dispatch in dispatches && dispatches[dispatch].state == Offered
                && dispatches[dispatch].activeOffer == offer && offer.value in offers
    {
      if (action != Accept && action != Decline) || dispatch !in dispatches || assignment in assignments {
        return None;
      }
      var d := dispatches[dispatch];
      if d.version != expectedVersion || d.state != Offered || d.offeredCourier != Some(courier) || d.activeOffer.None? {
        return None;
      }
      var o := d.activeOffer.value;
      if o !in offers || !offers[o].active || offers[o].courier != courier || offers[o].expiresAt <= at {
        return None;
      }
      return Some(o);
    }

    /** Closes the answered offer, and on acceptance creates the assignment. */
    method PerformAnswer(dispatch: Id, o: Id, action: DispatchAction, courier: Id, assignment: Id)
      requires dispatch in dispatches && o in offers
      modifies this
      ensures var was := old(View());
              var d, accepted := was.dispatches[dispatch], action == Accept;
              View() == was.(offers := was.offers[o := was.offers[o].(active := false)],
                             assignments := if accepted
                                            then was.assignments[assignment := Assignment(dispatch, courier, Assigned, 1)]
                                            else was.assignments,
                             dispatches := was.dispatches[dispatch :=
                               d.(state := if accepted then DispatchAssigned else DispatchWaiting, version := d.version + 1,
                                  offeredCourier := if accepted then Some(courier) else None,
                                  assignedCourier := if accepted then Some(courier) else None, activeOffer := None,
                                  activeAssignment := if accepted then Some(assignment) else None)])
    {
      var d := dispatches[dispatch];
      offers := offers[o := offers[o].(active := false)];
      if action == Accept {
        assignments := assignments[assignment := Assignment(dispatch, courier, Assigned, 1)];
        dispatches := dispatches[dispatch :=
          d.(state := DispatchAssigned, version := d.version + 1, offeredCourier := Some(courier),
             assignedCourier := Some(courier), activeOffer := None, activeAssignment := Some(assignment))];
      } else {
        dispatches := dispatches[dispatch :=
          d.(state := DispatchWaiting, version := d.version + 1, offeredCourier := None, assignedCourier := None,
             activeOffer := None, activeAssignment := None)];
      }
    }

    method Answer(dispatch: Id, expectedVersion: int, action: DispatchAction, courier: Id, assignment: Id, at: int)
      returns (ok: bool)
      requires Valid()
      modifies this
      ensures var c := Respond(dispatch, expectedVersion, action, courier, assignment, at);
              Valid() && View() == Apply(old(View()), c) && ok == Attempt(old(View()), c).Some?
    {
      StepKeepsInv(View(), Respond(dispatch, expectedVersion, action, courier, assignment, at));
      var offer := GuardAnswer(dispatch, expectedVersion, action, courier, assignment, at);
      if offer.None? {
        return false;
      }
      PerformAnswer(dispatch, offer.value, action, courier, assignment);
      return true;
    }

    /** The repository's part of an authority action, after the guards passed. */
    method Close(dispatch: Id, moved: Dispatch, action: DispatchAction, at: int) returns (ok: bool)
      modifies this
      ensures var was := old(View());
              var result := if action == Release then ReleaseAssignment(was, dispatch, moved)
                            else if action == Cancel then CancelDispatch(was, dispatch, moved)
                            else WithdrawOffer(was, dispatch, moved, if action == Expire then Some(at) else None);
              ok == result.Some? && View() == if ok then result.value else was
    {
      var offer, assignment := moved.activeOffer, moved.activeAssignment;
      var needsOffer := action != Release && (action != Cancel || offer.Some?);
      var needsAssignment := action == Release || (action == Cancel && assignment.Some?);
      if needsOffer && (offer.None? || offer.value !in offers || !offers[offer.value].active
                        || (action == Expire && offers[offer.value].expiresAt > at)) {
        return false;
      }
      if needsAssignment && (assignment.None? || assignment.value !in assignments
                             || assignments[assignment.value].state != Assigned) {
        return false;
      }
      var next := moved;
      if needsOffer {
        offers := offers[offer.value := offers[offer.value].(active := false)];
      }
      if needsAssignment {
        var a := assignments[assignment.value];
        assignments := assignments[assignment.value :=
          a.(state := if action == Release then AssignmentReleased else AssignmentCancelled, version := a.version + 1)];
      }
      if action == Release {
        next := moved.(assignedCourier := None, activeAssignment := None);
      } else if action == Cancel {
        next := moved.(offeredCourier := None, assignedCourier := None, activeOffer := None, activeAssignment := None);
      } else {
        next := moved.(offeredCourier := None, activeOffer := None);
      }
      dispatches := dispatches[dispatch := next];
      return true;
    }

    /** The guards of an authority action, and the dispatch it would move. */
    method GuardDecision(dispatch: Id, expectedVersion: int, action: DispatchAction, permitted: bool)
      returns (moved: Option<Dispatch>)
      ensures moved.None? ==> forall at :: AuthorityCommand(View(), dispatch, expectedVersion, action, at, permitted).None?
      ensures moved.Some? ==>
                forall at :: AuthorityCommand(View(), dispatch, expectedVersion, action, at, permitted)
                             == if action == Release then ReleaseAssignment(View(), dispatch, moved.value)
                                else if action == Cancel then CancelDispatch(View(), dispatch, moved.value)
                                else if action == ConcludeUnfulfilled
                                then Some(View().(dispatches := View().dispatches[dispatch := moved.value]))
                                else WithdrawOffer(View(), dispatch, moved.value, if action == Expire then Some(at) else None)
    {
      if action == Fulfilment.Offer || action == Accept || action == Decline || !permitted || dispatch !in dispatches {
        return None;
      }
      var d := dispatches[dispatch];
      if d.version != expectedVersion {
        return None;
      }
      if action == Release || action == Cancel {
        if d.orderId in custodyByOrder && custodyByOrder[d.orderId] in custodies
           && custodies[custodyByOrder[d.orderId]].state == Accepted {
          return None;
        }
      }
      var target := DispatchTarget(d.state, action);
      if target.None? {
        return None;
      }
      return Some(d.(state := target.value, version := d.version + 1));
    }

    method Decide(dispatch: Id, expectedVersion: int, action: DispatchAction, at: int, permitted: bool) returns (ok: bool)
      requires Valid()
      modifies this
      ensures var c := Authority(dispatch, expectedVersion, action, at, permitted);
              Valid() && View() == Apply(old(View()), c) && ok == Attempt(old(View()), c).Some?
    {
      ghost var c := Authority(dispatch, expectedVersion, action, at, permitted);
      StepKeepsInv(View(), c);
      var moved := GuardDecision(dispatch, expectedVersion, action, permitted);
      ghost var attempt := AuthorityCommand(View(), dispatch, expectedVersion, action, at, permitted);
      assert Attempt(View(), c) == attempt;
      if moved.None? {
        return false;
      }
      if action == ConcludeUnfulfilled {
        dispatches := dispatches[dispatch := moved.value];
        return true;
      }
      ok := Close(dispatch, moved.value, action, at);
    }

    method Consume(pickup: Id, dispatch: Id, order: Id, message: Id, messageValid: bool) returns (ok: bool)
      requires Valid()
      modifies this
      ensures var c := StartPickup(pickup, dispatch, order, message, messageValid);
              Valid() && View() == Apply(old(View()), c) && ok == Attempt(old(View()), c).Some?
    {
      ghost var before := View();
      ghost var c := StartPickup(pickup, dispatch, order, message, messageValid);
      StepKeepsInv(before, c);
      if !messageValid || pickup in pickups || dispatch !in dispatches {
        return false;
      }
      var d := dispatches[dispatch];
      if d.orderId != order || d.activeAssignment.None? || d.activeAssignment.value !in assignments {
        return false;
      }
      var a := assignments[d.activeAssignment.value];
      if a.state != Assigned {
        return false;
      }
      if d.activeAssignment.value in pickupByAssignment {
        var existing := pickupByAssignment[d.activeAssignment.value];
        return existing in pickups && pickups[existing].message == message
               && pickups[existing].assignmentVersion == a.version;
      } else {
        pickupByAssignment := pickupByAssignment[d.activeAssignment.value := pickup];
        pickups := pickups[pickup :=
          Pickup(dispatch, d.activeAssignment.value, a.version, message, order, d.merchantId, a.courier, CourierAssigned, 1)];
      }
      assert View() == Apply(before, c);
      return true;
    }

    /** Whether the caller of a pickup command may act on this pickup at all. */
    predicate MayMove(p: Pickup, subject: Id, merchant: Option<Id>, action: PickupAction)
      reads this
    {
      match merchant
      case None => CourierAction(action) && p.courier == subject && MatchesCurrentAssignment(View(), p)
      case Some(m) => MerchantAction(action) && OwnsMerchant(View(), subject, m) && p.merchantId == m
    }

    /** The guards of a pickup command, and the state it would move to. */
    method GuardMove(subject: Id, merchant: Option<Id>, pickup: Id, expectedVersion: int, action: PickupAction,
                     custody: Id, checks: Checks) returns (target: Option<PickupState>)
      ensures var r := PickupCommand(View(), subject, merchant, pickup, expectedVersion, action, custody, checks);
              && target.Some? == r.Some?
              && (target.Some? ==> pickup in pickups && TargetState(pickups[pickup].state, action) == target)
    {
      if pickup !in pickups || !checks.permitted {
        return None;
      }
      var p := pickups[pickup];
      if !MayMove(p, subject, merchant, action) || !checks.keyUnused || p.orderId in custodyByOrder
         || p.version != expectedVersion {
        return None;
      }
      if action == AcknowledgeArrival && (!MatchesCurrentAssignment(View(), p) || custody in custodies) {
        return None;
      }
      target := TargetState(p.state, action);
      if !checks.evidenceValid || (action == EndAttempt && !checks.reasonGiven) {
        return None;
      }
    }

    /** Moves the pickup, and opens custody on an acknowledgement, in one unit of work. */
    method PerformMove(pickup: Id, target: PickupState, action: PickupAction, custody: Id)
      requires pickup in pickups && TargetState(pickups[pickup].state, action) == Some(target)
      modifies this
      ensures var was := old(View());
              var q, moved := was.pickups[pickup], MovedPickup(was, pickup, action);
              View() == if action != AcknowledgeArrival then moved
                        else moved.(custodyByOrder := was.custodyByOrder[q.orderId := custody],
                                    custodies := was.custodies[custody :=
                                      Custody(pickup, q.orderId, q.merchantId, q.courier, CustodyWaiting, 1, None, [])])
    {
      var p := pickups[pickup];
      pickups := pickups[pickup := p.(state := target, version := p.version + 1)];
      if action == AcknowledgeArrival {
        custodyByOrder := custodyByOrder[p.orderId := custody];
        custodies := custodies[custody :=
          Custody(pickup, p.orderId, p.merchantId, p.courier, CustodyWaiting, 1, None, [])];
      }
    }

    method Move(subject: Id, merchant: Option<Id>, pickup: Id, expectedVersion: int, action: PickupAction, custody: Id,
                checks: Checks) returns (ok: bool)
      requires Valid()
      modifies this
      ensures var c := MovePickup(subject, merchant, pickup, expectedVersion, action, custody, checks);
              Valid() && View() == Apply(old(View()), c) && ok == Attempt(old(View()), c).Some?
    {
      ghost var before := View();
      StepKeepsInv(before, MovePickup(subject, merchant, pickup, expectedVersion, action, custody, checks));
      var target := GuardMove(subject, merchant, pickup, expectedVersion, action, custody, checks);
      if target.None? {
        return false;
      }
      PickupCommandShape(before, subject, merchant, pickup, expectedVersion, action, custody, checks);
      PerformMove(pickup, target.value, action, custody);
      return true;
    }

    method SealPackage(subject: Id, merchant: Id, custody: Id, expectedVersion: int, keyUnused: bool, code: int,
                       expiresAt: int) returns (ok: bool)
      requires Valid()
      modifies this
      ensures var c := SealCommand(subject, merchant, custody, expectedVersion, keyUnused, code, expiresAt);
              Valid() && View() == Apply(old(View()), c) && ok == Attempt(old(View()), c).Some?
    {
      ghost var before := View();
      ghost var c := SealCommand(subject, merchant, custody, expectedVersion, keyUnused, code, expiresAt);
      StepKeepsInv(before, c);
      if custody !in custodies || !OwnsMerchant(View(), subject, merchant) {
        return false;
      }
      var k := custodies[custody];
      if k.merchantId != merchant || !keyUnused || k.version != expectedVersion || k.state != CustodyWaiting {
        return false;
      }
      var event := CustodyEvent(Seal, subject, OwnsMerchant(View(), subject, k.merchantId), IsAssigned(View(), k), Some(code),
                                expiresAt);
      custodies := custodies[custody :=
        k.(state := Sealed, version := k.version + 1, events := k.events + [event],
           challenge := Some(Challenge(code, expiresAt, false)))];
      assert View() == Apply(before, c);
      return true;
    }

    /** The guards of a custody step, and the custody it would leave. */
    method GuardHandover(subject: Id, merchant: Option<Id>, custody: Id, expectedVersion: int, action: CustodyAction,
                         keyUnused: bool, code: Option<int>, at: int) returns (moved: Option<Custody>)
      ensures var r := CustodyCommand(View(), subject, merchant, custody, expectedVersion, action, keyUnused, code, at);
              moved.Some? == r.Some?
              && (moved.Some? ==> r.value == View().(custodies := View().custodies[custody := moved.value]))
    {
      if custody !in custodies {
        return None;
      }
      var k := custodies[custody];
      if action == ReleaseOrder {
        if merchant.None? || !OwnsMerchant(View(), subject, merchant.value) || k.merchantId != merchant.value {
          return None;
        }
      } else if !CourierMayAct(View(), k, subject) {
        return None;
      }
      var target := CustodyTarget(k.state, action);
      if !keyUnused || k.version != expectedVersion || action == Seal || target.None? {
        return None;
      }
      var event := CustodyEvent(action, subject, OwnsMerchant(View(), subject, k.merchantId), IsAssigned(View(), k), code, at);
      var next := k.(state := target.value, version := k.version + 1, events := k.events + [event]);
      if action == Verify {
        if code.None? || k.challenge.None? || k.challenge.value.code != code.value || k.challenge.value.used
           || k.challenge.value.expiresAt < at {
          return None;
        }
        next := next.(challenge := Some(k.challenge.value.(used := true)));
      }
      return Some(next);
    }

    method Handover(subject: Id, merchant: Option<Id>, custody: Id, expectedVersion: int, action: CustodyAction,
                    keyUnused: bool, code: Option<int>, at: int) returns (ok: bool)
      requires Valid()
      modifies this
      ensures var c := MoveCustody(subject, merchant, custody, expectedVersion, action, keyUnused, code, at);
              Valid() && View() == Apply(old(View()), c) && ok == Attempt(old(View()), c).Some?
    {
      ghost var c := MoveCustody(subject, merchant, custody, expectedVersion, action, keyUnused, code, at);
      StepKeepsInv(View(), c);
      var moved := GuardHandover(subject, merchant, custody, expectedVersion, action, keyUnused, code, at);
      if moved.None? {
        return false;
      }
      StoreCustody(custody, moved.value);
      return true;
    }

    method StoreCustody(custody: Id, k: Custody)
      modifies this`custodies
      ensures View() == old(View()).(custodies := old(custodies)[custody := k])
    {
      custodies := custodies[custody := k];
    }
  }
}

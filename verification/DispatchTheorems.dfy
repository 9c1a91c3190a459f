/** What every run keeps between dispatches, offers, assignments and pickups, and what each dispatch action does. */
module DispatchTheorems {
  import opened Options
  import opened PickupEngine
  import opened Fulfilment
  import opened FulfilmentTheorems

  // ----- the bindings

  /** An offered dispatch holds one active offer to the courier it names, an assigned one an open assignment. */
  predicate DispatchBound(s: Store, d: Id)
    requires d in s.dispatches
  {
    var it := s.dispatches[d];
    && (it.activeOffer.Some? <==> it.state == Offered)
    && (it.state == Offered ==>
          && it.activeOffer.value in s.offers && s.offers[it.activeOffer.value].active
          && it.offeredCourier == Some(s.offers[it.activeOffer.value].courier))
    && (it.activeAssignment.Some? <==> it.state == DispatchAssigned)
    && (it.state == DispatchAssigned ==>
          && it.activeAssignment.value in s.assignments
          && var a := s.assignments[it.activeAssignment.value];
          a.state == Assigned && a.dispatchId == d && it.assignedCourier == Some(a.courier))
  }

  /** An open assignment is the active one of its dispatch. */
  predicate AssignmentBound(s: Store, a: Id)
    requires a in s.assignments
  {
    s.assignments[a].state == Assigned ==>
      s.assignments[a].dispatchId in s.dispatches
      && s.dispatches[s.assignments[a].dispatchId].activeAssignment == Some(a)
  }

  /** No two dispatches share an offer. */
  predicate OffersApart(s: Store, d: Id, e: Id)
    requires d in s.dispatches && e in s.dispatches
  {
    d != e && s.dispatches[d].activeOffer.Some? ==> s.dispatches[d].activeOffer != s.dispatches[e].activeOffer
  }

  /** A pickup carries what its assignment and its dispatch say. */
  predicate PickupBound(s: Store, p: Id)
    requires p in s.pickups
  {
    var it := s.pickups[p];
    && it.assignmentId in s.assignments && it.dispatchId in s.dispatches
    && s.assignments[it.assignmentId].dispatchId == it.dispatchId
    && s.assignments[it.assignmentId].courier == it.courier
    && s.dispatches[it.dispatchId].orderId == it.orderId && s.dispatches[it.dispatchId].merchantId == it.merchantId
    && (s.assignments[it.assignmentId].state == Assigned ==>
          s.assignments[it.assignmentId].version == it.assignmentVersion)
  }

  ghost predicate Tied(s: Store) {
    && (forall d :: d in s.dispatches ==> DispatchBound(s, d))
    && (forall a :: a in s.assignments ==> AssignmentBound(s, a))
    && (forall d, e :: d in s.dispatches && e in s.dispatches ==> OffersApart(s, d, e))
    && (forall p :: p in s.pickups ==> PickupBound(s, p))
  }

  // ----- what a dispatch command may change

  /** One dispatch changes, with its own offer or assignment; its order and merchant never do. */
  ghost predicate Local(s: Store, t: Store, d: Id) {
    && t.pickups == s.pickups && d in t.dispatches
    && (forall e :: e in s.dispatches ==> e in t.dispatches)
    && (forall e :: e in t.dispatches && e != d ==> e in s.dispatches && t.dispatches[e] == s.dispatches[e])
    && (d in s.dispatches ==>
          t.dispatches[d].orderId == s.dispatches[d].orderId && t.dispatches[d].merchantId == s.dispatches[d].merchantId)
    && (forall o :: o in s.offers ==> o in t.offers)
    && (forall o :: o in s.offers && t.offers[o] != s.offers[o] ==>
          d in s.dispatches && s.dispatches[d].activeOffer == Some(o))
    && (forall a :: a in s.assignments ==> a in t.assignments)
    && (forall a :: a in s.assignments && t.assignments[a] != s.assignments[a] ==>
          && d in s.dispatches && s.dispatches[d].activeAssignment == Some(a)
          && t.assignments[a].state != Assigned && t.assignments[a].dispatchId == s.assignments[a].dispatchId
          && t.assignments[a].courier == s.assignments[a].courier)
    && (forall a :: a in t.assignments && a !in s.assignments ==> t.dispatches[d].activeAssignment == Some(a)
                                                                  && t.assignments[a].dispatchId == d)
  }

  lemma LocalKeepsDispatches(s: Store, t: Store, d: Id)
    requires Tied(s) && Local(s, t, d) && DispatchBound(t, d)
    ensures forall e :: e in t.dispatches ==> DispatchBound(t, e)
  {
    forall e | e in t.dispatches && e != d ensures DispatchBound(t, e) {
      assert DispatchBound(s, e);
      if d in s.dispatches {
        assert OffersApart(s, e, d) && DispatchBound(s, d);
      }
    }
  }

  lemma LocalKeepsAssignments(s: Store, t: Store, d: Id)
    requires Tied(s) && Local(s, t, d) && DispatchBound(t, d)
    requires d in s.dispatches && s.dispatches[d].activeAssignment.Some? ==>
               t.dispatches[d].activeAssignment == s.dispatches[d].activeAssignment
               || (s.dispatches[d].activeAssignment.value in t.assignments
                   && t.assignments[s.dispatches[d].activeAssignment.value].state != Assigned)
    ensures forall a :: a in t.assignments ==> AssignmentBound(t, a)
  {
    forall a | a in t.assignments ensures AssignmentBound(t, a) {
      if a in s.assignments {
        assert AssignmentBound(s, a);
      }
    }
  }

  lemma LocalKeepsPickups(s: Store, t: Store, d: Id)
    requires Tied(s) && Local(s, t, d)
    ensures forall p :: p in t.pickups ==> PickupBound(t, p)
  {
    forall p | p in t.pickups ensures PickupBound(t, p) {
      assert PickupBound(s, p);
    }
  }

  lemma LocalKeepsTied(s: Store, t: Store, d: Id)
    requires Tied(s) && Local(s, t, d) && DispatchBound(t, d)
    requires t.dispatches[d].activeOffer.Some? ==>
               t.dispatches[d].activeOffer.value !in s.offers
               || (d in s.dispatches && s.dispatches[d].activeOffer == t.dispatches[d].activeOffer)
    requires d in s.dispatches && s.dispatches[d].activeAssignment.Some? ==>
               t.dispatches[d].activeAssignment == s.dispatches[d].activeAssignment
               || (s.dispatches[d].activeAssignment.value in t.assignments
                   && t.assignments[s.dispatches[d].activeAssignment.value].state != Assigned)
    ensures Tied(t)
  {
    LocalKeepsDispatches(s, t, d);
    LocalKeepsAssignments(s, t, d);
    LocalKeepsPickups(s, t, d);
    forall e, f | e in t.dispatches && f in t.dispatches ensures OffersApart(t, e, f) {
      if e in s.dispatches && f in s.dispatches {
        assert OffersApart(s, e, f) && DispatchBound(s, e) && DispatchBound(s, f);
      } else {
        assert e in s.dispatches ==> DispatchBound(s, e);
        assert f in s.dispatches ==> DispatchBound(s, f);
      }
    }
  }

  // ----- every command keeps the bindings

  lemma AdmitKeepsTied(s: Store, d: Id, order: Id, merchant: Id, message: Id, permitted: bool)
    requires Tied(s) && AdmitReady(s, d, order, merchant, message, permitted).Some?
    ensures Tied(AdmitReady(s, d, order, merchant, message, permitted).value)
  {
    var t := AdmitReady(s, d, order, merchant, message, permitted).value;
    if order in s.dispatchByOrder {
      assert t == s;
    } else {
      LocalKeepsTied(s, t, d);
    }
  }

  lemma OfferKeepsTied(s: Store, d: Id, v: int, courier: Id, offer: Id, expiresAt: int, permitted: bool)
    requires Tied(s) && OfferCourier(s, d, v, courier, offer, expiresAt, permitted).Some?
    ensures Tied(OfferCourier(s, d, v, courier, offer, expiresAt, permitted).value)
  {
    assert DispatchBound(s, d);
    LocalKeepsTied(s, OfferCourier(s, d, v, courier, offer, expiresAt, permitted).value, d);
  }

  lemma RespondKeepsTied(s: Store, d: Id, v: int, action: DispatchAction, courier: Id, a: Id, at: int)
    requires Tied(s) && RespondOffer(s, d, v, action, courier, a, at).Some?
    ensures Tied(RespondOffer(s, d, v, action, courier, a, at).value)
  {
    assert DispatchBound(s, d);
    LocalKeepsTied(s, RespondOffer(s, d, v, action, courier, a, at).value, d);
  }

  /** The dispatch after an authority action moved it, before its offer or assignment is closed. */
  function Moved(s: Store, d: Id, action: DispatchAction): Dispatch
    requires d in s.dispatches && DispatchTarget(s.dispatches[d].state, action).Some?
  {
    s.dispatches[d].(state := DispatchTarget(s.dispatches[d].state, action).value, version := s.dispatches[d].version + 1)
  }

  lemma ReleaseKeepsTied(s: Store, d: Id)
    requires Tied(s) && d in s.dispatches && s.dispatches[d].state == DispatchAssigned
    ensures ReleaseAssignment(s, d, Moved(s, d, Release)).Some?
    ensures Tied(ReleaseAssignment(s, d, Moved(s, d, Release)).value)
  {
    assert DispatchBound(s, d);
    LocalKeepsTied(s, ReleaseAssignment(s, d, Moved(s, d, Release)).value, d);
  }

  /** A step of one dispatch that leaves it with no offer and no open assignment of its own. */
  ghost predicate Closes(s: Store, t: Store, d: Id)
    requires d in s.dispatches
  {
    && Local(s, t, d) && DispatchBound(t, d) && t.dispatches[d].activeOffer.None?
    && var a := s.dispatches[d].activeAssignment;
    (a.Some? ==> a.value in t.assignments && t.assignments[a.value].state != Assigned)
  }

  lemma CancelOffered(s: Store, d: Id)
    requires d in s.dispatches && DispatchBound(s, d) && s.dispatches[d].state == Offered
    ensures CancelDispatch(s, d, Moved(s, d, Cancel)).Some? && Closes(s, CancelDispatch(s, d, Moved(s, d, Cancel)).value, d)
  {
    var o := s.dispatches[d].activeOffer.value;
    var t := CancelDispatch(s, d, Moved(s, d, Cancel)).value;
    assert t.offers == s.offers[o := s.offers[o].(active := false)] && t.assignments == s.assignments;
  }

  lemma CancelAssigned(s: Store, d: Id)
    requires d in s.dispatches && DispatchBound(s, d) && s.dispatches[d].state == DispatchAssigned
    ensures CancelDispatch(s, d, Moved(s, d, Cancel)).Some? && Closes(s, CancelDispatch(s, d, Moved(s, d, Cancel)).value, d)
  {
    assert CancelDispatch(s, d, Moved(s, d, Cancel)).value.offers == s.offers;
  }

  lemma CancelWaiting(s: Store, d: Id)
    requires d in s.dispatches && DispatchBound(s, d) && s.dispatches[d].state == DispatchWaiting
    ensures CancelDispatch(s, d, Moved(s, d, Cancel)).Some? && Closes(s, CancelDispatch(s, d, Moved(s, d, Cancel)).value, d)
  {
  }

  lemma CancelKeepsTied(s: Store, d: Id)
    requires Tied(s) && d in s.dispatches && DispatchTarget(s.dispatches[d].state, Cancel).Some?
    ensures CancelDispatch(s, d, Moved(s, d, Cancel)).Some?
    ensures Tied(CancelDispatch(s, d, Moved(s, d, Cancel)).value)
  {
    assert DispatchBound(s, d);
    if s.dispatches[d].state == Offered {
      CancelOffered(s, d);
    } else if s.dispatches[d].state == DispatchAssigned {
      CancelAssigned(s, d);
    } else {
      CancelWaiting(s, d);
    }
    LocalKeepsTied(s, CancelDispatch(s, d, Moved(s, d, Cancel)).value, d);
  }

  lemma WithdrawKeepsTied(s: Store, d: Id, action: DispatchAction, expiry: Option<int>)
    requires Tied(s) && d in s.dispatches && s.dispatches[d].state == Offered && (action == Expire || action == Revoke)
    ensures WithdrawOffer(s, d, Moved(s, d, action), expiry).Some? <==>
              expiry.None? || (s.dispatches[d].activeOffer.Some? && s.dispatches[d].activeOffer.value in s.offers
                               && s.offers[s.dispatches[d].activeOffer.value].expiresAt <= expiry.value)
    ensures WithdrawOffer(s, d, Moved(s, d, action), expiry).Some? ==>
              Tied(WithdrawOffer(s, d, Moved(s, d, action), expiry).value)
  {
    assert DispatchBound(s, d);
    if WithdrawOffer(s, d, Moved(s, d, action), expiry).Some? {
      LocalKeepsTied(s, WithdrawOffer(s, d, Moved(s, d, action), expiry).value, d);
    }
  }

  lemma ConcludeKeepsTied(s: Store, d: Id)
    requires Tied(s) && d in s.dispatches && s.dispatches[d].state == DispatchWaiting
    ensures Tied(s.(dispatches := s.dispatches[d := Moved(s, d, ConcludeUnfulfilled)]))
  {
    assert DispatchBound(s, d);
    LocalKeepsTied(s, s.(dispatches := s.dispatches[d := Moved(s, d, ConcludeUnfulfilled)]), d);
  }

  /** What an authority action needs besides its permission and version. */
  predicate MayDecide(s: Store, d: Id, action: DispatchAction, at: int)
    requires d in s.dispatches
  {
    var it := s.dispatches[d];
    match action
    case Release => it.state == DispatchAssigned && !CustodyAccepted(s, it.orderId)
    case Cancel =>
      (it.state == DispatchWaiting || it.state == Offered || it.state == DispatchAssigned)
      && !CustodyAccepted(s, it.orderId)
    case Expire =>
      it.state == Offered && it.activeOffer.Some? && it.activeOffer.value in s.offers
      && s.offers[it.activeOffer.value].expiresAt <= at
    case Revoke => it.state == Offered
    case ConcludeUnfulfilled => it.state == DispatchWaiting
    case _ => false
  }

  lemma AuthorityKeepsTied(s: Store, d: Id, action: DispatchAction, at: int)
    requires Tied(s) && d in s.dispatches
    ensures AuthorityCommand(s, d, s.dispatches[d].version, action, at, true).Some? <==> MayDecide(s, d, action, at)
    ensures AuthorityCommand(s, d, s.dispatches[d].version, action, at, true).Some? ==>
              Tied(AuthorityCommand(s, d, s.dispatches[d].version, action, at, true).value)
  {
    var it := s.dispatches[d];
    if DispatchTarget(it.state, action).Some? {
      if action == Release {
        ReleaseKeepsTied(s, d);
      } else if action == Cancel {
        CancelKeepsTied(s, d);
      } else if action == Expire || action == Revoke {
        WithdrawKeepsTied(s, d, action, if action == Expire then Some(at) else None);
      } else if action == ConcludeUnfulfilled {
        ConcludeKeepsTied(s, d);
      }
    }
  }

  lemma MovedKeepsTied(s: Store, t: Store, p: Id)
    requires Tied(s) && p in s.pickups
    requires t.dispatches == s.dispatches && t.offers == s.offers && t.assignments == s.assignments
    requires p in t.pickups && t.pickups == s.pickups[p := s.pickups[p].(state := t.pickups[p].state, version := t.pickups[p].version)]
    ensures Tied(t)
  {
    SameDispatchKeepsTied(s, t);
  }

  lemma MoveKeepsTied(s: Store, command: Command)
    requires Tied(s) && command.MovePickup? && Attempt(s, command).Some?
    ensures Tied(Attempt(s, command).value)
  {
    PickupCommandShape(s, command.subject, command.owner, command.pickup, command.expectedVersion, command.move,
                       command.custody, command.checks);
    MovedKeepsTied(s, Attempt(s, command).value, command.pickup);
  }

  lemma StartKeepsTied(s: Store, command: Command)
    requires Tied(s) && command.StartPickup? && Attempt(s, command).Some?
    ensures Tied(Attempt(s, command).value)
  {
    assert DispatchBound(s, command.dispatch);
    SameDispatchKeepsTied(s, Attempt(s, command).value);
  }

  lemma PickupsKeepTied(s: Store, command: Command)
    requires Tied(s) && (command.StartPickup? || command.MovePickup?)
    ensures Tied(Apply(s, command))
  {
    if Attempt(s, command).Some? {
      if command.MovePickup? {
        MoveKeepsTied(s, command);
      } else {
        StartKeepsTied(s, command);
      }
    }
  }

  /** Pickups keep their binding, and whatever is new takes it from the active assignment. */
  lemma SameDispatchKeepsTied(s: Store, t: Store)
    requires Tied(s) && t.dispatches == s.dispatches && t.offers == s.offers && t.assignments == s.assignments
    requires forall p :: p in t.pickups ==>
               (p in s.pickups && t.pickups[p] == s.pickups[p].(state := t.pickups[p].state, version := t.pickups[p].version))
               || PickupBound(t, p)
    ensures Tied(t)
  {
    assert forall d :: d in s.dispatches ==> DispatchBound(s, d) ==> DispatchBound(t, d);
    assert forall a :: a in s.assignments ==> AssignmentBound(s, a) ==> AssignmentBound(t, a);
    assert forall d, e :: d in s.dispatches && e in s.dispatches ==> OffersApart(s, d, e) ==> OffersApart(t, d, e);
    forall p | p in t.pickups ensures PickupBound(t, p) {
      if !PickupBound(t, p) {
        assert PickupBound(s, p);
      }
    }
  }

  lemma CustodyKeepsTied(s: Store, command: Command)
    requires Tied(s) && (command.MerchantsChange? || command.SealCommand? || command.MoveCustody?)
    ensures Tied(Apply(s, command))
  {
    SameDispatchKeepsTied(s, Apply(s, command));
  }

  lemma StepKeepsTied(s: Store, command: Command)
    requires Tied(s)
    ensures Tied(Apply(s, command))
  {
    if Attempt(s, command).Some? {
      match command
      case Admit(d, o, m, message, permitted) => AdmitKeepsTied(s, d, o, m, message, permitted);
      case MakeOffer(d, v, courier, offer, expires, permitted) =>
        OfferKeepsTied(s, d, v, courier, offer, expires, permitted);
      case Respond(d, v, action, courier, a, at) => RespondKeepsTied(s, d, v, action, courier, a, at);
      case Authority(d, v, action, at, permitted) => AuthorityKeepsTied(s, d, action, at);
      case StartPickup(_, _, _, _, _) => PickupsKeepTied(s, command);
      case MovePickup(_, _, _, _, _, _, _) => PickupsKeepTied(s, command);
      case _ => CustodyKeepsTied(s, command);
    }
  }

  lemma {:induction false} RunKeepsTied(s: Store, trace: seq<Command>)
    requires Tied(s)
    ensures Tied(Execute(s, trace))
    decreases |trace|
  {
    if trace != [] {
      StepKeepsTied(s, trace[0]);
      RunKeepsTied(Apply(s, trace[0]), trace[1..]);
    }
  }

  lemma ReachableTied(s: Store)
    requires Reachable(s)
    ensures Tied(s)
  {
    var owners: map<Id, Id>, trace: seq<Command> :| s == Execute(Empty(owners), trace);
    RunKeepsTied(Empty(owners), trace);
  }

  // ----- theorems

  /** A dispatch has at most one open assignment, so one courier at a time. */
  lemma OneCourierPerDispatch(s: Store, a: Id, b: Id)
    requires Reachable(s) && a in s.assignments && b in s.assignments
    requires s.assignments[a].state == Assigned && s.assignments[b].state == Assigned
    requires s.assignments[a].dispatchId == s.assignments[b].dispatchId
    ensures a == b
  {
    ReachableTied(s);
    assert AssignmentBound(s, a) && AssignmentBound(s, b);
  }

  /** A pickup's assignment is current exactly as long as it is open: nothing else has to be compared. */
  lemma CurrentMeansOpen(s: Store, p: Id)
    requires Reachable(s) && p in s.pickups
    ensures s.pickups[p].assignmentId in s.assignments
    ensures MatchesCurrentAssignment(s, s.pickups[p]) <==> s.assignments[s.pickups[p].assignmentId].state == Assigned
  {
    ReachableTied(s);
    var it := s.pickups[p];
    assert PickupBound(s, p) && AssignmentBound(s, it.assignmentId) && DispatchBound(s, it.dispatchId);
  }

  /** An answer counts exactly from the courier the open offer names, before it expires. */
  lemma AnswerIsExact(s: Store, d: Id, action: DispatchAction, courier: Id, a: Id, at: int)
    requires Reachable(s) && d in s.dispatches && a !in s.assignments && (action == Accept || action == Decline)
    ensures RespondOffer(s, d, s.dispatches[d].version, action, courier, a, at).Some? <==>
              && s.dispatches[d].state == Offered && s.dispatches[d].offeredCourier == Some(courier)
              && s.dispatches[d].activeOffer.Some? && s.dispatches[d].activeOffer.value in s.offers
              && at < s.offers[s.dispatches[d].activeOffer.value].expiresAt
  {
    ReachableTied(s);
    assert DispatchBound(s, d);
  }

  /** An accepted answer opens an assignment of that courier; a declined one leaves the dispatch waiting. */
  lemma AnswerDecides(s: Store, d: Id, v: int, action: DispatchAction, courier: Id, a: Id, at: int)
    requires RespondOffer(s, d, v, action, courier, a, at).Some?
    ensures var t := RespondOffer(s, d, v, action, courier, a, at).value;
            && d in t.dispatches && t.dispatches[d].version == s.dispatches[d].version + 1
            && s.dispatches[d].activeOffer.Some? && s.dispatches[d].activeOffer.value in t.offers
            && !t.offers[s.dispatches[d].activeOffer.value].active
            && (action == Accept ==>
                  && t.dispatches[d].state == DispatchAssigned && t.dispatches[d].assignedCourier == Some(courier)
                  && t.dispatches[d].activeAssignment == Some(a) && t.assignments == s.assignments[a := t.assignments[a]]
                  && t.assignments[a].courier == courier && t.assignments[a].state == Assigned)
            && (action == Decline ==> t.dispatches[d].state == DispatchWaiting && t.assignments == s.assignments)
  {
  }

  /** An authority action on a dispatch of the presented version is granted exactly when its state allows it. */
  lemma DecisionIsExact(s: Store, d: Id, action: DispatchAction, at: int)
    requires Reachable(s) && d in s.dispatches
    ensures AuthorityCommand(s, d, s.dispatches[d].version, action, at, true).Some? <==> MayDecide(s, d, action, at)
  {
    ReachableTied(s);
    AuthorityKeepsTied(s, d, action, at);
  }

  /** A released or withdrawn dispatch waits again, its former offer or assignment closed. */
  lemma ReleasedWaitsAgain(s: Store, d: Id, v: int, action: DispatchAction, at: int)
    requires Reachable(s) && (action == Release || action == Expire || action == Revoke)
    requires AuthorityCommand(s, d, v, action, at, true).Some?
    ensures var t := AuthorityCommand(s, d, v, action, at, true).value;
            && d in t.dispatches && t.dispatches[d].state == DispatchWaiting && t.dispatches[d].version == v + 1
            && t.dispatches[d].activeOffer.None? && t.dispatches[d].activeAssignment.None?
            && (action == Release ==>
                  && d in s.dispatches && s.dispatches[d].activeAssignment.Some?
                  && s.dispatches[d].activeAssignment.value in t.assignments
                  && t.assignments[s.dispatches[d].activeAssignment.value].state == AssignmentReleased)
  {
    ReachableTied(s);
    assert DispatchBound(s, d);
  }

  /** A waiting dispatch can be offered to any courier, and then names that courier and offer. */
  lemma WaitingCanBeOffered(s: Store, d: Id, courier: Id, offer: Id, expiresAt: int)
    requires d in s.dispatches && offer !in s.offers
    ensures OfferCourier(s, d, s.dispatches[d].version, courier, offer, expiresAt, true).Some? <==>
              s.dispatches[d].state == DispatchWaiting
    ensures s.dispatches[d].state == DispatchWaiting ==>
              var t := OfferCourier(s, d, s.dispatches[d].version, courier, offer, expiresAt, true).value;
              && t.dispatches[d].state == Offered && t.dispatches[d].offeredCourier == Some(courier)
              && t.dispatches[d].activeOffer == Some(offer) && t.offers[offer] == CourierOffer(courier, true, expiresAt)
  {
  }

  predicate Terminal(s: Store, d: Id) {
    d in s.dispatches && (s.dispatches[d].state == DispatchCancelled || s.dispatches[d].state == Unfulfilled)
  }

  lemma NothingOpenLeft(s: Store, t: Store, d: Id)
    requires Tied(t) && Terminal(t, d)
    requires forall a :: a in s.assignments ==> a in t.assignments && t.assignments[a].dispatchId == s.assignments[a].dispatchId
    ensures forall a :: a in s.assignments && s.assignments[a].dispatchId == d ==>
              a in t.assignments && t.assignments[a].state != Assigned
  {
    assert DispatchBound(t, d);
    forall a | a in s.assignments && s.assignments[a].dispatchId == d
      ensures a in t.assignments && t.assignments[a].state != Assigned
    {
      assert AssignmentBound(t, a);
    }
  }

  lemma CancelEnds(s: Store, d: Id, v: int, action: DispatchAction, at: int)
    requires Reachable(s) && (action == Cancel || action == ConcludeUnfulfilled)
    requires AuthorityCommand(s, d, v, action, at, true).Some?
    ensures Terminal(AuthorityCommand(s, d, v, action, at, true).value, d)
    ensures forall a :: a in s.assignments && s.assignments[a].dispatchId == d ==>
              a in AuthorityCommand(s, d, v, action, at, true).value.assignments
              && AuthorityCommand(s, d, v, action, at, true).value.assignments[a].state != Assigned
  {
    ReachableTied(s);
    AuthorityKeepsTied(s, d, action, at);
    var t := AuthorityCommand(s, d, v, action, at, true).value;
    AuthorityShape(s, d, v, action, at, true);
    NothingOpenLeft(s, t, d);
  }

  lemma DispatchCommandKeepsTerminal(s: Store, command: Command, d: Id)
    requires Terminal(s, d) && (command.Admit? || command.MakeOffer? || command.Respond?)
    ensures d in Apply(s, command).dispatches && Apply(s, command).dispatches[d] == s.dispatches[d]
  {
  }

  lemma AuthorityKeepsTerminal(s: Store, command: Command, d: Id)
    requires Terminal(s, d) && command.Authority?
    ensures d in Apply(s, command).dispatches && Apply(s, command).dispatches[d] == s.dispatches[d]
  {
    if Attempt(s, command).Some? {
      AuthorityShape(s, command.dispatch, command.expectedVersion, command.decision, command.at, command.permitted);
    }
  }

  /** A cancelled or unfulfilled dispatch is final: no command changes it, so it is never offered again. */
  lemma TerminalStep(s: Store, command: Command, d: Id)
    requires Terminal(s, d)
    ensures d in Apply(s, command).dispatches && Apply(s, command).dispatches[d] == s.dispatches[d]
  {
    if command.Authority? {
      AuthorityKeepsTerminal(s, command, d);
    } else if command.Admit? || command.MakeOffer? || command.Respond? {
      DispatchCommandKeepsTerminal(s, command, d);
    } else if !command.MerchantsChange? {
      OthersKeepDispatches(s, command);
    }
  }

  lemma OthersKeepDispatches(s: Store, command: Command)
    requires command.StartPickup? || command.MovePickup? || command.SealCommand? || command.MoveCustody?
    ensures Apply(s, command).dispatches == s.dispatches
  {
    if command.MovePickup? && Attempt(s, command).Some? {
      PickupCommandShape(s, command.subject, command.owner, command.pickup, command.expectedVersion, command.move,
                         command.custody, command.checks);
    }
  }

  lemma {:induction false} TerminalIsFinal(s: Store, trace: seq<Command>, d: Id)
    requires Terminal(s, d)
    ensures d in Execute(s, trace).dispatches && Execute(s, trace).dispatches[d] == s.dispatches[d]
    decreases |trace|
  {
    if trace != [] {
      TerminalStep(s, trace[0], d);
      TerminalIsFinal(Apply(s, trace[0]), trace[1..], d);
    }
  }
}

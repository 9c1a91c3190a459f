/**
 The reconciliation reads of both mobile commands against the backend's pickup state machine:
 what each classification says about everything that happened since the attempt was made.
 */
module ReconciliationReads {
  import opened PickupEngine
  import Courier = CourierCommand
  import Merchant = MerchantCommand

  /** The courier's view of a pickup; the mark-arrived action is presented exactly while travelling. */
  function CourierView(pickupId: string, p: Versioned): Courier.PickupSnapshot {
    Courier.PickupSnapshot(pickupId, p.state, p.version, p.state == Travelling)
  }

  /** A pickup that ended stays as it is. */
  lemma {:induction false} EndedAbsorbs(p: Versioned, actions: seq<PickupAction>)
    requires p.state == EndedBeforeCustody
    ensures Run(p, actions) == p && Applied(p, actions) == []
    decreases |actions|
  {
    if actions != [] {
      EndedAbsorbs(p, actions[1..]);
    }
  }

  /** From travelling, the first thing that happens is an arrival or the end of the attempt. */
  lemma {:induction false} FirstStepFromTravelling(p: Versioned, actions: seq<PickupAction>)
    requires p.state == Travelling
    ensures var applied := Applied(p, actions);
            applied == []
            || applied[0] == (MarkArrived, p.version)
            || (applied == [(EndAttempt, p.version)] && Run(p, actions).state == EndedBeforeCustody)
    decreases |actions|
  {
    if actions != [] {
      if TargetState(p.state, actions[0]).None? {
        FirstStepFromTravelling(p, actions[1..]);
      } else if actions[0] == EndAttempt {
        EndedAbsorbs(Advance(p, actions[0]), actions[1..]);
      }
    }
  }

  /** A run that moved a pickup into waiting ended with an acknowledgement, at no lower version than it started. */
  lemma {:induction false} WaitingWasAcknowledged(p: Versioned, actions: seq<PickupAction>)
    requires Run(p, actions).state == Waiting && Applied(p, actions) != []
    ensures var last := Applied(p, actions)[|Applied(p, actions)| - 1];
            last.0 == AcknowledgeArrival && last.1 == Run(p, actions).version - 1 && last.1 >= p.version
    decreases |actions|
  {
    var q := Advance(p, actions[0]);
    var rest := Applied(q, actions[1..]);
    VersionCountsApplied(q, actions[1..]);
    if rest != [] {
      WaitingWasAcknowledged(q, actions[1..]);
    }
  }

  /** Two transitions at least lead from travelling to waiting. */
  lemma {:induction false} WaitingTakesTwoSteps(p: Versioned, actions: seq<PickupAction>)
    requires p.state == Travelling && Run(p, actions).state == Waiting
    ensures |Applied(p, actions)| >= 2
    decreases |actions|
  {
    if TargetState(p.state, actions[0]).None? {
      WaitingTakesTwoSteps(p, actions[1..]);
    } else {
      VersionCountsApplied(Advance(p, actions[0]), actions[1..]);
    }
  }

  /**
   A mark-arrived read says "retry" exactly when nothing has happened since, and "already
   applied" exactly when the pickup has arrived or waits, in which case the first thing that
   happened was the arrival, at exactly the attempt's version.
   */
  lemma MarkArrivedReadIsExact(attempt: Courier.Attempt, actions: seq<PickupAction>)
    ensures var start := Versioned(Travelling, attempt.expectedVersion);
            var read := Courier.ReconcileRead(CourierView(attempt.pickupId, Run(start, actions)), attempt);
            var applied := Applied(start, actions);
            && (read.RetrySameAttempt? <==> applied == [])
            && (read.AlreadyApplied? <==> Run(start, actions).state == Arrived || Run(start, actions).state == Waiting)
            && (read.AlreadyApplied? ==> applied != [] && applied[0] == (MarkArrived, attempt.expectedVersion))
            && (read.Invalidated? ==> applied != [])
  {
    var start := Versioned(Travelling, attempt.expectedVersion);
    VersionCountsApplied(start, actions);
    FirstStepFromTravelling(start, actions);
    if Run(start, actions).state == Waiting {
      WaitingTakesTwoSteps(start, actions);
    }
  }

  /** A merchant snapshot of a pickup state; the timestamps are whatever the read returned. */
  predicate ViewsPickup(view: Merchant.PickupSnapshot, pickupId: string, p: Versioned) {
    && Merchant.SnapshotIsValid(view)
    && view.pickupId == pickupId && view.state == p.state && view.version == p.version
  }

  /**
   From arrived at the attempt's version, the merchant read says "retry" only when nothing has
   happened, and "already applied" exactly when the pickup waits and its timestamps prove it;
   the last thing that happened was then an acknowledgement at or above the attempt's version.
   */
  lemma AcknowledgeReadIsExact(attempt: Merchant.Attempt, actions: seq<PickupAction>, view: Merchant.PickupSnapshot)
    requires Merchant.AttemptIsValid(attempt)
    requires ViewsPickup(view, attempt.pickupId, Run(Versioned(Arrived, attempt.expectedVersion), actions))
    ensures var start := Versioned(Arrived, attempt.expectedVersion);
            var read := Merchant.ReconcileRead(view, attempt);
            var applied := Applied(start, actions);
            && (read.Some? && read.value.RetrySameAttempt? <==> applied == [] && view.offersAcknowledge)
            && (read.Some? && read.value.AlreadyApplied? <==>
                view.state == Waiting && Merchant.WaitingProvesAcknowledgement(view))
            && (read.None? <==> view.state == Waiting && !Merchant.WaitingProvesAcknowledgement(view))
            && (view.state == Waiting ==>
                  && applied != []
                  && applied[|applied| - 1] == (AcknowledgeArrival, view.version - 1)
                  && view.version - 1 >= attempt.expectedVersion)
  {
    var start := Versioned(Arrived, attempt.expectedVersion);
    VersionCountsApplied(start, actions);
    if view.state == Waiting {
      WaitingWasAcknowledged(start, actions);
    }
  }
}

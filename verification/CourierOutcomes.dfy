/** What a mark-arrived operation ends as, answer by answer, and that every outcome has its answer in the run. */
module CourierOutcomes {
  import opened Options
  import opened Identifiers
  import opened PickupEngine
  import opened CourierCommand
  import opened CourierController
  import opened ReconciliationReads
  import CourierTheorems

  // ----- when a press submits

  /** The condition of an attempt is live exactly when its operation is current and its own evidence stands. */
  lemma LiveIsCurrentWithEvidence(scope: Scope, attempt: Attempt)
    ensures MatchesScope(attempt, scope.CurrentScope()) <==>
            scope.OperationIsCurrent(attempt) && scope.EvidenceMatchesAttempt(attempt)
  {
  }

  predicate Creatable(scope: Scope, key: string) {
    scope.CurrentScope().Some? && CreateAttempt(scope.CurrentScope().value, key).Some?
  }

  /**
   In every reachable state, pressing starts a flight exactly if no failure is latched and either the
   standing operation has never been answered or may be retried, with no flight, current and over its
   own evidence; or no operation stands for the condition and a new attempt can be created.
   */
  lemma PressSubmitsExactly(s: State, key: string)
    requires CourierTheorems.Reachable(s)
    ensures var t := Apply(s, MarkArrivedPressed(key));
            |t.flights| == |s.flights| + 1 <==>
              && !s.unexpectedSubmitFailure
              && if !HasOperation(s) then Creatable(s.scope, key)
                 else
                   var op := s.ops[s.current.value];
                   if op.settled == None || op.settled == Some(RetryAttempt) || op.settled == Some(OutcomeUnknown) then
                     && op.inFlight.None?
                     && if s.scope.OperationIsCurrent(op.attempt)
                        then op.settled != Some(OutcomeUnknown) && s.scope.EvidenceMatchesAttempt(op.attempt)
                        else Creatable(s.scope, key)
                   else
                     && Creatable(s.scope, key)
                     && (op.settled == Some(Outcome.Applied) ==>
                           !(s.scope.OperationIsCurrent(op.attempt) && s.scope.EvidenceMatchesAttempt(op.attempt)))
  {
    CourierTheorems.ReachableInv(s);
    if HasOperation(s) {
      assert CourierTheorems.OpOk(s, s.current.value);
      LiveIsCurrentWithEvidence(s.scope, s.ops[s.current.value].attempt);
    }
    if Creatable(s.scope, key) {
      CreatedIsLive(s.scope, key);
    }
  }

  lemma CreatedIsLive(scope: Scope, key: string)
    requires Creatable(scope, key)
    ensures var attempt := CreateAttempt(scope.CurrentScope().value, key).value;
            scope.(attempts := scope.attempts + [attempt]).ResolvesForSubmit(|scope.attempts|)
  {
  }

  // ----- one answer

  /** What a submit of a running flight ends as; an unexpected failure settles only through a recovery. */
  lemma SubmitIsExact(s: State, i: nat, reply: SubmitReply)
    requires Exists(s, i) && s.flights[i].stage == Running && s.flights[i].kind == SubmitFlight
    ensures var o, t := s.flights[i].op, Apply(s, SubmitReplied(i, reply));
            var settled := t.ops[o].settled;
            && (reply.SubmitSucceeded? ==> settled == Some(Applied))
            && (reply.SubmitUnknown? ==> settled == Some(OutcomeUnknown))
            && (reply.SubmitRejected? ==> settled == Some(Rejected(reply.rejection)))
            && (reply.SubmitContract? ==> settled == Some(Rejected(Malformed)))
            && (reply.SubmitInvalid? ==> settled == Some(Invalid(ScopeChanged)))
            && (reply.SubmitPublic? ==>
                  settled == Some(if reply.error.authorityLost then Invalid(AuthorityLost)
                                  else if reply.error.malformed then Rejected(Malformed) else Rejected(RefreshRequired)))
            && (reply.SubmitUnexpected? ==>
                  settled == s.ops[o].settled
                  || (RecoveryConsumable(s, o) && !s.scope.ResolvesForSubmit(s.ops[o].handle)
                      && settled == Some(Invalid(ScopeChanged))))
            && (!reply.SubmitUnexpected? ==> !t.scope.EvidenceMatchesAttempt(s.ops[o].attempt))
  {
  }

  /** Retry evidence of the courier is published exactly for the unchanged condition, over no foreign evidence. */
  lemma RetryIsExact(scope: Scope, attempt: Attempt, p: PickupSnapshot)
    ensures scope.PublishRetry(attempt, p).1 <==>
            && scope.OperationIsCurrent(attempt) && p.pickupId == attempt.pickupId && p.state == Travelling
            && p.version == attempt.expectedVersion && p.offersMarkArrived
            && (scope.evidence.None? || scope.EvidenceMatchesAttempt(attempt))
    ensures scope.PublishRetry(attempt, p).1 ==>
              MatchesScope(attempt, scope.PublishRetry(attempt, p).0.CurrentScope())
  {
    if scope.context.Some? {
      LowerIdempotent(scope.context.value.pickupId);
    }
  }

  predicate StillTravelling(p: PickupSnapshot, attempt: Attempt) {
    p.pickupId == attempt.pickupId && p.state == Travelling && p.version == attempt.expectedVersion && p.offersMarkArrived
  }

  /** One transition above the attempt's version for an arrival, two for a waiting courier. */
  predicate HasArrived(p: PickupSnapshot, attempt: Attempt) {
    && p.pickupId == attempt.pickupId
    && ((p.state == Arrived && p.version > attempt.expectedVersion)
        || (p.state == Waiting && p.version > attempt.expectedVersion + 1))
  }

  /**
   A reconciliation read decides the outcome: applied exactly if the pickup has arrived, retry exactly
   if it still travels at the attempt's version with the action offered and the condition could be
   published again, and otherwise invalid with its reason.
   */
  lemma ReconciliationIsExact(s: State, i: nat, p: PickupSnapshot)
    requires Exists(s, i) && s.flights[i].stage == Running && s.flights[i].kind == ReconcileFlight
    ensures var o, attempt := s.flights[i].op, s.ops[s.flights[i].op].attempt;
            var t := Apply(s, ReconcileReplied(i, Answer(ReconcileRead(p, attempt))));
            var restorable := && s.scope.OperationIsCurrent(attempt)
                              && (s.scope.evidence.None? || s.scope.EvidenceMatchesAttempt(attempt));
            && t.ops[o].settled.Some?
            && var outcome := t.ops[o].settled.value;
            && (outcome == Applied <==> HasArrived(p, attempt))
            && (outcome == RetryAttempt <==> StillTravelling(p, attempt) && restorable)
            && (outcome == Invalid(ScopeChanged) <==> StillTravelling(p, attempt) && !restorable)
            && (outcome == Invalid(StateChanged) <==> !HasArrived(p, attempt) && !StillTravelling(p, attempt))
  {
    RetryIsExact(s.scope, s.ops[s.flights[i].op].attempt, p);
  }

  /** A failed read leaves the outcome unknown only if it is ambiguous; what it settles, it settles as it says. */
  lemma FailedReadIsExact(s: State, i: nat, reply: ReconcileReply)
    requires Exists(s, i) && s.flights[i].stage == Running && s.flights[i].kind == ReconcileFlight && !reply.Answer?
    ensures var o, t := s.flights[i].op, Apply(s, ReconcileReplied(i, reply));
            var settled := t.ops[o].settled;
            && (reply.ReadContract? ==> settled == Some(Rejected(Malformed)))
            && (reply.ReadInvalid? ==> settled == Some(Invalid(ScopeChanged)))
            && (reply.ReadUnexpected? || (reply.ReadPublic? && reply.error.ambiguous) ==>
                  settled == s.ops[o].settled && t.scope == s.scope)
            && (reply.ReadPublic? && !reply.error.ambiguous ==>
                  settled == Some(if reply.error.authorityLost then Invalid(AuthorityLost)
                                  else if reply.error.malformed then Rejected(Malformed) else Rejected(RefreshRequired)))
  {
  }

  // ----- every outcome has its answer

  /** The event hands a running flight of the operation the answer that this outcome stands for. */
  predicate Answers(s: State, e: Event, o: nat, outcome: Outcome) {
    && o < |s.ops|
    && match e
       case SubmitReplied(i, reply) =>
         && i < |s.flights| && s.flights[i] == Flight(o, SubmitFlight, Running)
         && (match outcome
             case Applied => reply.SubmitSucceeded?
             case OutcomeUnknown => reply.SubmitUnknown?
             case RetryAttempt => false
             case Rejected(r) =>
               || reply == SubmitRejected(r)
               || (reply == SubmitContract && r == Malformed)
               || (reply.SubmitPublic? && !reply.error.authorityLost
                   && r == if reply.error.malformed then Malformed else RefreshRequired)
             case Invalid(_) => false)
       case ReconcileReplied(i, reply) =>
         && i < |s.flights| && s.flights[i] == Flight(o, ReconcileFlight, Running)
         && (match outcome
             case Applied => reply.Answer? && reply.value.AlreadyApplied?
             case OutcomeUnknown => false
             case RetryAttempt =>
               && reply.Answer? && reply.value.RetrySameAttempt?
               && StillTravelling(reply.value.pickup, s.ops[o].attempt) && s.scope.OperationIsCurrent(s.ops[o].attempt)
             case Rejected(r) =>
               || (reply == ReadContract && r == Malformed)
               || (reply.ReadPublic? && !reply.error.authorityLost && !reply.error.ambiguous
                   && r == if reply.error.malformed then Malformed else RefreshRequired)
             case Invalid(_) => false)
       case _ => false
  }

  predicate HasOutcome(s: State, o: nat, outcome: Outcome) {
    o < |s.ops| && s.ops[o].settled == Some(outcome)
  }

  /** A step that settles nothing, or only as invalid, and keeps every attempt. */
  ghost predicate SettlesNothing(s: State, t: State) {
    && |s.ops| <= |t.ops|
    && (forall o :: 0 <= o < |s.ops| ==>
          && t.ops[o].attempt == s.ops[o].attempt
          && (t.ops[o].settled == s.ops[o].settled || (t.ops[o].settled.Some? && t.ops[o].settled.value.Invalid?)))
    && (forall o :: |s.ops| <= o < |t.ops| ==> t.ops[o].settled.None? || t.ops[o].settled.value.Invalid?)
  }

  lemma CreateSettlesNothing(s: State, key: string)
    ensures SettlesNothing(s, CreateAttemptStep(s, key).0)
  {
  }

  lemma SubmitSettlesNothing(s: State, handle: nat)
    ensures SettlesNothing(s, SubmitStep(s, handle))
  {
  }

  lemma SettlesNothingTwice(s: State, t: State, u: State)
    requires SettlesNothing(s, t) && SettlesNothing(t, u)
    ensures SettlesNothing(s, u)
  {
  }

  lemma PressSettlesNothing(s: State, key: string)
    ensures SettlesNothing(s, MarkArrivedStep(s, key))
  {
    if !s.unexpectedSubmitFailure {
      var (created, handle) := CreateAttemptStep(s, key);
      CreateSettlesNothing(s, key);
      if handle.Some? {
        SubmitSettlesNothing(created, handle.value);
        SettlesNothingTwice(s, created, SubmitStep(created, handle.value));
      }
    }
  }

  /** Everything but an answer of the command service. */
  lemma OthersSettleNothing(s: State, e: Event)
    requires !e.SubmitReplied? && !e.ReconcileReplied?
    ensures SettlesNothing(s, Apply(s, e))
  {
    match e
    case MarkArrivedPressed(key) => PressSettlesNothing(s, key);
    case AttemptCreated(key) => CreateSettlesNothing(s, key);
    case HandleSubmitted(handle) => SubmitSettlesNothing(s, handle);
    case _ =>
  }

  lemma SubmitReplyAnswers(s: State, i: nat, reply: SubmitReply, o: nat, outcome: Outcome)
    requires Exists(s, i) && !outcome.Invalid? && HasOutcome(SubmitReturns(s, i, reply), o, outcome)
    ensures HasOutcome(s, o, outcome) || Answers(s, SubmitReplied(i, reply), o, outcome)
  {
  }

  lemma ReconcileReplyAnswers(s: State, i: nat, reply: ReconcileReply, o: nat, outcome: Outcome)
    requires Exists(s, i) && !outcome.Invalid? && HasOutcome(ReconcileReturns(s, i, reply), o, outcome)
    ensures HasOutcome(s, o, outcome) || Answers(s, ReconcileReplied(i, reply), o, outcome)
  {
    if reply.Answer? && reply.value.RetrySameAttempt? {
      RetryIsExact(s.scope, s.ops[s.flights[i].op].attempt, reply.value.pickup);
    }
  }

  lemma StepAnswers(s: State, e: Event, o: nat, outcome: Outcome)
    requires !outcome.Invalid? && HasOutcome(Apply(s, e), o, outcome)
    ensures HasOutcome(s, o, outcome) || Answers(s, e, o, outcome)
  {
    if e.SubmitReplied? {
      if Exists(s, e.flight) {
        SubmitReplyAnswers(s, e.flight, e.submit, o, outcome);
      }
    } else if e.ReconcileReplied? {
      if Exists(s, e.flight) {
        ReconcileReplyAnswers(s, e.flight, e.read, o, outcome);
      }
    } else {
      OthersSettleNothing(s, e);
    }
  }

  lemma {:induction false} ExecuteSplits(s: State, trace: seq<Event>, k: nat)
    requires k <= |trace|
    ensures Execute(s, trace) == Execute(Execute(s, trace[..k]), trace[k..])
    decreases |trace|
  {
    if k == 0 {
      assert trace[0..] == trace;
    } else {
      assert trace[..k][0] == trace[0] && trace[..k][1..] == trace[1..][..k - 1] && trace[k..] == trace[1..][k - 1..];
      ExecuteSplits(Apply(s, trace[0]), trace[1..], k - 1);
    }
  }

  ghost predicate AnsweredIn(s: State, trace: seq<Event>, o: nat, outcome: Outcome, k: nat) {
    k < |trace| && Answers(Execute(s, trace[..k]), trace[k], o, outcome)
  }

  /**
   In every run, over every entry point, an operation that ends applied, unknown, retryable or
   rejected was handed, in one of its own running flights, the answer that says so.
   */
  lemma {:induction false} OutcomeWasAnswered(s: State, trace: seq<Event>, o: nat, outcome: Outcome) returns (k: nat)
    requires !outcome.Invalid? && HasOutcome(Execute(s, trace), o, outcome) && !HasOutcome(s, o, outcome)
    ensures AnsweredIn(s, trace, o, outcome, k)
    decreases |trace|
  {
    if trace != [] {
      var n := |trace| - 1;
      var t := Execute(s, trace[..n]);
      ExecuteSplits(s, trace, n);
      assert trace[n..] == [trace[n]] && Execute(t, [trace[n]]) == Apply(t, trace[n]);
      StepAnswers(t, trace[n], o, outcome);
      if Answers(t, trace[n], o, outcome) {
        k := n;
      } else {
        k := OutcomeWasAnswered(s, trace[..n], o, outcome);
        assert trace[..n][..k] == trace[..k];
      }
    }
  }

  lemma StepKeepsAttempts(s: State, e: Event, o: nat)
    requires o < |s.ops|
    ensures o < |Apply(s, e).ops| && Apply(s, e).ops[o].attempt == s.ops[o].attempt
  {
    if !e.SubmitReplied? && !e.ReconcileReplied? {
      OthersSettleNothing(s, e);
    }
  }

  lemma {:induction false} AttemptsNeverChange(s: State, trace: seq<Event>, o: nat)
    requires o < |s.ops|
    ensures o < |Execute(s, trace).ops| && Execute(s, trace).ops[o].attempt == s.ops[o].attempt
    decreases |trace|
  {
    if trace != [] {
      StepKeepsAttempts(s, trace[0], o);
      AttemptsNeverChange(Apply(s, trace[0]), trace[1..], o);
    }
  }

  /** Every answer of a read classifies the pickup as the backend left it after some actions from the attempt's version. */
  ghost predicate ReadsThePickup(attempt: Attempt, trace: seq<Event>, actions: seq<seq<PickupAction>>) {
    && |actions| == |trace|
    && forall n :: 0 <= n < |trace| && trace[n].ReconcileReplied? && trace[n].read.Answer? ==>
         trace[n].read.value == ReconcileRead(
           CourierView(attempt.pickupId, Run(Versioned(Travelling, attempt.expectedVersion), actions[n])), attempt)
  }

  /**
   An applied operation was confirmed by its submit, or a read showed a pickup whose first
   transition since the attempt was the arrival, at exactly the attempt's version.
   */
  lemma AppliedWasArrival(identity: Option<Identity>, context: Option<Context>, trace: seq<Event>, o: nat,
                          actions: seq<seq<PickupAction>>)
    returns (k: nat)
    requires HasOutcome(Execute(Initial(identity, context), trace), o, Outcome.Applied)
    requires ReadsThePickup(Execute(Initial(identity, context), trace).ops[o].attempt, trace, actions)
    ensures k < |trace|
    ensures var attempt := Execute(Initial(identity, context), trace).ops[o].attempt;
            var applied := PickupEngine.Applied(Versioned(Travelling, attempt.expectedVersion), actions[k]);
            || (trace[k].SubmitReplied? && trace[k].submit.SubmitSucceeded?)
            || (applied != [] && applied[0] == (MarkArrived, attempt.expectedVersion))
  {
    var initial := Initial(identity, context);
    k := OutcomeWasAnswered(initial, trace, o, Outcome.Applied);
    var s := Execute(initial, trace[..k]);
    ExecuteSplits(initial, trace, k);
    AttemptsNeverChange(s, trace[k..], o);
    MarkArrivedReadIsExact(s.ops[o].attempt, actions[k]);
  }
}

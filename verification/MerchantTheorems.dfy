/** What every run of the merchant command custody guarantees. */
module MerchantTheorems {
  import opened Options
  import opened Identifiers
  import opened MerchantCommand
  import opened MerchantScope
  import opened MerchantController
  import opened MerchantInvariant

  ghost predicate Reachable(s: State) {
    exists identity: Option<Identity>, context: Option<Context>, trace: seq<Event> ::
      s == Execute(Initial(identity, context), trace)
  }

  lemma ReachableInv(s: State)
    requires Reachable(s)
    ensures Inv(s)
  {
    var identity: Option<Identity>, context: Option<Context>, trace: seq<Event> :|
      s == Execute(Initial(identity, context), trace);
    RunKeepsInv(Initial(identity, context), trace);
  }

  /**
   Two posts of one identity, merchant, order and pickup carry different idempotency keys,
   the later one at no higher version, only if the earlier one was definitely refused.
   */
  lemma NewKeyOnlyAfterRefusal(s: State, p: nat, q: nat)
    requires Reachable(s) && p < q < |s.wire|
    requires KeyOf(s.wire[p].attempt) == KeyOf(s.wire[q].attempt)
    requires s.wire[p].attempt.idempotencyKey != s.wire[q].attempt.idempotencyKey
    requires s.wire[q].attempt.expectedVersion <= s.wire[p].attempt.expectedVersion
    ensures Refused(s.wire[p])
  {
    ReachableInv(s);
    assert PairOk(s, p, q);
  }

  /** What no step undoes: recorded versions, issued attempts, started flights, sent posts and retirement. */
  ghost predicate Grows(s: State, t: State) {
    && (forall key :: ConsumedVersion(s.consumed, key) <= ConsumedVersion(t.consumed, key))
    && |s.ops| <= |t.ops| && (forall o :: 0 <= o < |s.ops| ==> t.ops[o].attempt == s.ops[o].attempt)
    && |s.flights| <= |t.flights| && (forall i :: 0 <= i < |s.flights| ==> t.flights[i].op == s.flights[i].op)
    && |s.wire| <= |t.wire| && (forall p :: 0 <= p < |s.wire| ==> t.wire[p].flight == s.wire[p].flight)
    && (s.scope.retired ==> t.scope.retired)
  }

  /** A step that creates no operation and sends nothing. */
  ghost predicate Within(s: State, t: State) {
    Grows(s, t) && |t.ops| == |s.ops| && |t.wire| == |s.wire| && t.current == s.current
  }

  /** A step that sends one post, for the current operation, out of a live scope. */
  ghost predicate Sends(s: State, t: State) {
    && Grows(s, t) && |t.ops| == |s.ops| && t.current == s.current && |t.wire| == |s.wire| + 1
    && t.wire[|s.wire|].flight < |s.flights| && s.current == Some(s.flights[t.wire[|s.wire|].flight].op)
    && s.scope.LifetimeCurrent()
  }

  /** A step that creates one operation, above the versions recorded for its custody, and makes it current. */
  ghost predicate Creates(s: State, t: State) {
    && Grows(s, t) && |t.ops| == |s.ops| + 1 && t.current == Some(|s.ops|) && |t.wire| == |s.wire|
    && !VersionConsumed(s, t.ops[|s.ops|].attempt)
  }

  lemma SettlementWithin(s: State, i: nat)
    requires Inv(s) && Exists(s, i)
    ensures Within(s, ControllerContinues(s, i))
  {
    if s.flights[i].stage.ServiceDone? {
      assert FlightOk(s, i) && OpOk(s, s.flights[i].op);
      if s.flights[i].phase == Submitting {
        SubmitSettles(s, i);
      } else {
        ReconcileSettles(s, i);
      }
    }
  }

  lemma ResponseWithin(s: State, i: nat, answer: Answer)
    requires Inv(s) && Exists(s, i)
    ensures Within(s, ResponseArrived(s, i, answer))
  {
    assert FlightOk(s, i);
    if s.flights[i].stage.AwaitResponse? {
      AnswerShape(s, i, answer);
    }
  }

  lemma ReadyWithin(s: State, i: nat, available: bool, aborted: bool)
    requires Inv(s) && Exists(s, i)
    ensures Within(s, ServiceReady(s, i, available, aborted))
  {
    if s.flights[i].stage == AwaitService {
      var t := ServiceReady(s, i, available, aborted);
      if available {
        StageWithin(s, i, t.flights[i].stage);
      } else {
        SettlingWithin(s, i, s.flights[i].phase == Submitting, OutcomeUnknown);
      }
    }
  }

  lemma StageWithin(s: State, i: nat, stage: Stage)
    requires i < |s.flights|
    ensures Within(s, WithStage(s, i, stage))
  {
  }

  /** Recording a version, settling and finishing create and send nothing. */
  lemma SettlingWithin(s: State, i: nat, record: bool, outcome: Outcome)
    requires Exists(s, i)
    ensures var o := s.flights[i].op;
            Within(s, WithStage(Settle(if record then RecordConsumed(s, o) else s, o, outcome), i, Finishing))
  {
  }

  /** A post leaves only in a session segment, which checked a live and unretired scope. */
  lemma SessionSends(s: State, i: nat, reply: SessionReply, aborted: bool)
    requires Inv(s) && Exists(s, i)
    ensures Within(s, SessionArrived(s, i, reply, aborted)) || Sends(s, SessionArrived(s, i, reply, aborted))
  {
    assert FlightOk(s, i);
  }

  lemma CreateAndSubmitCreates(s: State, attempt: Attempt)
    requires !VersionConsumed(s, attempt)
    ensures Within(s, CreateAndSubmit(s, attempt)) || Creates(s, CreateAndSubmit(s, attempt))
  {
  }

  lemma AcknowledgeCreates(s: State, key: string)
    requires Inv(s)
    ensures Within(s, Acknowledge(s, key)) || Creates(s, Acknowledge(s, key))
  {
    AcknowledgeShape(s, key);
    if !SettledAs(CurrentOp(s), RetryAttempt) && Acknowledge(s, key) != s {
      CreateAndSubmitCreates(s, CreateAttempt(s.scope.CurrentScope().value, key).value);
    }
  }

  lemma FlightEventMoves(s: State, e: Event)
    requires Inv(s) && !Environment(e) && !e.AcknowledgePressed? && !e.ReconcilePressed? && Exists(s, e.flight)
    ensures Within(s, Apply(s, e)) || Sends(s, Apply(s, e))
  {
    if e.ServiceResolved? {
      ReadyWithin(s, e.flight, e.available, e.aborted);
    } else if e.SessionReplied? {
      SessionSends(s, e.flight, e.session, e.aborted);
    } else if e.ResponseReceived? {
      ResponseWithin(s, e.flight, e.answer);
    } else if e.ControllerResumed? {
      SettlementWithin(s, e.flight);
    }
  }

  /** Every step creates an operation, sends a post, or does neither. */
  lemma StepGrows(s: State, e: Event)
    requires Inv(s)
    ensures Within(s, Apply(s, e)) || Sends(s, Apply(s, e)) || Creates(s, Apply(s, e))
    ensures e.AcknowledgePressed? || Within(s, Apply(s, e)) || Sends(s, Apply(s, e))
  {
    if Environment(e) {
      EnvironmentShape(s, e);
    } else if e.AcknowledgePressed? {
      AcknowledgeCreates(s, e.key);
    } else if !e.ReconcilePressed? && Exists(s, e.flight) {
      FlightEventMoves(s, e);
    }
  }

  /** An operation created in the run, for the custody of an attempt. */
  ghost predicate CreatedAfter(s: State, trace: seq<Event>, o: nat, attempt: Attempt) {
    |s.ops| <= o < |Execute(s, trace).ops| && KeyOf(Execute(s, trace).ops[o].attempt) == KeyOf(attempt)
  }

  /**
   Once a version of a custody is recorded, every operation created later in the run for
   that custody is at a strictly higher version.
   */
  lemma {:induction false} ConsumedBlocksLowerVersions(s: State, trace: seq<Event>, attempt: Attempt, o: nat)
    requires Inv(s) && VersionConsumed(s, attempt) && CreatedAfter(s, trace, o, attempt)
    ensures Execute(s, trace).ops[o].attempt.expectedVersion > attempt.expectedVersion
    decreases |trace|
  {
    if trace != [] {
      var t := Apply(s, trace[0]);
      StepKeepsInv(s, trace[0]);
      StepGrows(s, trace[0]);
      if o < |t.ops| {
        AttemptsNeverChange(t, trace[1..], o);
      } else {
        ConsumedBlocksLowerVersions(t, trace[1..], attempt, o);
      }
    }
  }

  lemma {:induction false} AttemptsNeverChange(s: State, trace: seq<Event>, o: nat)
    requires Inv(s) && o < |s.ops|
    ensures o < |Execute(s, trace).ops| && Execute(s, trace).ops[o].attempt == s.ops[o].attempt
    decreases |trace|
  {
    if trace != [] {
      StepKeepsInv(s, trace[0]);
      StepGrows(s, trace[0]);
      AttemptsNeverChange(Apply(s, trace[0]), trace[1..], o);
    }
  }

  /**
   A post that was answered by anything but a definite refusal (or never answered) and whose
   flight settled blocks every new key for its custody until a strictly higher version.
   */
  lemma UnresolvedPostBlocksNewKeys(s: State, p: nat, trace: seq<Event>, o: nat)
    requires Reachable(s) && p < |s.wire| && !Refused(s.wire[p])
    requires s.wire[p].flight < |s.flights| && !Unsettled(s.flights[s.wire[p].flight])
    requires CreatedAfter(s, trace, o, s.wire[p].attempt)
    ensures Execute(s, trace).ops[o].attempt.expectedVersion > s.wire[p].attempt.expectedVersion
  {
    ReachableInv(s);
    assert PostOk(s, p);
    ConsumedBlocksLowerVersions(s, trace, s.wire[p].attempt, o);
  }

  /** A flight that may have dispatched and whose result is no definite refusal. */
  predicate Unreleased(f: Flight) {
    && f.phase == Submitting && f.mayHaveDispatched
    && match f.stage
       case TransportDone(r) => !(r.Threw? && Releases(r.error))
       case ServiceDone(r) => !(r.SubmitThrew? && Releases(r.error))
       case _ => false
  }

  /** Such a flight is still on its way to its settlement, or its version is recorded. */
  ghost predicate Blocks(s: State, i: nat) {
    && i < |s.flights| && s.flights[i].op < |s.ops|
    && (Unreleased(s.flights[i]) || VersionConsumed(s, s.ops[s.flights[i].op].attempt))
  }

  /** A step that belongs to another flight, or to none, leaves this one where it is. */
  lemma OtherEventsKeepStage(s: State, e: Event, i: nat)
    requires Inv(s) && i < |s.flights| && Unreleased(s.flights[i])
    requires Environment(e) || e.AcknowledgePressed? || e.ReconcilePressed? || e.flight != i
    ensures i < |Apply(s, e).flights| && Apply(s, e).flights[i] == s.flights[i]
  {
    if Environment(e) {
      EnvironmentShape(s, e);
    } else if e.AcknowledgePressed? {
      assert FlightOk(s, i);
    } else if !e.ReconcilePressed? && Exists(s, e.flight) {
      OtherFlightsKeepStage(s, e, i);
    }
  }

  lemma OtherFlightsKeepStage(s: State, e: Event, i: nat)
    requires Inv(s) && i < |s.flights| && !Environment(e) && !e.AcknowledgePressed? && !e.ReconcilePressed?
    requires e.flight != i && Exists(s, e.flight)
    ensures i < |Apply(s, e).flights| && Apply(s, e).flights[i] == s.flights[i]
  {
    if e.ResponseReceived? {
      assert FlightOk(s, e.flight);
      if s.flights[e.flight].stage.AwaitResponse? {
        AnswerShape(s, e.flight, e.answer);
      }
    } else if e.ControllerResumed? && s.flights[e.flight].stage.ServiceDone? {
      assert FlightOk(s, e.flight) && OpOk(s, s.flights[e.flight].op);
      if s.flights[e.flight].phase == Submitting {
        SubmitSettles(s, e.flight);
      } else {
        ReconcileSettles(s, e.flight);
      }
    }
  }

  /** The service keeps such a result unreleased, and the controller then records the version. */
  lemma OwnEventsKeepBlocks(s: State, e: Event, i: nat)
    requires Inv(s) && i < |s.flights| && Unreleased(s.flights[i]) && Exists(s, i)
    requires !Environment(e) && !e.AcknowledgePressed? && !e.ReconcilePressed? && e.flight == i
    ensures Blocks(Apply(s, e), i)
  {
    assert FlightOk(s, i);
    if e.ControllerResumed? && s.flights[i].stage.ServiceDone? {
      SubmitSettles(s, i);
    }
  }

  lemma StepKeepsBlocks(s: State, e: Event, i: nat)
    requires Inv(s) && Blocks(s, i)
    ensures Blocks(Apply(s, e), i)
  {
    StepGrows(s, e);
    if Unreleased(s.flights[i]) {
      if Environment(e) || e.AcknowledgePressed? || e.ReconcilePressed? || e.flight != i {
        OtherEventsKeepStage(s, e, i);
      } else {
        OwnEventsKeepBlocks(s, e, i);
      }
    }
  }

  /** While it is on its way, no operation is created. */
  lemma NothingCreatedMeanwhile(s: State, e: Event, i: nat)
    requires Inv(s) && i < |s.flights| && Unreleased(s.flights[i])
    ensures |Apply(s, e).ops| == |s.ops|
  {
    StepGrows(s, e);
    assert FlightOk(s, i);
  }

  /**
   From the moment a dispatched submit ended with anything but a definite refusal (applied, unknown,
   malformed, or invalidated after the dispatch), every operation created later in any run for its
   custody is at a strictly higher version.
   */
  lemma {:induction false} UnreleasedOutcomeBlocksNewKeys(s: State, i: nat, trace: seq<Event>, o: nat)
    requires Inv(s) && Blocks(s, i) && CreatedAfter(s, trace, o, s.ops[s.flights[i].op].attempt)
    ensures Execute(s, trace).ops[o].attempt.expectedVersion > s.ops[s.flights[i].op].attempt.expectedVersion
    decreases |trace|
  {
    var attempt := s.ops[s.flights[i].op].attempt;
    if VersionConsumed(s, attempt) {
      ConsumedBlocksLowerVersions(s, trace, attempt, o);
    } else if trace != [] {
      StepKeepsInv(s, trace[0]);
      StepGrows(s, trace[0]);
      StepKeepsBlocks(s, trace[0], i);
      NothingCreatedMeanwhile(s, trace[0], i);
      UnreleasedOutcomeBlocksNewKeys(Apply(s, trace[0]), i, trace[1..], o);
    }
  }

  /**
   In particular, a post answered 401 whose refresh then fails, returns no session or another one,
   or finds the scope moved, blocks new keys although the post itself was refused.
   */
  lemma FailedRefreshBlocksNewKeys(s: State, i: nat, reply: SessionReply, aborted: bool, trace: seq<Event>, o: nat)
    requires Reachable(s) && i < |s.flights| && s.flights[i].stage == AwaitRefresh && s.flights[i].op < |s.ops|
    requires SessionArrived(s, i, reply, aborted).flights[i].stage.TransportDone?
    requires CreatedAfter(SessionArrived(s, i, reply, aborted), trace, o, s.ops[s.flights[i].op].attempt)
    ensures Execute(SessionArrived(s, i, reply, aborted), trace).ops[o].attempt.expectedVersion
            > s.ops[s.flights[i].op].attempt.expectedVersion
  {
    ReachableInv(s);
    assert FlightOk(s, i);
    SessionStep(s, i, reply, aborted);
    UnreleasedOutcomeBlocksNewKeys(SessionArrived(s, i, reply, aborted), i, trace, o);
  }

  // ----- the order of posts

  /** The operation a post was sent for. */
  function OperationOf(s: State, p: nat): nat
    requires p < |s.wire|
  {
    if s.wire[p].flight < |s.flights| then s.flights[s.wire[p].flight].op else 0
  }

  ghost predicate InOrder(s: State) {
    && (s.current.Some? ==> s.current.value == |s.ops| - 1)
    && (forall p, q :: 0 <= p < q < |s.wire| ==> OperationOf(s, p) <= OperationOf(s, q))
  }

  lemma MoveKeepsOrder(s: State, t: State)
    requires InOrder(s) && (Within(s, t) || Sends(s, t) || Creates(s, t))
    requires forall p :: 0 <= p < |s.wire| ==> s.wire[p].flight < |s.flights| && OperationOf(s, p) < |s.ops|
    ensures InOrder(t)
  {
    assert forall p :: 0 <= p < |s.wire| ==> OperationOf(t, p) == OperationOf(s, p);
  }

  lemma StepKeepsOrder(s: State, e: Event)
    requires Inv(s) && InOrder(s)
    ensures InOrder(Apply(s, e))
  {
    StepGrows(s, e);
    forall p | 0 <= p < |s.wire| ensures s.wire[p].flight < |s.flights| && OperationOf(s, p) < |s.ops| {
      assert PostOk(s, p);
    }
    MoveKeepsOrder(s, Apply(s, e));
  }

  lemma {:induction false} RunKeepsOrder(s: State, trace: seq<Event>)
    requires Inv(s) && InOrder(s)
    ensures InOrder(Execute(s, trace))
    decreases |trace|
  {
    if trace != [] {
      StepKeepsInv(s, trace[0]);
      StepKeepsOrder(s, trace[0]);
      RunKeepsOrder(Apply(s, trace[0]), trace[1..]);
    }
  }

  /**
   Along the wire the operation never goes back: once a newer operation has posted, no older one,
   and so no older key, is ever sent again.
   */
  lemma PostsFollowTheirOperations(s: State, p: nat, q: nat)
    requires Reachable(s) && p < q < |s.wire|
    ensures OperationOf(s, p) <= OperationOf(s, q) < |s.ops|
    ensures s.wire[q].attempt == s.ops[OperationOf(s, q)].attempt && s.wire[p].attempt == s.ops[OperationOf(s, p)].attempt
  {
    ReachableInv(s);
    assert PostOk(s, p) && PostOk(s, q);
    var identity: Option<Identity>, context: Option<Context>, trace: seq<Event> :|
      s == Execute(Initial(identity, context), trace);
    RunKeepsOrder(Initial(identity, context), trace);
  }

  /** Every post, the resend after a 401 included, left live, with the attempt's own session, over no unknown outcome. */
  lemma EveryPostLeftLive(s: State, p: nat)
    requires Reachable(s) && p < |s.wire|
    ensures LiveEquals(s.wire[p].attempt, s.wire[p].live)
    ensures s.wire[p].bearerIdentity == s.wire[p].attempt.identityId
    ensures s.wire[p].bearerSession == s.wire[p].attempt.sessionId
    ensures s.wire[p].settled != Some(OutcomeUnknown)
  {
    ReachableInv(s);
    assert PostOk(s, p);
  }

  /** At most one asynchronous execution is live, and at most one post is unanswered, at any time. */
  lemma AtMostOnePending(s: State)
    requires Reachable(s)
    ensures forall i, j :: 0 <= i < |s.flights| && 0 <= j < |s.flights| && Live(s.flights[i]) && Live(s.flights[j]) ==> i == j
    ensures forall p, q ::
              (0 <= p < |s.wire| && 0 <= q < |s.wire| && s.wire[p].answer.None? && s.wire[q].answer.None?) ==> p == q
  {
    ReachableInv(s);
    forall i, j | 0 <= i < |s.flights| && 0 <= j < |s.flights| && Live(s.flights[i]) && Live(s.flights[j])
      ensures i == j
    {
      assert FlightOk(s, i) && FlightOk(s, j);
    }
    forall p, q | 0 <= p < |s.wire| && 0 <= q < |s.wire| && s.wire[p].answer.None? && s.wire[q].answer.None?
      ensures p == q
    {
      assert PostOk(s, p) && PostOk(s, q);
      assert FlightOk(s, s.wire[p].flight) && FlightOk(s, s.wire[q].flight);
    }
  }

  /** Nothing leaves after retirement, whatever the flights, the network and the environment do. */
  lemma {:induction false} NothingLeavesAfterRetire(s: State, trace: seq<Event>)
    requires Inv(s) && s.scope.retired
    ensures |Execute(s, trace).wire| == |s.wire|
    decreases |trace|
  {
    if trace != [] {
      StepGrows(s, trace[0]);
      StepKeepsInv(s, trace[0]);
      NothingLeavesAfterRetire(Apply(s, trace[0]), trace[1..]);
    }
  }

  predicate StartsFlight(s: State, t: State) {
    |t.flights| == |s.flights| + 1
  }

  /**
   The button is actionable exactly when pressing it starts a flight, except that a new
   attempt also needs well-formed identifiers and a well-formed generated key.
   */
  lemma ActionableMeansAcknowledgeStarts(s: State, key: string)
    requires Reachable(s)
    ensures StartsFlight(s, Acknowledge(s, key)) <==>
            && Actionable(s)
            && (SettledAs(CurrentOp(s), RetryAttempt)
                || (ScopeIsValid(s.scope.CurrentScope().value) && IsUuid(key)))
    ensures StartsFlight(s, Acknowledge(s, key)) <==> AcknowledgeResult(s, key) == Pending(|s.flights|)
  {
    ReachableInv(s);
    var op := CurrentOp(s);
    if op.Some? {
      assert OpOk(s, s.current.value);
    }
    if !InFlight(op) && !SettledAs(op, OutcomeUnknown) && !SettledAs(op, RetryAttempt) {
      var live := s.scope.CurrentScope();
      if live.Some? && !Suppressed(s, live.value) {
        CreatedAttemptMatches(live.value, key);
        if CreateAttempt(live.value, key).Some? {
          CreatedResolves(s.scope, live.value, key);
        }
      }
    }
  }

  /** Reconciliation is offered exactly when asking for it starts a flight. */
  lemma AvailableMeansReconcileStarts(s: State)
    requires Reachable(s)
    ensures StartsFlight(s, Reconcile(s)) <==> ReconciliationAvailable(s)
    ensures StartsFlight(s, Reconcile(s)) <==> ReconcileResult(s) == Pending(|s.flights|)
  {
    ReachableInv(s);
    if s.current.Some? {
      assert OpOk(s, s.current.value);
    }
  }

  /** An unknown, retryable or applied operation has its version recorded. */
  lemma ConsumingOutcomeIsRecorded(s: State, o: nat)
    requires Reachable(s) && o < |s.ops|
    requires s.ops[o].settled == Some(OutcomeUnknown) || s.ops[o].settled == Some(RetryAttempt)
             || s.ops[o].settled == Some(Applied)
    ensures s.ops[o].attempt.expectedVersion <= ConsumedVersion(s.consumed, KeyOf(s.ops[o].attempt))
  {
    ReachableInv(s);
    assert OpOk(s, o);
  }
}

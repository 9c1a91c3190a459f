/** The failure latch of the mark-arrived controller, over every run of its presentation boundary. */
module CourierTheorems {
  import opened Options
  import opened Identifiers
  import opened CourierCommand
  import opened CourierController

  /** The settlement a submit starts from, and keeps while it runs or after it failed unexpectedly. */
  predicate Submittable(op: Operation) {
    op.settled == None || op.settled == Some(RetryAttempt)
  }

  predicate OpOk(s: State, o: nat)
    requires o < |s.ops|
  {
    var op := s.ops[o];
    && op.handle < |s.scope.attempts| && s.scope.attempts[op.handle] == op.attempt
    && (op.inFlight.Some? ==>
          && op.inFlight.value < |s.flights| && s.flights[op.inFlight.value].op == o
          && s.flights[op.inFlight.value].stage != Done)
    && (op.submitRecoveryGeneration.Some? ==> op.submitRecoveryGeneration.value <= s.explicitRecoveryGeneration)
  }

  /** A running flight belongs to the current operation, which waits for its settlement. */
  predicate FlightOk(s: State, i: nat)
    requires i < |s.flights|
  {
    var f := s.flights[i];
    && f.op < |s.ops|
    && (f.stage != Done ==> s.ops[f.op].inFlight == Some(i))
    && (f.stage == Running ==>
          && s.current == Some(f.op) && !s.unexpectedSubmitFailure
          && (if f.kind == SubmitFlight
              then Submittable(s.ops[f.op]) && s.ops[f.op].submitRecoveryGeneration.Some?
              else s.ops[f.op].settled == Some(OutcomeUnknown)))
  }

  /** A latched failure stands over a submitted operation, with no newer recovery unless its flight is still clearing. */
  predicate LatchOk(s: State) {
    s.unexpectedSubmitFailure ==>
      && HasOperation(s) && Submittable(s.ops[s.current.value])
      && s.ops[s.current.value].submitRecoveryGeneration.Some?
      && (s.ops[s.current.value].inFlight.None? ==>
            s.explicitRecoveryGeneration <= s.ops[s.current.value].submitRecoveryGeneration.value)
  }

  ghost predicate Inv(s: State) {
    && (s.current.Some? ==> s.current.value < |s.ops|)
    && (forall o :: 0 <= o < |s.ops| ==> OpOk(s, o))
    && (forall i :: 0 <= i < |s.flights| ==> FlightOk(s, i))
    && LatchOk(s)
  }

  // ----- preservation

  lemma ScopeKeepsInv(s: State, scope: Scope)
    requires Inv(s) && s.scope.attempts <= scope.attempts
    ensures Inv(s.(scope := scope))
  {
    var t := s.(scope := scope);
    assert forall o :: 0 <= o < |s.ops| ==> OpOk(s, o) ==> OpOk(t, o);
    assert forall i :: 0 <= i < |s.flights| ==> FlightOk(s, i) ==> FlightOk(t, i);
  }

  /** Settling the current operation between flights, with no failure latched. */
  lemma SettleKeepsInv(s: State, outcome: Outcome)
    requires Inv(s) && HasOperation(s) && s.ops[s.current.value].inFlight.None? && !s.unexpectedSubmitFailure
    ensures Inv(Settle(s, s.current.value, outcome))
  {
    var t := Settle(s, s.current.value, outcome);
    assert forall o :: 0 <= o < |s.ops| ==> OpOk(s, o) ==> OpOk(t, o);
    assert forall i :: 0 <= i < |s.flights| ==> FlightOk(s, i) ==> FlightOk(t, i);
  }

  lemma NewAttemptKeepsInv(s: State, key: string)
    requires Inv(s) && !s.unexpectedSubmitFailure
    requires forall i :: 0 <= i < |s.flights| ==> s.flights[i].stage != Running
    ensures Inv(NewAttempt(s, key).0) && NewAttempt(s, key).0.unexpectedSubmitFailure == false
  {
    var live := s.scope.CurrentScope();
    if live.Some? && CreateAttempt(live.value, key).Some? {
      var attempt := CreateAttempt(live.value, key).value;
      var created := s.(scope := s.scope.(attempts := s.scope.attempts + [attempt]));
      ScopeKeepsInv(s, created.scope);
      var t := NewAttempt(s, key).0;
      if t.current != s.current {
        assert forall o :: 0 <= o < |s.ops| ==> OpOk(created, o) ==> OpOk(t, o);
        assert OpOk(t, |s.ops|);
        assert forall i :: 0 <= i < |s.flights| ==> FlightOk(created, i) ==> FlightOk(t, i);
      }
    }
  }

  /** A running flight over an operation is the one the operation points at. */
  lemma NoneRunning(s: State)
    requires Inv(s)
    requires HasOperation(s) ==>
               s.ops[s.current.value].inFlight.None? || !Unresolved(s.ops[s.current.value])
    ensures forall i :: 0 <= i < |s.flights| ==> s.flights[i].stage != Running
  {
    forall i | 0 <= i < |s.flights| ensures s.flights[i].stage != Running {
      assert FlightOk(s, i);
    }
  }

  lemma CreateKeepsInv(s: State, key: string)
    requires Inv(s) && !s.unexpectedSubmitFailure
    ensures Inv(CreateAttemptStep(s, key).0) && !CreateAttemptStep(s, key).0.unexpectedSubmitFailure
  {
    if HasOperation(s) && Unresolved(s.ops[s.current.value]) {
      var existing := s.ops[s.current.value];
      if !s.scope.ResolvesForOperation(existing.handle) && existing.inFlight.None? {
        SettleKeepsInv(s, Invalid(InvalidHandle));
        NoneRunning(s);
        NewAttemptKeepsInv(Settle(s, s.current.value, Invalid(InvalidHandle)), key);
      }
    } else {
      NoneRunning(s);
      NewAttemptKeepsInv(s, key);
    }
  }

  lemma StartKeepsInv(s: State, kind: Kind)
    requires Inv(s) && HasOperation(s) && s.ops[s.current.value].inFlight.None? && !s.unexpectedSubmitFailure
    requires if kind == SubmitFlight
             then Submittable(s.ops[s.current.value]) && s.ops[s.current.value].submitRecoveryGeneration.Some?
             else s.ops[s.current.value].settled == Some(OutcomeUnknown)
    ensures Inv(StartFlight(s, s.current.value, kind))
  {
    var t := StartFlight(s, s.current.value, kind);
    assert forall o :: 0 <= o < |s.ops| ==> OpOk(s, o) ==> OpOk(t, o);
    assert forall i :: 0 <= i < |s.flights| ==> FlightOk(s, i) ==> FlightOk(t, i);
    assert FlightOk(t, |s.flights|);
  }

  lemma SubmitKeepsInv(s: State, handle: nat)
    requires Inv(s) && !s.unexpectedSubmitFailure
    ensures Inv(SubmitStep(s, handle))
  {
    if HasOperation(s) && s.ops[s.current.value].handle == handle && s.ops[s.current.value].inFlight.None? {
      var o := s.current.value;
      if !s.scope.ResolvesForOperation(handle) {
        SettleKeepsInv(s, Invalid(InvalidHandle));
      } else if Submittable(s.ops[o]) {
        if !s.scope.ResolvesForSubmit(handle) {
          SettleKeepsInv(s, Invalid(ScopeChanged));
        } else {
          var t := WithOp(s, o, s.ops[o].(submitRecoveryGeneration := Some(s.explicitRecoveryGeneration)));
          assert forall k :: 0 <= k < |s.ops| ==> OpOk(s, k) ==> OpOk(t, k);
          assert forall i :: 0 <= i < |s.flights| ==> FlightOk(s, i) ==> FlightOk(t, i);
          StartKeepsInv(t, SubmitFlight);
        }
      }
    }
  }

  lemma ReconcileKeepsInv(s: State)
    requires Inv(s)
    ensures Inv(ReconcileCurrentStep(s))
  {
    if HasOperation(s) && s.ops[s.current.value].inFlight.None? && s.ops[s.current.value].settled == Some(OutcomeUnknown) {
      if !s.scope.ResolvesForOperation(s.ops[s.current.value].handle) {
        SettleKeepsInv(s, Invalid(InvalidHandle));
      } else {
        StartKeepsInv(s, ReconcileFlight);
      }
    }
  }

  /** A recovery is recorded: a latched failure with no flight pending is released. */
  lemma RecoveryKeepsInv(s: State)
    requires Inv(s)
    ensures Inv(RecordRecoveryStep(s))
  {
    var t := RecordRecoveryStep(s);
    assert forall o :: 0 <= o < |s.ops| ==> OpOk(s, o) ==> OpOk(t, o);
    assert forall i :: 0 <= i < |s.flights| ==> FlightOk(s, i) ==> FlightOk(t, i);
    if HasOperation(s) {
      assert OpOk(s, s.current.value);
    }
  }

  /** What a settlement may change: evidence, the outcome, and the failure latch. */
  ghost predicate Settlement(s: State, t: State, o: nat)
    requires o < |s.ops|
  {
    && t.scope.attempts == s.scope.attempts && o < |t.ops|
    && t == s.(scope := t.scope, ops := s.ops[o := s.ops[o].(settled := t.ops[o].settled)],
               unexpectedSubmitFailure := t.unexpectedSubmitFailure)
  }

  /** Only an unexpected failure latches, and then the operation stays as it was, with no newer recovery. */
  lemma SubmitSettles(s: State, o: nat, reply: SubmitReply)
    requires o < |s.ops| && s.current == Some(o) && !s.unexpectedSubmitFailure && Submittable(s.ops[o])
    requires s.ops[o].submitRecoveryGeneration.Some?
    ensures var t := SettleSubmit(s, o, reply);
            && Settlement(s, t, o)
            && (t.unexpectedSubmitFailure ==>
                  t.ops == s.ops
                  && s.explicitRecoveryGeneration <= s.ops[o].submitRecoveryGeneration.value)
  {
  }

  lemma ReconcileSettles(s: State, o: nat, reply: ReconcileReply)
    requires o < |s.ops| && !s.unexpectedSubmitFailure
    ensures Settlement(s, SettleReconcile(s, o, reply), o) && !SettleReconcile(s, o, reply).unexpectedSubmitFailure
  {
  }

  /** A running flight that settles its operation and moves on to its clearing callback. */
  lemma FinishKeepsInv(s: State, t: State, i: nat)
    requires Inv(s) && i < |s.flights| && s.flights[i].stage == Running && FlightOk(s, i)
    requires Settlement(s, t, s.flights[i].op)
    requires t.unexpectedSubmitFailure ==>
               t.ops == s.ops && s.flights[i].kind == SubmitFlight
               && s.explicitRecoveryGeneration <= s.ops[s.flights[i].op].submitRecoveryGeneration.value
    ensures Inv(WithStage(t, i, Finishing))
  {
    var u := WithStage(t, i, Finishing);
    assert forall o :: 0 <= o < |s.ops| ==> OpOk(s, o) ==> OpOk(u, o);
    forall j | 0 <= j < |u.flights| ensures FlightOk(u, j) {
      assert FlightOk(s, j);
    }
  }

  lemma SubmitReturnKeepsInv(s: State, i: nat, reply: SubmitReply)
    requires Inv(s) && Exists(s, i)
    ensures Inv(SubmitReturns(s, i, reply))
  {
    if s.flights[i].stage == Running && s.flights[i].kind == SubmitFlight {
      assert FlightOk(s, i);
      SubmitSettles(s, s.flights[i].op, reply);
      FinishKeepsInv(s, SettleSubmit(s, s.flights[i].op, reply), i);
    }
  }

  lemma ReconcileReturnKeepsInv(s: State, i: nat, reply: ReconcileReply)
    requires Inv(s) && Exists(s, i)
    ensures Inv(ReconcileReturns(s, i, reply))
  {
    if s.flights[i].stage == Running && s.flights[i].kind == ReconcileFlight {
      assert FlightOk(s, i);
      ReconcileSettles(s, s.flights[i].op, reply);
      FinishKeepsInv(s, SettleReconcile(s, s.flights[i].op, reply), i);
    }
  }

  lemma ClearKeepsInv(s: State, i: nat)
    requires Inv(s) && Exists(s, i)
    ensures Inv(ClearFlight(s, i))
  {
    if s.flights[i].stage == Finishing {
      var t := ClearFlight(s, i);
      assert FlightOk(s, i);
      forall o | 0 <= o < |t.ops| ensures OpOk(t, o) {
        assert OpOk(s, o);
      }
      forall j | 0 <= j < |t.flights| ensures FlightOk(t, j) {
        assert FlightOk(s, j);
      }
    }
  }

  lemma StepKeepsInv(s: State, e: Event)
    requires Inv(s) && Bounded(e)
    ensures Inv(Apply(s, e))
  {
    match e
    case MarkArrivedPressed(key) =>
      if !s.unexpectedSubmitFailure {
        CreateKeepsInv(s, key);
        var (created, handle) := CreateAttemptStep(s, key);
        if handle.Some? {
          SubmitKeepsInv(created, handle.value);
        }
      }
    case ReconcilePressed => ReconcileKeepsInv(s);
    case RecoveryRecorded => RecoveryKeepsInv(s);
    case SubmitReplied(i, reply) => if Exists(s, i) { SubmitReturnKeepsInv(s, i, reply); }
    case ReconcileReplied(i, reply) => if Exists(s, i) { ReconcileReturnKeepsInv(s, i, reply); }
    case FlightCleared(i) => if Exists(s, i) { ClearKeepsInv(s, i); }
    case _ => ScopeKeepsInv(s, Apply(s, e).scope);
  }

  predicate AllBounded(trace: seq<Event>) {
    forall k :: 0 <= k < |trace| ==> Bounded(trace[k])
  }

  lemma {:induction false} RunKeepsInv(s: State, trace: seq<Event>)
    requires Inv(s) && AllBounded(trace)
    ensures Inv(Execute(s, trace))
    decreases |trace|
  {
    if trace != [] {
      StepKeepsInv(s, trace[0]);
      RunKeepsInv(Apply(s, trace[0]), trace[1..]);
    }
  }

  /** Reachable through the presentation boundary. */
  ghost predicate Reachable(s: State) {
    exists identity: Option<Identity>, context: Option<Context>, trace: seq<Event> ::
      AllBounded(trace) && s == Execute(Initial(identity, context), trace)
  }

  lemma ReachableInv(s: State)
    requires Reachable(s)
    ensures Inv(s)
  {
    var identity: Option<Identity>, context: Option<Context>, trace: seq<Event> :|
      AllBounded(trace) && s == Execute(Initial(identity, context), trace);
    RunKeepsInv(Initial(identity, context), trace);
  }

  // ----- theorems

  /** No step but a recorded recovery releases a latch that no newer recovery stands against. */
  lemma LatchHoldsOneStep(s: State, e: Event)
    requires Inv(s) && Bounded(e) && e != RecoveryRecorded
    requires s.unexpectedSubmitFailure
    requires s.explicitRecoveryGeneration <= s.ops[s.current.value].submitRecoveryGeneration.value
    ensures var t := Apply(s, e);
            && t.unexpectedSubmitFailure && t.current == s.current && |t.flights| == |s.flights|
            && HasOperation(t)
            && t.ops[t.current.value].submitRecoveryGeneration == s.ops[s.current.value].submitRecoveryGeneration
            && t.explicitRecoveryGeneration == s.explicitRecoveryGeneration
  {
    match e
    case SubmitReplied(i, reply) => if Exists(s, i) { assert FlightOk(s, i); }
    case ReconcileReplied(i, reply) => if Exists(s, i) { assert FlightOk(s, i); }
    case _ =>
  }

  /** A latch that no recovery newer than the current operation's submit stands against. */
  predicate Latched(s: State) {
    && s.unexpectedSubmitFailure
    && (HasOperation(s) && s.ops[s.current.value].submitRecoveryGeneration.Some? ==>
          s.explicitRecoveryGeneration <= s.ops[s.current.value].submitRecoveryGeneration.value)
  }

  lemma LatchHoldsOverReplies(s: State, e: Event)
    requires Latched(s) && (e.SubmitReplied? || e.ReconcileReplied? || e.FlightCleared?)
    ensures Latched(Apply(s, e)) && Apply(s, e).explicitRecoveryGeneration == s.explicitRecoveryGeneration
  {
  }

  lemma LatchHoldsOverPresses(s: State, e: Event)
    requires Latched(s) && (e.MarkArrivedPressed? || e.ReconcilePressed? || !Bounded(e))
    ensures Latched(Apply(s, e)) && Apply(s, e).explicitRecoveryGeneration == s.explicitRecoveryGeneration
  {
  }

  /** Every event but a recorded recovery keeps such a latch, the handle-based calls included. */
  lemma LatchHoldsAnyStep(s: State, e: Event)
    requires Latched(s) && e != RecoveryRecorded
    ensures Latched(Apply(s, e)) && Apply(s, e).explicitRecoveryGeneration == s.explicitRecoveryGeneration
  {
    if e.SubmitReplied? || e.ReconcileReplied? || e.FlightCleared? {
      LatchHoldsOverReplies(s, e);
    } else if e.MarkArrivedPressed? || e.ReconcilePressed? || !Bounded(e) {
      LatchHoldsOverPresses(s, e);
    }
  }

  /** Over all events whatsoever the latch holds until a recovery is recorded, and every press changes nothing. */
  lemma {:induction false} LatchHoldsOverAllCalls(s: State, trace: seq<Event>, key: string)
    requires Latched(s) && RecoveryRecorded !in trace
    ensures Latched(Execute(s, trace))
    ensures MarkArrivedStep(Execute(s, trace), key) == Execute(s, trace)
    decreases |trace|
  {
    if trace != [] {
      LatchHoldsAnyStep(s, trace[0]);
      LatchHoldsOverAllCalls(Apply(s, trace[0]), trace[1..], key);
    }
  }

  /**
   After an unexpected submit failure the latch holds, and no flight starts, through any
   sequence of presses, replies and scope changes that records no explicit recovery.
   */
  lemma {:induction false} LatchHoldsUntilRecovery(s: State, trace: seq<Event>)
    requires Inv(s) && AllBounded(trace) && RecoveryRecorded !in trace
    requires s.unexpectedSubmitFailure
    requires s.explicitRecoveryGeneration <= s.ops[s.current.value].submitRecoveryGeneration.value
    ensures Execute(s, trace).unexpectedSubmitFailure && |Execute(s, trace).flights| == |s.flights|
    decreases |trace|
  {
    if trace != [] {
      StepKeepsInv(s, trace[0]);
      LatchHoldsOneStep(s, trace[0]);
      LatchHoldsUntilRecovery(Apply(s, trace[0]), trace[1..]);
    }
  }

  /** An unexpected failure latches exactly when no recovery was recorded since the submit started. */
  lemma FailureLatchesUnlessRecovered(s: State, i: nat)
    requires Reachable(s) && Exists(s, i) && s.flights[i].stage == Running && s.flights[i].kind == SubmitFlight
    ensures s.ops[s.flights[i].op].submitRecoveryGeneration.Some?
    ensures SubmitReturns(s, i, SubmitUnexpected).unexpectedSubmitFailure <==>
            s.explicitRecoveryGeneration <= s.ops[s.flights[i].op].submitRecoveryGeneration.value
  {
    ReachableInv(s);
    assert FlightOk(s, i);
  }

  /** A recovery recorded while a failed submit is still clearing is consumed by the clearing: it is never lost. */
  lemma RecoveryDuringFlightIsKept(s: State, i: nat)
    requires Reachable(s) && Exists(s, i) && s.flights[i].stage == Finishing && s.current == Some(s.flights[i].op)
    requires s.ops[s.flights[i].op].submitRecoveryGeneration.Some?
    requires s.explicitRecoveryGeneration > s.ops[s.flights[i].op].submitRecoveryGeneration.value
    ensures !ClearFlight(s, i).unexpectedSubmitFailure
  {
    ReachableInv(s);
    assert FlightOk(s, i);
  }

  /** With no flight pending, a latched failure has no unconsumed later recovery, and one more always releases it. */
  lemma RecoveryReleasesLatch(s: State)
    requires Reachable(s) && s.unexpectedSubmitFailure
    ensures HasOperation(s)
    ensures s.ops[s.current.value].inFlight.None? ==> !RecordRecoveryStep(s).unexpectedSubmitFailure
  {
    ReachableInv(s);
    assert OpOk(s, s.current.value);
  }

  /** With the same condition live, the submit after a recovery is the same operation, attempt and key. */
  lemma RecoveredSubmitReusesKey(s: State, key: string)
    requires Reachable(s) && s.unexpectedSubmitFailure && HasOperation(s)
    requires s.ops[s.current.value].inFlight.None?
    requires s.scope.ResolvesForSubmit(s.ops[s.current.value].handle)
    ensures var t := MarkArrivedStep(RecordRecoveryStep(s), key);
            && t.current == s.current && |t.ops| == |s.ops|
            && t.ops[s.current.value].attempt == s.ops[s.current.value].attempt
            && t.flights == s.flights + [Flight(s.current.value, SubmitFlight, Running)]
  {
    ReachableInv(s);
    assert OpOk(s, s.current.value);
  }

  /** Without the condition, the recovery releases the latch by invalidating the operation. */
  lemma RecoveredWithoutConditionInvalidates(s: State)
    requires Reachable(s) && s.unexpectedSubmitFailure && HasOperation(s)
    requires s.ops[s.current.value].inFlight.None?
    requires !s.scope.ResolvesForSubmit(s.ops[s.current.value].handle)
    ensures RecordRecoveryStep(s) ==
            Settle(s.(explicitRecoveryGeneration := s.explicitRecoveryGeneration + 1, unexpectedSubmitFailure := false),
                   s.current.value, Invalid(ScopeChanged))
  {
    ReachableInv(s);
    assert OpOk(s, s.current.value);
  }

  // ----- the handle-based entry points

  /** In any state at all, a recovery releases a latch exactly under the guard of the consuming branch. */
  lemma RecoveryReleasesExactly(s: State)
    requires s.unexpectedSubmitFailure
    ensures !RecordRecoveryStep(s).unexpectedSubmitFailure <==>
            && HasOperation(s) && s.ops[s.current.value].inFlight.None?
            && s.ops[s.current.value].settled != Some(OutcomeUnknown)
            && s.ops[s.current.value].submitRecoveryGeneration.Some?
            && s.ops[s.current.value].submitRecoveryGeneration.value <= s.explicitRecoveryGeneration
  {
  }

  function StickyAttempt(u: string, contextGeneration: int): Attempt {
    Attempt(Lower(u), 1, Lower(u), Lower(u), Lower(u), 0, contextGeneration)
  }

  function StickyScope(u: string, contextGeneration: int, attempts: seq<Attempt>): Scope {
    Scope(Some(Identity(u, u, 0)), Some(Context(u, contextGeneration, true)),
          Some(Evidence(Lower(u), 0, contextGeneration, 1, true)), true, false, attempts)
  }

  /** A published condition, a submit that failed unexpectedly, and its cleared flight. */
  function FailedState(u: string): State {
    State(StickyScope(u, 0, [StickyAttempt(u, 0)]),
          [Operation(0, StickyAttempt(u, 0), None, None, Some(0))], Some(0), true, 0,
          [Flight(0, SubmitFlight, Done)])
  }

  /** The controller while that submit runs. */
  function SubmittedState(u: string): State {
    State(StickyScope(u, 0, [StickyAttempt(u, 0)]),
          [Operation(0, StickyAttempt(u, 0), Some(0), None, Some(0))], Some(0), false, 0,
          [Flight(0, SubmitFlight, Running)])
  }

  lemma SubmittedStateIsReached(u: string)
    requires IsUuid(u)
    ensures Apply(Apply(Initial(Some(Identity(u, u, 0)), Some(Context(u, 0, true))), EvidencePublished(u, 1, true)),
                  MarkArrivedPressed(u)) == SubmittedState(u)
  {
    var s := Apply(Initial(Some(Identity(u, u, 0)), Some(Context(u, 0, true))), EvidencePublished(u, 1, true));
    assert s.scope == StickyScope(u, 0, []);
  }

  lemma SubmittedStateFails(u: string)
    ensures Apply(Apply(SubmittedState(u), SubmitReplied(0, SubmitUnexpected)), FlightCleared(0)) == FailedState(u)
  {
    var s := Apply(SubmittedState(u), SubmitReplied(0, SubmitUnexpected));
    assert s == SubmittedState(u).(unexpectedSubmitFailure := true, flights := [Flight(0, SubmitFlight, Finishing)]);
  }

  lemma FailedStateIsReached(u: string)
    requires IsUuid(u)
    ensures var s := Initial(Some(Identity(u, u, 0)), Some(Context(u, 0, true)));
            Apply(Apply(Apply(Apply(s, EvidencePublished(u, 1, true)), MarkArrivedPressed(u)),
                        SubmitReplied(0, SubmitUnexpected)), FlightCleared(0)) == FailedState(u)
  {
    SubmittedStateIsReached(u);
    SubmittedStateFails(u);
  }

  /** The context moves on, its condition is published, and an attempt is created by handle. */
  lemma LatchCanStickOutsideTheBoundary(u: string)
    requires IsUuid(u)
    ensures var s := Apply(Apply(Apply(FailedState(u), ContextChanges(Some(Context(u, 1, true)))),
                                 EvidencePublished(u, 1, true)), AttemptCreated(u));
            && s.unexpectedSubmitFailure && HasOperation(s) && s.ops[s.current.value].inFlight.None?
            && RecordRecoveryStep(s).unexpectedSubmitFailure
  {
    var s6 := Apply(Apply(FailedState(u), ContextChanges(Some(Context(u, 1, true)))), EvidencePublished(u, 1, true));
    assert s6 == FailedState(u).(scope := StickyScope(u, 1, [StickyAttempt(u, 0)]));
    var s7 := Apply(s6, AttemptCreated(u));
    assert s7.current == Some(1) && s7.ops[1] == Operation(1, StickyAttempt(u, 1), None, None, None);
  }
}

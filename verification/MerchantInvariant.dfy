/** The invariant of the merchant command custody and its preservation by every step. */
module MerchantInvariant {
  import opened Options
  import opened Identifiers
  import opened MerchantCommand
  import opened MerchantScope
  import opened MerchantController

  predicate Live(f: Flight) {
    f.stage != Done
  }

  /** A flight that has not yet settled its operation. */
  predicate Unsettled(f: Flight) {
    f.stage != Done && f.stage != Finishing
  }

  /** Outcomes after which a new key for the same version is forbidden. */
  predicate Consuming(settled: Option<Outcome>) {
    settled == Some(OutcomeUnknown) || settled == Some(RetryAttempt) || settled == Some(Applied)
  }

  predicate VersionConsumed(s: State, attempt: Attempt) {
    attempt.expectedVersion <= ConsumedVersion(s.consumed, KeyOf(attempt))
  }

  /** An operation resolves to its own attempt, points at its live flight, and has recorded a consuming outcome. */
  predicate OpOk(s: State, o: nat)
    requires o < |s.ops|
  {
    var op := s.ops[o];
    && op.handle < |s.scope.attempts| && s.scope.attempts[op.handle] == op.attempt
    && (op.inFlight.Some? ==>
          && s.current == Some(o) && op.inFlight.value < |s.flights|
          && s.flights[op.inFlight.value].op == o && Live(s.flights[op.inFlight.value]))
    && (Consuming(op.settled) ==> VersionConsumed(s, op.attempt))
  }

  /** Errors that settle a submit without recording its version as consumed. */
  predicate Releases(e: SubmitError) {
    || e.RejectedError?
    || (e.PublicError? && e.status.Some? && e.status.value < 500
        && e.kind != MalformedResponse && e.kind != RequestCancelled)
  }

  predicate ResultFits(phase: Phase, r: ServiceResult) {
    match r
    case Submitted => phase == Submitting
    case SubmitThrew(e) => phase == Submitting && (e.PublicError? ==> Releases(e))
    case _ => phase == Reconciling
  }

  predicate StageFits(f: Flight) {
    match f.stage
    case AwaitService => !f.mayHaveDispatched
    case AwaitSession => !f.mayHaveDispatched && f.phase == Submitting
    case AwaitResponse(_, _) => f.mayHaveDispatched && f.phase == Submitting
    case AwaitRefresh => f.mayHaveDispatched && f.phase == Submitting
    case AwaitBody(_) => f.mayHaveDispatched && f.phase == Submitting
    case AwaitRead => f.phase == Reconciling
    case ServiceDone(r) => ResultFits(f.phase, r)
    case Finishing => true
    case Done => true
    case _ => f.phase == Submitting
  }

  /** The settlement an operation may carry while a flight over it has still to settle. */
  predicate AwaitsSettlement(phase: Phase, settled: Option<Outcome>) {
    if phase == Submitting then settled == None || settled == Some(RetryAttempt)
    else settled == Some(OutcomeUnknown)
  }

  /** A live flight is the one its current operation points at; its stage fits its phase. */
  predicate FlightOk(s: State, i: nat)
    requires i < |s.flights|
  {
    var f := s.flights[i];
    && f.op < |s.ops|
    && (Live(f) ==>
          && s.current == Some(f.op) && s.ops[f.op].inFlight == Some(i)
          && s.ops[f.op].phase == Some(f.phase))
    && StageFits(f)
    && (Unsettled(f) ==> AwaitsSettlement(f.phase, s.ops[f.op].settled))
    && (f.stage.AwaitResponse? ==> f.stage.post < |s.wire| && s.wire[f.stage.post].flight == i)
  }

  /** What the stage of a post's flight knows about the post. */
  predicate StageKnows(stage: Stage, p: nat, post: Post) {
    match stage
    case AwaitResponse(last, _) => if p == last then post.answer.None? else Refused(post)
    case AwaitRefresh => Refused(post)
    case AwaitBody(status) => post.answer.Some? && (!OkStatus(status) && status < 500 ==> Refused(post))
    case TransportDone(r) => post.answer.Some? && (r.Threw? && Releases(r.error) ==> Refused(post))
    case ServiceDone(r) => post.answer.Some? && (r.SubmitThrew? && Releases(r.error) ==> Refused(post))
    case _ => post.answer.Some?
  }

  /** A post of an earlier operation that the current one could repeat under a new key. */
  predicate Overtaken(s: State, post: Post) {
    && s.current.Some? && s.current.value < |s.ops|
    && post.flight < |s.flights| && s.flights[post.flight].op != s.current.value
    && KeyOf(post.attempt) == KeyOf(s.ops[s.current.value].attempt)
    && s.ops[s.current.value].attempt.expectedVersion <= post.attempt.expectedVersion
  }

  /** A post left with a matching bearer at an instant of full equality, and never over an unknown outcome. */
  ghost predicate LeftLive(post: Post) {
    && LiveEquals(post.attempt, post.live)
    && post.bearerIdentity == post.attempt.identityId && post.bearerSession == post.attempt.sessionId
    && post.settled != Some(OutcomeUnknown)
  }

  /** A post is accounted for: refused, recorded as consumed, or its flight is still to settle. */
  ghost predicate PostOk(s: State, p: nat)
    requires p < |s.wire|
  {
    var post := s.wire[p];
    && post.flight < |s.flights| && s.flights[post.flight].op < |s.ops|
    && post.attempt == s.ops[s.flights[post.flight].op].attempt
    && s.flights[post.flight].mayHaveDispatched && s.flights[post.flight].phase == Submitting
    && StageKnows(s.flights[post.flight].stage, p, post)
    && (Refused(post) || VersionConsumed(s, post.attempt) || Unsettled(s.flights[post.flight]))
    && (Overtaken(s, post) ==> Refused(post))
    && LeftLive(post)
  }

  /** A later post for the same custody under another key follows only refusals at its version or above. */
  predicate PairOk(s: State, p: nat, q: nat)
    requires p < q < |s.wire|
  {
    && KeyOf(s.wire[p].attempt) == KeyOf(s.wire[q].attempt)
    && s.wire[p].attempt.idempotencyKey != s.wire[q].attempt.idempotencyKey
    && s.wire[q].attempt.expectedVersion <= s.wire[p].attempt.expectedVersion
    ==> Refused(s.wire[p])
  }

  ghost predicate Inv(s: State) {
    && (s.current.Some? ==> s.current.value < |s.ops|)
    && (forall o :: 0 <= o < |s.ops| ==> OpOk(s, o))
    && (forall i :: 0 <= i < |s.flights| ==> FlightOk(s, i))
    && (forall p :: 0 <= p < |s.wire| ==> PostOk(s, p))
    && (forall p, q :: 0 <= p < q < |s.wire| ==> PairOk(s, p, q))
  }

  // ----- preservation, one lemma per kind of step

  /** A change of readers, evidence or lifetime keeps the invariant: it never touches issued attempts. */
  lemma ScopeStep(s: State, scope: Scope)
    requires Inv(s) && s.scope.attempts <= scope.attempts
    ensures Inv(s.(scope := scope))
  {
    var t := s.(scope := scope);
    assert forall o :: 0 <= o < |s.ops| ==> OpOk(s, o) ==> OpOk(t, o);
    assert forall i :: 0 <= i < |s.flights| ==> FlightOk(s, i) ==> FlightOk(t, i);
    assert forall p :: 0 <= p < |s.wire| ==> PostOk(s, p) ==> PostOk(t, p);
    assert forall p, q :: 0 <= p < q < |s.wire| ==> PairOk(s, p, q) ==> PairOk(t, p, q);
  }

  lemma SettleStep(s: State, o: nat, outcome: Outcome)
    requires Inv(s) && s.current == Some(o) && s.ops[o].inFlight.None?
    requires !Consuming(Some(outcome))
    ensures Inv(Settle(s, o, outcome))
  {
    var t := Settle(s, o, outcome);
    assert forall k :: 0 <= k < |s.ops| ==> OpOk(s, k) ==> OpOk(t, k);
    assert forall i :: 0 <= i < |s.flights| ==> FlightOk(s, i) ==> FlightOk(t, i);
    assert forall p :: 0 <= p < |s.wire| ==> PostOk(s, p) ==> PostOk(t, p);
    assert forall p, q :: 0 <= p < q < |s.wire| ==> PairOk(s, p, q) ==> PairOk(t, p, q);
  }

  lemma StartStep(s: State, o: nat, phase: Phase)
    requires Inv(s) && s.current == Some(o) && s.ops[o].inFlight.None?
    requires AwaitsSettlement(phase, s.ops[o].settled)
    ensures Inv(StartFlight(s, o, phase))
  {
    var t := StartFlight(s, o, phase);
    assert forall k :: 0 <= k < |s.ops| ==> OpOk(s, k) ==> OpOk(t, k);
    assert forall i :: 0 <= i < |s.flights| ==> FlightOk(s, i) ==> FlightOk(t, i);
    assert FlightOk(t, |s.flights|);
    assert forall p :: 0 <= p < |s.wire| ==> PostOk(s, p) ==> PostOk(t, p);
    assert forall p, q :: 0 <= p < q < |s.wire| ==> PairOk(s, p, q) ==> PairOk(t, p, q);
  }

  ghost predicate Idle(s: State) {
    s.current.Some? ==> s.current.value < |s.ops| && s.ops[s.current.value].inFlight.None?
  }

  /** With no flight live, a version that is not consumed has only refused posts at or above it. */
  lemma NoPendingPosts(s: State, p: nat)
    requires Inv(s) && Idle(s) && p < |s.wire|
    ensures Refused(s.wire[p]) || VersionConsumed(s, s.wire[p].attempt)
  {
    assert PostOk(s, p);
    assert FlightOk(s, s.wire[p].flight);
  }

  /** Putting a new operation in place of one that is no longer in flight. */
  lemma CreateStep(s: State, op: Operation)
    requires Inv(s) && Idle(s)
    requires op.handle < |s.scope.attempts| && s.scope.attempts[op.handle] == op.attempt
    requires op.inFlight.None? && op.settled.None? && !VersionConsumed(s, op.attempt)
    ensures Inv(s.(ops := s.ops + [op], current := Some(|s.ops|), nextGeneration := s.nextGeneration + 1))
  {
    var t := s.(ops := s.ops + [op], current := Some(|s.ops|), nextGeneration := s.nextGeneration + 1);
    assert forall k :: 0 <= k < |s.ops| ==> OpOk(s, k) ==> OpOk(t, k);
    assert OpOk(t, |s.ops|);
    assert forall i :: 0 <= i < |s.flights| ==> FlightOk(s, i) ==> FlightOk(t, i);
    forall p | 0 <= p < |s.wire| ensures PostOk(t, p) {
      assert PostOk(s, p) && FlightOk(s, s.wire[p].flight);
      NoPendingPosts(s, p);
    }
    assert forall p, q :: 0 <= p < q < |s.wire| ==> PairOk(s, p, q) ==> PairOk(t, p, q);
  }

  lemma SubmitStep(s: State, o: nat)
    requires Inv(s) && s.current == Some(o)
    requires AwaitsSettlement(Submitting, s.ops[o].settled)
    ensures Inv(Submit(s, o))
  {
    if s.ops[o].inFlight.None? {
      if s.scope.ResolveForSubmit(s.ops[o].handle).None? {
        SettleStep(s, o, Invalid(ScopeChanged));
      } else {
        StartStep(s, o, Submitting);
      }
    }
  }

  /** Creating and submitting a new attempt, from a live scope whose version is not consumed. */
  lemma CreateAndSubmitStep(s: State, attempt: Attempt)
    requires Inv(s) && Idle(s) && !VersionConsumed(s, attempt)
    ensures Inv(CreateAndSubmit(s, attempt))
  {
    var created := s.(scope := s.scope.(attempts := s.scope.attempts + [attempt]));
    ScopeStep(s, created.scope);
    if created.scope.ResolveForSubmit(|s.scope.attempts|).Some? {
      var op := Operation(s.nextGeneration, |s.scope.attempts|, attempt, None, None, None);
      CreateStep(created, op);
      SubmitStep(
        created.(ops := created.ops + [op], current := Some(|s.ops|), nextGeneration := s.nextGeneration + 1), |s.ops|);
    }
  }

  /** What pressing does: nothing, a retry of the same attempt, or a new attempt above the recorded version. */
  lemma AcknowledgeShape(s: State, key: string)
    requires s.current.Some? ==> s.current.value < |s.ops|
    ensures var t := Acknowledge(s, key);
            || t == s
            || (SettledAs(CurrentOp(s), RetryAttempt) && s.current.Some? && s.ops[s.current.value].inFlight.None?
                && t == Submit(s, s.current.value))
            || (Idle(s) && s.scope.CurrentScope().Some? && CreateAttempt(s.scope.CurrentScope().value, key).Some?
                && !VersionConsumed(s, CreateAttempt(s.scope.CurrentScope().value, key).value)
                && t == CreateAndSubmit(s, CreateAttempt(s.scope.CurrentScope().value, key).value))
  {
  }

  lemma AcknowledgeStep(s: State, key: string)
    requires Inv(s)
    ensures Inv(Acknowledge(s, key))
  {
    AcknowledgeShape(s, key);
    var t := Acknowledge(s, key);
    if t != s {
      if SettledAs(CurrentOp(s), RetryAttempt) {
        SubmitStep(s, s.current.value);
      } else {
        CreateAndSubmitStep(s, CreateAttempt(s.scope.CurrentScope().value, key).value);
      }
    }
  }

  lemma ReconcileStep(s: State)
    requires Inv(s)
    ensures Inv(Reconcile(s))
  {
    var op := CurrentOp(s);
    if op.Some? && op.value.settled == Some(OutcomeUnknown) && op.value.inFlight.None? {
      if s.scope.ResolveForOperation(op.value.handle).None? {
        SettleStep(s, s.current.value, Invalid(ScopeChanged));
      } else {
        StartStep(s, s.current.value, Reconciling);
      }
    }
  }

  /** A new stage tells no less about any post of the flight than the old one. */
  ghost predicate KnowledgeKept(s: State, i: nat, stage: Stage)
    requires i < |s.flights|
  {
    forall p :: 0 <= p < |s.wire| && s.wire[p].flight == i && StageKnows(s.flights[i].stage, p, s.wire[p])
      ==> StageKnows(stage, p, s.wire[p])
  }

  /** Moving an unsettled flight to another unsettled stage that fits it and knows what it must. */
  lemma StageStep(s: State, i: nat, stage: Stage)
    requires Inv(s) && i < |s.flights| && Unsettled(s.flights[i])
    requires stage != Done && stage != Finishing && !stage.AwaitResponse?
    requires StageFits(s.flights[i].(stage := stage))
    requires KnowledgeKept(s, i, stage)
    ensures Inv(WithStage(s, i, stage))
  {
    var t := WithStage(s, i, stage);
    assert forall k :: 0 <= k < |s.ops| ==> OpOk(s, k) ==> OpOk(t, k);
    forall j | 0 <= j < |t.flights| ensures FlightOk(t, j) {
      assert FlightOk(s, j) && FlightOk(s, i);
    }
    assert forall p :: 0 <= p < |s.wire| ==> PostOk(s, p) ==> PostOk(t, p);
    assert forall p, q :: 0 <= p < q < |s.wire| ==> PairOk(s, p, q) ==> PairOk(t, p, q);
  }

  /** A post that leaves under the dispatch guard is accounted for by its own flight. */
  lemma SentPostOk(s: State, i: nat, bearer: SessionReply, resent: bool)
    requires Inv(s) && i < |s.flights| && s.flights[i].phase == Submitting
    requires s.flights[i].stage == AwaitSession || s.flights[i].stage == AwaitRefresh
    requires bearer.Session? && FlightOk(s, i)
    requires MatchesScope(s.ops[s.flights[i].op].attempt, s.scope.CurrentScope())
    requires Lower(bearer.identityId) == s.ops[s.flights[i].op].attempt.identityId
    requires Lower(bearer.sessionId) == s.ops[s.flights[i].op].attempt.sessionId
    ensures PostOk(Send(s, i, bearer, resent), |s.wire|)
  {
    GuardMeansLive(s.ops[s.flights[i].op].attempt, s.scope);
  }

  /** Every overtaken post was refused, and every other one for the custody has the same key. */
  lemma SentPairsOk(s: State, i: nat, bearer: SessionReply, resent: bool, p: nat)
    requires Inv(s) && i < |s.flights| && s.flights[i].phase == Submitting
    requires s.flights[i].stage == AwaitSession || s.flights[i].stage == AwaitRefresh
    requires bearer.Session? && FlightOk(s, i)
    requires p < |s.wire|
    ensures PairOk(Send(s, i, bearer, resent), p, |s.wire|)
  {
    assert PostOk(s, p);
  }

  lemma SentKeepsPost(s: State, i: nat, bearer: SessionReply, resent: bool, p: nat)
    requires Inv(s) && i < |s.flights| && s.flights[i].phase == Submitting
    requires s.flights[i].stage == AwaitSession || s.flights[i].stage == AwaitRefresh
    requires bearer.Session? && FlightOk(s, i)
    requires p < |s.wire|
    ensures PostOk(Send(s, i, bearer, resent), p)
  {
    assert PostOk(s, p);
  }

  lemma SendStep(s: State, i: nat, bearer: SessionReply, resent: bool)
    requires Inv(s) && i < |s.flights| && s.flights[i].phase == Submitting
    requires s.flights[i].stage == AwaitSession || s.flights[i].stage == AwaitRefresh
    requires bearer.Session? && FlightOk(s, i)
    requires MatchesScope(s.ops[s.flights[i].op].attempt, s.scope.CurrentScope())
    requires Lower(bearer.identityId) == s.ops[s.flights[i].op].attempt.identityId
    requires Lower(bearer.sessionId) == s.ops[s.flights[i].op].attempt.sessionId
    ensures Inv(Send(s, i, bearer, resent))
  {
    var t := Send(s, i, bearer, resent);
    var n := |s.wire|;
    assert forall k :: 0 <= k < |s.ops| ==> OpOk(s, k) ==> OpOk(t, k);
    assert forall j :: 0 <= j < |s.flights| ==> FlightOk(s, j) ==> FlightOk(t, j);
    forall p | 0 <= p < |t.wire| ensures PostOk(t, p) {
      if p < n {
        SentKeepsPost(s, i, bearer, resent, p);
      } else {
        SentPostOk(s, i, bearer, resent);
      }
    }
    forall p, q | 0 <= p < q < |t.wire| ensures PairOk(t, p, q) {
      if q < n {
        assert PairOk(s, p, q);
      } else {
        SentPairsOk(s, i, bearer, resent, p);
      }
    }
  }

  lemma SessionStep(s: State, i: nat, reply: SessionReply, aborted: bool)
    requires Inv(s) && i < |s.flights| && FlightOk(s, i)
    ensures Inv(SessionArrived(s, i, reply, aborted))
  {
    var f := s.flights[i];
    var attempt := s.ops[f.op].attempt;
    if f.stage == AwaitSession || f.stage == AwaitRefresh {
      if reply.SessionFailure? {
        StageStep(s, i, TransportDone(Threw(Unexpected)));
      } else if reply.NoSession? || Lower(reply.identityId) != attempt.identityId
                || Lower(reply.sessionId) != attempt.sessionId || !Dispatchable(s, attempt, aborted) {
        StageStep(s, i, TransportDone(Threw(AttemptInvalid)));
      } else {
        SendStep(s, i, reply, f.stage == AwaitRefresh);
      }
    }
  }

  /** The stage an answer leads to. */
  function AfterAnswer(answer: Answer, resent: bool): Stage {
    match answer
    case NoAnswer(cancelled) =>
      TransportDone(Threw(PublicError(if cancelled then RequestCancelled else TemporarilyUnavailable, None)))
    case HttpStatus(status) => if status == 401 && !resent then AwaitRefresh else AwaitBody(status)
  }

  /** Recording an answer changes one post and one stage, and nothing else. */
  lemma AnswerShape(s: State, i: nat, answer: Answer)
    requires i < |s.flights| && s.flights[i].stage.AwaitResponse? && s.flights[i].stage.post < |s.wire|
    ensures var f, n := s.flights[i], s.flights[i].stage.post;
            ResponseArrived(s, i, answer) ==
            s.(wire := s.wire[n := s.wire[n].(answer := Some(answer))],
               flights := s.flights[i := f.(stage := AfterAnswer(answer, f.stage.resent))])
  {
  }

  /** What an answer refuses, it refuses for good. */
  lemma AnsweredPost(s: State, i: nat, answer: Answer, t: State, p: nat)
    requires Inv(s) && i < |s.flights| && s.flights[i].stage.AwaitResponse? && p < |s.wire|
    requires var f, n := s.flights[i], s.flights[i].stage.post;
             && n < |s.wire| && s.wire[n].flight == i
             && t == s.(wire := s.wire[n := s.wire[n].(answer := Some(answer))],
                        flights := s.flights[i := f.(stage := AfterAnswer(answer, f.stage.resent))])
    ensures PostOk(t, p)
    ensures s.wire[p].attempt == t.wire[p].attempt
    ensures Refused(s.wire[p]) ==> Refused(t.wire[p])
  {
    assert PostOk(s, p);
    if s.wire[p].flight == i {
      assert StageKnows(t.flights[i].stage, p, t.wire[p]);
    }
  }

  lemma ResponseStep(s: State, i: nat, answer: Answer)
    requires Inv(s) && i < |s.flights| && FlightOk(s, i)
    ensures Inv(ResponseArrived(s, i, answer))
  {
    if s.flights[i].stage.AwaitResponse? {
      var t := ResponseArrived(s, i, answer);
      AnswerShape(s, i, answer);
      assert forall k :: 0 <= k < |s.ops| ==> OpOk(s, k) ==> OpOk(t, k);
      assert forall j :: 0 <= j < |s.flights| ==> FlightOk(s, j) ==> FlightOk(t, j);
      forall p | 0 <= p < |t.wire| ensures PostOk(t, p) {
        AnsweredPost(s, i, answer, t, p);
      }
      forall p, q | 0 <= p < q < |t.wire| ensures PairOk(t, p, q) {
        AnsweredPost(s, i, answer, t, p);
        AnsweredPost(s, i, answer, t, q);
        assert PairOk(s, p, q);
      }
    }
  }

  lemma BodyStep(s: State, i: nat, body: BodyReply)
    requires Inv(s) && i < |s.flights| && FlightOk(s, i)
    ensures Inv(BodyArrived(s, i, body))
  {
    if s.flights[i].stage.AwaitBody? {
      StageStep(s, i, TransportDone(InterpretBody(s.flights[i].stage.status, body)));
    }
  }

  lemma ServiceStep(s: State, i: nat)
    requires Inv(s) && i < |s.flights| && FlightOk(s, i)
    ensures Inv(ServiceContinues(s, i))
  {
    var f := s.flights[i];
    if f.stage.TransportDone? {
      StageStep(s, i, ServiceDone(ClassifyTransport(s, s.ops[f.op].attempt, f.stage.transport)));
    }
  }

  lemma ReadStep(s: State, i: nat, reply: ReadReply)
    requires Inv(s) && i < |s.flights| && FlightOk(s, i)
    ensures Inv(ReadArrived(s, i, reply))
  {
    var f := s.flights[i];
    if f.stage == AwaitRead {
      StageStep(s, i, ServiceDone(ClassifyRead(s, s.ops[f.op].attempt, reply)));
    }
  }

  /** What a settlement may change: evidence, larger consumed versions, the outcome, and the flight's stage. */
  ghost predicate Settlement(s: State, i: nat, t: State)
    requires i < |s.flights| && s.flights[i].op < |s.ops|
  {
    var o := s.flights[i].op;
    && t.scope.attempts == s.scope.attempts && t.scope.retired == s.scope.retired
    && t.current == s.current && t.wire == s.wire
    && t.flights == s.flights[i := s.flights[i].(stage := Finishing)]
    && |t.ops| == |s.ops| && t.ops[o].settled.Some?
    && t.ops == s.ops[o := s.ops[o].(settled := t.ops[o].settled)]
    && (forall key :: ConsumedVersion(s.consumed, key) <= ConsumedVersion(t.consumed, key))
    && (Consuming(t.ops[o].settled) ==> VersionConsumed(t, s.ops[o].attempt))
  }

  lemma FinishStep(s: State, i: nat, t: State)
    requires Inv(s) && i < |s.flights| && FlightOk(s, i) && Unsettled(s.flights[i])
    requires Settlement(s, i, t)
    requires forall p :: 0 <= p < |s.wire| && s.wire[p].flight == i && PostOk(s, p) ==>
               s.wire[p].answer.Some? && (Refused(s.wire[p]) || VersionConsumed(t, s.wire[p].attempt))
    ensures Inv(t)
  {
    forall k | 0 <= k < |t.ops| ensures OpOk(t, k) {
      assert OpOk(s, k);
    }
    forall j | 0 <= j < |t.flights| ensures FlightOk(t, j) {
      assert FlightOk(s, j);
    }
    forall p | 0 <= p < |t.wire| ensures PostOk(t, p) {
      assert PostOk(s, p) && FlightOk(s, s.wire[p].flight);
    }
    assert forall p, q :: 0 <= p < q < |s.wire| ==> PairOk(s, p, q) ==> PairOk(t, p, q);
  }

  lemma ServiceReadyStep(s: State, i: nat, available: bool, aborted: bool)
    requires Inv(s) && i < |s.flights| && FlightOk(s, i)
    ensures Inv(ServiceReady(s, i, available, aborted))
  {
    var f := s.flights[i];
    if f.stage == AwaitService {
      if !available {
        assert forall p :: 0 <= p < |s.wire| && s.wire[p].flight == i ==> !PostOk(s, p);
        assert OpOk(s, f.op);
        FinishStep(s, i, ServiceReady(s, i, available, aborted));
      } else {
        StageStep(s, i, ServiceReady(s, i, available, aborted).flights[i].stage);
      }
    }
  }

  /** The common form of a submit's settlement: maybe record, maybe clear evidence, then settle. */
  function Settled(s: State, o: nat, record: bool, clear: bool, outcome: Outcome): State
    requires o < |s.ops|
  {
    var recorded := if record then RecordConsumed(s, o) else s;
    Settle(if clear then ClearFor(recorded, o) else recorded, o, outcome)
  }

  lemma SettledShape(s: State, i: nat, record: bool, clear: bool, outcome: Outcome)
    requires i < |s.flights| && s.flights[i].op < |s.ops| && s.current == Some(s.flights[i].op)
    requires Consuming(Some(outcome)) ==> record
    ensures var t := WithStage(Settled(s, s.flights[i].op, record, clear, outcome), i, Finishing);
            Settlement(s, i, t) && (record ==> VersionConsumed(t, s.ops[s.flights[i].op].attempt))
  {
  }

  /** A submit settles without recording its version only over refusals, or before anything was sent. */
  lemma SettleSubmitForm(s: State, o: nat, sent: bool, r: ServiceResult)
    returns (record: bool, clear: bool, outcome: Outcome)
    requires o < |s.ops| && ResultFits(Submitting, r)
    ensures SettleSubmit(s, o, sent, r) == Settled(s, o, record, clear, outcome)
    ensures Consuming(Some(outcome)) ==> record
    ensures record || !sent || (r.SubmitThrew? && Releases(r.error))
    ensures record <==> outcome == Applied || outcome == OutcomeUnknown || (outcome == Invalid(ScopeChanged) && sent)
    ensures outcome.Rejected? || outcome == Invalid(AuthorityLost) || outcome == Applied ==> clear
  {
    var current := s.scope.OperationIsCurrent(s.ops[o].attempt);
    match r
    case Submitted =>
      record, clear, outcome := sent || current, current, if current then Applied else Invalid(ScopeChanged);
    case SubmitThrew(OutcomeUnknownError) => record, clear, outcome := true, true, OutcomeUnknown;
    case SubmitThrew(RejectedError(rejection)) => record, clear, outcome := false, true, Rejected(rejection);
    case SubmitThrew(AttemptInvalid) => record, clear, outcome := sent, true, Invalid(ScopeChanged);
    case SubmitThrew(PublicError(kind, status)) =>
      record, clear := false, true;
      outcome := if AuthorityError(kind, status) then Invalid(AuthorityLost) else Rejected(RefreshRequired);
    case SubmitThrew(Unexpected) => record, clear, outcome := true, false, OutcomeUnknown;
  }

  lemma SubmitSettles(s: State, i: nat)
    requires i < |s.flights| && FlightOk(s, i)
    requires s.flights[i].stage.ServiceDone? && s.flights[i].phase == Submitting
    ensures Settlement(s, i, ControllerContinues(s, i))
    ensures var f := s.flights[i];
            || VersionConsumed(ControllerContinues(s, i), s.ops[f.op].attempt)
            || !f.mayHaveDispatched
            || (f.stage.result.SubmitThrew? && Releases(f.stage.result.error))
  {
    var f := s.flights[i];
    var record, clear, outcome := SettleSubmitForm(s, f.op, f.mayHaveDispatched, f.stage.result);
    SettledShape(s, i, record, clear, outcome);
  }

  /** A retry settlement publishes evidence and records nothing: the unknown outcome before it already did. */
  lemma RetryShape(s: State, i: nat, pickup: PickupSnapshot)
    requires i < |s.flights| && FlightOk(s, i) && OpOk(s, s.flights[i].op) && s.flights[i].phase == Reconciling
    requires s.flights[i].stage.ServiceDone?
    ensures var o := s.flights[i].op;
            var (scope, published) := s.scope.PublishRetry(s.ops[o].attempt, pickup);
            Settlement(s, i, WithStage(Settle(s.(scope := scope), o, if published then RetryAttempt
                                                                     else Invalid(ScopeChanged)), i, Finishing))
  {
  }

  /** Reconciliation happens over a recorded version, so an outcome that needs one has it. */
  lemma ReconcileSettledShape(s: State, i: nat, record: bool, clear: bool, outcome: Outcome)
    requires i < |s.flights| && FlightOk(s, i) && OpOk(s, s.flights[i].op) && s.flights[i].phase == Reconciling
    requires s.flights[i].stage.ServiceDone?
    ensures Settlement(s, i, WithStage(Settled(s, s.flights[i].op, record, clear, outcome), i, Finishing))
  {
  }

  lemma ReconcileSettles(s: State, i: nat)
    requires i < |s.flights| && FlightOk(s, i) && OpOk(s, s.flights[i].op)
    requires s.flights[i].stage.ServiceDone? && s.flights[i].phase == Reconciling
    ensures Settlement(s, i, ControllerContinues(s, i))
  {
    var o, r := s.flights[i].op, s.flights[i].stage.result;
    if r.Reconciled? {
      if !s.scope.OperationIsCurrent(s.ops[o].attempt) {
        ReconcileSettledShape(s, i, false, false, Invalid(ScopeChanged));
      } else if r.value.RetrySameAttempt? {
        RetryShape(s, i, r.value.pickup);
      } else if r.value.AlreadyApplied? {
        ReconcileSettledShape(s, i, true, true, Applied);
      } else {
        ReconcileSettledShape(s, i, false, true, Invalid(r.value.reason));
      }
    } else {
      ReconcileSettledShape(s, i, false, true, Invalid(AuthorityLost));
      ReconcileSettledShape(s, i, false, false, OutcomeUnknown);
    }
  }

  lemma SettleSubmitStep(s: State, i: nat)
    requires Inv(s) && i < |s.flights| && FlightOk(s, i)
    requires s.flights[i].stage.ServiceDone? && s.flights[i].phase == Submitting
    ensures Inv(ControllerContinues(s, i))
  {
    SubmitSettles(s, i);
    FinishStep(s, i, ControllerContinues(s, i));
  }

  lemma SettleReconcileStep(s: State, i: nat)
    requires Inv(s) && i < |s.flights| && FlightOk(s, i)
    requires s.flights[i].stage.ServiceDone? && s.flights[i].phase == Reconciling
    ensures Inv(ControllerContinues(s, i))
  {
    assert OpOk(s, s.flights[i].op);
    ReconcileSettles(s, i);
    FinishStep(s, i, ControllerContinues(s, i));
  }

  lemma ClearStep(s: State, i: nat)
    requires Inv(s) && i < |s.flights| && FlightOk(s, i)
    ensures Inv(ClearFlight(s, i))
  {
    if s.flights[i].stage == Finishing {
      var t := ClearFlight(s, i);
      forall k | 0 <= k < |t.ops| ensures OpOk(t, k) {
        assert OpOk(s, k);
      }
      forall j | 0 <= j < |t.flights| ensures FlightOk(t, j) {
        assert FlightOk(s, j);
      }
      assert forall p :: 0 <= p < |s.wire| ==> PostOk(s, p) ==> PostOk(t, p);
      assert forall p, q :: 0 <= p < q < |s.wire| ==> PairOk(s, p, q) ==> PairOk(t, p, q);
    }
  }

  /** Identity, context, evidence, lifetime and retirement: nothing but the scope changes. */
  predicate Environment(e: Event) {
    e.IdentityChanges? || e.ContextChanges? || e.EvidencePublished? || e.EvidenceCleared?
    || e.LifetimeRetained? || e.LifetimeReleased? || e.ScopeRetired?
  }

  lemma EnvironmentShape(s: State, e: Event)
    requires Environment(e)
    ensures Apply(s, e) == s.(scope := Apply(s, e).scope) && Apply(s, e).scope.attempts == s.scope.attempts
  {
  }

  /** A segment of a flight, or the arrival of what it waits for. */
  lemma FlightEventStep(s: State, e: Event)
    requires Inv(s) && !Environment(e) && !e.AcknowledgePressed? && !e.ReconcilePressed?
    ensures Inv(Apply(s, e))
  {
    if Exists(s, e.flight) {
      assert FlightOk(s, e.flight);
      match e
      case ServiceResolved(i, available, aborted) => ServiceReadyStep(s, i, available, aborted);
      case SessionReplied(i, reply, aborted) => SessionStep(s, i, reply, aborted);
      case ResponseReceived(i, answer) => ResponseStep(s, i, answer);
      case BodyReceived(i, body) => BodyStep(s, i, body);
      case ServiceResumed(i) => ServiceStep(s, i);
      case ReadReceived(i, reply) => ReadStep(s, i, reply);
      case ControllerResumed(i) => ControllerStep(s, i);
      case FlightCleared(i) => ClearStep(s, i);
    }
  }

  lemma ControllerStep(s: State, i: nat)
    requires Inv(s) && i < |s.flights| && FlightOk(s, i)
    ensures Inv(ControllerContinues(s, i))
  {
    if s.flights[i].stage.ServiceDone? {
      if s.flights[i].phase == Submitting {
        SettleSubmitStep(s, i);
      } else {
        SettleReconcileStep(s, i);
      }
    }
  }

  /** Every step of the system keeps the invariant. */
  lemma StepKeepsInv(s: State, e: Event)
    requires Inv(s)
    ensures Inv(Apply(s, e))
  {
    if Environment(e) {
      EnvironmentShape(s, e);
      ScopeStep(s, Apply(s, e).scope);
    } else if e.AcknowledgePressed? {
      AcknowledgeStep(s, e.key);
    } else if e.ReconcilePressed? {
      ReconcileStep(s);
    } else {
      FlightEventStep(s, e);
    }
  }

  /** Every state of every run satisfies the invariant. */
  lemma {:induction false} RunKeepsInv(s: State, trace: seq<Event>)
    requires Inv(s)
    ensures Inv(Execute(s, trace))
    decreases |trace|
  {
    if trace != [] {
      StepKeepsInv(s, trace[0]);
      RunKeepsInv(Apply(s, trace[0]), trace[1..]);
    }
  }
}

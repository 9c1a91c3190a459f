/** "Applied" is never reported without an answer that proves it, nor before the pickup was acknowledged. */
module MerchantProof {
  import opened Options
  import opened Identifiers
  import opened PickupEngine
  import opened MerchantCommand
  import opened MerchantScope
  import opened MerchantController
  import opened MerchantInvariant
  import opened MerchantTheorems
  import opened MerchantOutcomes
  import opened ReconciliationReads

  /** The event hands a flight of the operation the answer that proves its acknowledgement. */
  predicate Proves(s: State, e: Event, o: nat) {
    && o < |s.ops|
    && match e
       case BodyReceived(i, body) =>
         && i < |s.flights| && s.flights[i].op == o && s.flights[i].stage.AwaitBody?
         && OkStatus(s.flights[i].stage.status) && Proving(body, s.ops[o].attempt)
       case ReadReceived(i, ReadPickup(p)) =>
         && i < |s.flights| && s.flights[i].op == o && s.flights[i].stage == AwaitRead
         && SnapshotIsValid(p) && WaitsAbove(p, s.ops[o].attempt) && ProvingTimes(p)
       case _ => false
  }

  /** A flight that carries such an answer towards its settlement. */
  predicate CarriesProof(s: State, i: nat, o: nat) {
    && i < |s.flights| && s.flights[i].op == o && o < |s.ops|
    && match s.flights[i].stage
       case TransportDone(Value(Some(body))) => BodyProves(body, s.ops[o].attempt)
       case ServiceDone(Submitted) => true
       case ServiceDone(Reconciled(AlreadyApplied(_))) => true
       case _ => false
  }

  ghost predicate Claims(s: State, o: nat) {
    && o < |s.ops|
    && (s.ops[o].settled == Some(Applied) || exists i: nat :: CarriesProof(s, i, o))
  }

  /** A stage that carries no proof. */
  predicate Bare(stage: Stage) {
    match stage
    case TransportDone(Value(Some(_))) => false
    case ServiceDone(Submitted) => false
    case ServiceDone(Reconciled(AlreadyApplied(_))) => false
    case _ => true
  }

  /** A step after which no operation is newly applied and no flight newly carries a proof. */
  ghost predicate Quiet(s: State, t: State) {
    && |s.ops| <= |t.ops| && |s.flights| <= |t.flights|
    && (forall o :: 0 <= o < |t.ops| && t.ops[o].settled == Some(Applied) ==> o < |s.ops| && s.ops[o].settled == Some(Applied))
    && (forall o :: 0 <= o < |s.ops| ==> t.ops[o].attempt == s.ops[o].attempt)
    && (forall i :: 0 <= i < |s.flights| ==> t.flights[i].op == s.flights[i].op < |s.ops|)
    && (forall i :: 0 <= i < |s.flights| && t.flights[i].stage != s.flights[i].stage ==> Bare(t.flights[i].stage))
    && (forall i :: |s.flights| <= i < |t.flights| ==> Bare(t.flights[i].stage))
  }

  lemma QuietClaims(s: State, t: State, o: nat)
    requires Quiet(s, t) && Claims(t, o)
    ensures Claims(s, o)
  {
    if t.ops[o].settled != Some(Applied) {
      var i: nat :| CarriesProof(t, i, o);
      assert CarriesProof(s, i, o);
    }
  }

  lemma FlightsHaveOps(s: State)
    requires Inv(s)
    ensures forall i :: 0 <= i < |s.flights| ==> s.flights[i].op < |s.ops|
  {
    forall i | 0 <= i < |s.flights| ensures s.flights[i].op < |s.ops| {
      assert FlightOk(s, i);
    }
  }

  lemma SettleIsQuiet(s: State, o: nat, outcome: Outcome)
    requires Inv(s) && o < |s.ops| && outcome != Applied
    ensures Quiet(s, Settle(s, o, outcome))
  {
    FlightsHaveOps(s);
  }

  lemma StartIsQuiet(s: State, o: nat, phase: Phase)
    requires Inv(s) && o < |s.ops|
    ensures Quiet(s, StartFlight(s, o, phase))
  {
    FlightsHaveOps(s);
  }

  lemma SubmitIsQuiet(s: State, o: nat)
    requires Inv(s) && o < |s.ops|
    ensures Quiet(s, Submit(s, o))
  {
    FlightsHaveOps(s);
    SettleIsQuiet(s, o, Invalid(ScopeChanged));
    StartIsQuiet(s, o, Submitting);
  }

  lemma CreateIsQuiet(s: State, attempt: Attempt)
    requires Inv(s)
    ensures Quiet(s, CreateAndSubmit(s, attempt))
  {
    FlightsHaveOps(s);
  }

  lemma ReconcilePressIsQuiet(s: State)
    requires Inv(s)
    ensures Quiet(s, Reconcile(s))
  {
    FlightsHaveOps(s);
    if s.current.Some? {
      SettleIsQuiet(s, s.current.value, Invalid(ScopeChanged));
      StartIsQuiet(s, s.current.value, Reconciling);
    }
  }

  lemma AcknowledgeIsQuiet(s: State, key: string)
    requires Inv(s)
    ensures Quiet(s, Acknowledge(s, key))
  {
    FlightsHaveOps(s);
    AcknowledgeShape(s, key);
    if SettledAs(CurrentOp(s), RetryAttempt) && s.current.Some? {
      SubmitIsQuiet(s, s.current.value);
    } else if s.scope.CurrentScope().Some? && CreateAttempt(s.scope.CurrentScope().value, key).Some? {
      CreateIsQuiet(s, CreateAttempt(s.scope.CurrentScope().value, key).value);
    }
  }

  lemma EnvironmentIsQuiet(s: State, e: Event)
    requires Inv(s) && Environment(e)
    ensures Quiet(s, Apply(s, e))
  {
    FlightsHaveOps(s);
    EnvironmentShape(s, e);
  }

  lemma BareMoveIsQuiet(s: State, i: nat, stage: Stage)
    requires Inv(s) && i < |s.flights| && Bare(stage)
    ensures Quiet(s, WithStage(s, i, stage))
  {
    FlightsHaveOps(s);
  }

  lemma UnavailableIsQuiet(s: State, i: nat, record: bool)
    requires Inv(s) && Exists(s, i)
    ensures var o := s.flights[i].op;
            Quiet(s, WithStage(Settle(if record then RecordConsumed(s, o) else s, o, OutcomeUnknown), i, Finishing))
  {
    FlightsHaveOps(s);
  }

  lemma ReadyIsQuiet(s: State, i: nat, available: bool, aborted: bool)
    requires Inv(s) && Exists(s, i)
    ensures Quiet(s, ServiceReady(s, i, available, aborted))
  {
    FlightsHaveOps(s);
    if s.flights[i].stage == AwaitService {
      if available {
        BareMoveIsQuiet(s, i, ServiceReady(s, i, available, aborted).flights[i].stage);
      } else {
        UnavailableIsQuiet(s, i, s.flights[i].phase == Submitting);
      }
    }
  }

  lemma SessionIsQuiet(s: State, i: nat, reply: SessionReply, aborted: bool)
    requires Inv(s) && Exists(s, i)
    ensures Quiet(s, SessionArrived(s, i, reply, aborted))
  {
    FlightsHaveOps(s);
  }

  lemma ClearIsQuiet(s: State, i: nat)
    requires Inv(s) && Exists(s, i)
    ensures Quiet(s, ClearFlight(s, i))
  {
    FlightsHaveOps(s);
  }

  lemma ResponseIsQuiet(s: State, i: nat, answer: Answer)
    requires Inv(s) && Exists(s, i)
    ensures Quiet(s, ResponseArrived(s, i, answer))
  {
    FlightsHaveOps(s);
    assert FlightOk(s, i);
    if s.flights[i].stage.AwaitResponse? {
      AnswerShape(s, i, answer);
    }
  }

  /** Where one flight moved, a claim is old or belongs to that flight. */
  lemma MovedClaims(s: State, i: nat, stage: Stage, o: nat)
    requires i < |s.flights| && Claims(WithStage(s, i, stage), o)
    ensures Claims(s, o) || (s.flights[i].op == o && CarriesProof(WithStage(s, i, stage), i, o))
  {
    var t := WithStage(s, i, stage);
    if t.ops[o].settled != Some(Applied) {
      var j: nat :| CarriesProof(t, j, o);
      if j != i {
        assert CarriesProof(s, j, o);
      }
    }
  }

  lemma BodyClaims(s: State, i: nat, body: BodyReply, o: nat)
    requires Inv(s) && Exists(s, i) && Claims(BodyArrived(s, i, body), o)
    ensures Claims(s, o) || Proves(s, BodyReceived(i, body), o)
  {
    if s.flights[i].stage.AwaitBody? {
      MovedClaims(s, i, TransportDone(InterpretBody(s.flights[i].stage.status, body)), o);
    }
  }

  lemma ReadClaims(s: State, i: nat, reply: ReadReply, o: nat)
    requires Inv(s) && Exists(s, i) && Claims(ReadArrived(s, i, reply), o)
    ensures Claims(s, o) || Proves(s, ReadReceived(i, reply), o)
  {
    if s.flights[i].stage == AwaitRead {
      MovedClaims(s, i, ServiceDone(ClassifyRead(s, s.ops[s.flights[i].op].attempt, reply)), o);
    }
  }

  lemma ServiceClaims(s: State, i: nat, o: nat)
    requires Inv(s) && Exists(s, i) && Claims(ServiceContinues(s, i), o)
    ensures Claims(s, o)
  {
    var f := s.flights[i];
    if f.stage.TransportDone? {
      var r := ClassifyTransport(s, s.ops[f.op].attempt, f.stage.transport);
      MovedClaims(s, i, ServiceDone(r), o);
      if f.op == o && r == Submitted {
        assert CarriesProof(s, i, o);
      }
    }
  }

  /** Only a flight that carries a proof settles its operation as applied. */
  lemma SettlementClaims(s: State, i: nat, o: nat)
    requires Inv(s) && Issued(s) && Exists(s, i) && Claims(ControllerContinues(s, i), o)
    ensures Claims(s, o)
  {
    var f, t := s.flights[i], ControllerContinues(s, i);
    if f.stage.ServiceDone? {
      assert FlightOk(s, i) && OpOk(s, f.op);
      if f.phase == Submitting {
        SubmitSettles(s, i);
        ResumedSubmit(s, i);
      } else {
        ReconcileSettles(s, i);
        ResumedReconciliation(s, i);
      }
      AppliedOrMoved(s, i, t, o);
    }
  }

  lemma AppliedOrMoved(s: State, i: nat, t: State, o: nat)
    requires Exists(s, i) && s.flights[i].stage.ServiceDone? && Settlement(s, i, t) && Claims(t, o)
    requires t.ops[s.flights[i].op].settled == Some(Applied) ==> CarriesProof(s, i, s.flights[i].op)
    ensures Claims(s, o)
  {
    if t.ops[o].settled == Some(Applied) {
      if o == s.flights[i].op {
        assert CarriesProof(s, i, o);
      }
    } else {
      var j: nat :| CarriesProof(t, j, o);
      assert CarriesProof(s, j, o);
    }
  }

  /** A step makes a new claim only by delivering a proof. */
  lemma StepClaims(s: State, e: Event, o: nat)
    requires Inv(s) && Issued(s) && Claims(Apply(s, e), o)
    ensures Claims(s, o) || Proves(s, e, o)
  {
    if Environment(e) {
      EnvironmentIsQuiet(s, e);
      QuietClaims(s, Apply(s, e), o);
    } else if e.AcknowledgePressed? || e.ReconcilePressed? {
      if e.AcknowledgePressed? {
        AcknowledgeIsQuiet(s, e.key);
      } else {
        ReconcilePressIsQuiet(s);
      }
      QuietClaims(s, Apply(s, e), o);
    } else if Exists(s, e.flight) {
      FlightClaims(s, e, o);
    }
  }

  /** Segments that neither deliver nor pass on an answer. */
  predicate Silent(e: Event) {
    e.ServiceResolved? || e.SessionReplied? || e.ResponseReceived? || e.FlightCleared?
  }

  lemma SilentIsQuiet(s: State, e: Event)
    requires Inv(s) && Silent(e) && Exists(s, e.flight)
    ensures Quiet(s, Apply(s, e))
  {
    var t := Apply(s, e);
    match e
    case ServiceResolved(i, available, aborted) =>
      assert t == ServiceReady(s, i, available, aborted);
      ReadyIsQuiet(s, i, available, aborted);
    case SessionReplied(i, reply, aborted) =>
      assert t == SessionArrived(s, i, reply, aborted);
      SessionIsQuiet(s, i, reply, aborted);
    case ResponseReceived(i, answer) =>
      assert t == ResponseArrived(s, i, answer);
      ResponseIsQuiet(s, i, answer);
    case FlightCleared(i) =>
      assert t == ClearFlight(s, i);
      ClearIsQuiet(s, i);
  }

  lemma FlightClaims(s: State, e: Event, o: nat)
    requires Inv(s) && Issued(s) && !Environment(e) && !e.AcknowledgePressed? && !e.ReconcilePressed?
    requires Exists(s, e.flight) && Claims(Apply(s, e), o)
    ensures Claims(s, o) || Proves(s, e, o)
  {
    if Silent(e) {
      SilentIsQuiet(s, e);
      QuietClaims(s, Apply(s, e), o);
    } else {
      match e
      case BodyReceived(i, body) => BodyClaims(s, i, body, o);
      case ReadReceived(i, reply) => ReadClaims(s, i, reply, o);
      case ServiceResumed(i) => ServiceClaims(s, i, o);
      case ControllerResumed(i) => SettlementClaims(s, i, o);
    }
  }

  lemma {:induction false} ExecuteSplits(s: State, trace: seq<Event>, k: nat)
    requires k <= |trace|
    ensures Execute(s, trace) == Execute(Execute(s, trace[..k]), trace[k..])
    decreases |trace|
  {
    if k == 0 {
      assert trace[0..] == trace;
    } else {
      assert trace[..k][0] == trace[0] && trace[..k][1..] == trace[1..][..k - 1] && trace[k..] == trace[1..][k - 1..];
      ExecuteSplits(Apply(s, trace[0]), trace[1..], k - 1);
    }
  }

  /** Some event of the run delivered a proof to a flight of the operation. */
  ghost predicate ProvedIn(s: State, trace: seq<Event>, o: nat, k: nat) {
    k < |trace| && Proves(Execute(s, trace[..k]), trace[k], o)
  }

  lemma {:induction false} ClaimIsProved(s: State, trace: seq<Event>, o: nat) returns (k: nat)
    requires Inv(s) && Issued(s) && Claims(Execute(s, trace), o) && !Claims(s, o)
    ensures ProvedIn(s, trace, o, k)
    decreases |trace|
  {
    if trace != [] {
      var n := |trace| - 1;
      var t := Execute(s, trace[..n]);
      ExecuteSplits(s, trace, n);
      assert trace[n..] == [trace[n]] && Execute(t, [trace[n]]) == Apply(t, trace[n]);
      RunKeepsIssued(s, trace[..n]);
      StepClaims(t, trace[n], o);
      if Proves(t, trace[n], o) {
        k := n;
      } else {
        k := ClaimIsProved(s, trace[..n], o);
        assert trace[..n][..k] == trace[..k];
      }
    }
  }

  /**
   In every run, an operation that counts as applied was handed, in one of its own flights, a
   success body or a pickup read that proves its acknowledgement.
   */
  lemma AppliedWasProved(identity: Option<Identity>, context: Option<Context>, trace: seq<Event>, o: nat)
    returns (k: nat)
    requires var t := Execute(Initial(identity, context), trace); o < |t.ops| && t.ops[o].settled == Some(Applied)
    ensures ProvedIn(Initial(identity, context), trace, o, k)
  {
    k := ClaimIsProved(Initial(identity, context), trace, o);
  }

  /** What a delivered answer shows of the pickup: its state and version. */
  function Shown(e: Event): Option<Versioned> {
    match e
    case BodyReceived(_, ResultDocument(Some(body))) => Some(Versioned(body.state, body.version))
    case ReadReceived(_, ReadPickup(p)) => Some(Versioned(p.state, p.version))
    case _ => None
  }

  /**
   If every answer shows the pickup as the backend's state machine left it after some actions from
   its arrival at the attempt's version, then an applied operation's pickup was really acknowledged:
   the last transition before the proving answer was an acknowledgement at or above that version.
   */
  lemma AppliedWasAcknowledged(identity: Option<Identity>, context: Option<Context>, trace: seq<Event>, o: nat,
                               actions: seq<seq<PickupAction>>)
    returns (k: nat)
    requires var t := Execute(Initial(identity, context), trace); o < |t.ops| && t.ops[o].settled == Some(Applied)
    requires |actions| == |trace|
    requires var arrived := Versioned(Arrived, Execute(Initial(identity, context), trace).ops[o].attempt.expectedVersion);
             forall n :: 0 <= n < |trace| && Shown(trace[n]).Some? ==> Shown(trace[n]).value == Run(arrived, actions[n])
    ensures k < |trace|
    ensures var arrived := Versioned(Arrived, Execute(Initial(identity, context), trace).ops[o].attempt.expectedVersion);
            var applied := PickupEngine.Applied(arrived, actions[k]);
            && applied != [] && applied[|applied| - 1].0 == AcknowledgeArrival
            && applied[|applied| - 1].1 >= arrived.version
  {
    var initial := Initial(identity, context);
    k := AppliedWasProved(identity, context, trace, o);
    var s := Execute(initial, trace[..k]);
    RunKeepsInv(initial, trace[..k]);
    ExecuteSplits(initial, trace, k);
    AttemptsNeverChange(s, trace[k..], o);
    var arrived := Versioned(Arrived, s.ops[o].attempt.expectedVersion);
    assert Shown(trace[k]).Some? && Shown(trace[k]).value == Run(arrived, actions[k]);
    VersionCountsApplied(arrived, actions[k]);
    WaitingWasAcknowledged(arrived, actions[k]);
  }
}

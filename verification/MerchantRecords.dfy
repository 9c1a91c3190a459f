/** What a settled merchant operation leaves behind: recorded versions and published evidence. */
module MerchantRecords {
  import opened Options
  import opened Identifiers
  import opened PickupEngine
  import opened MerchantCommand
  import opened MerchantScope
  import opened MerchantController
  import opened MerchantInvariant
  import opened MerchantTheorems
  import opened MerchantOutcomes

  /** The version a key has consumed once a settlement recorded an attempt. */
  function Raised(consumed: map<CustodyKey, int>, attempt: Attempt, key: CustodyKey): int {
    var prior := ConsumedVersion(consumed, key);
    if key == KeyOf(attempt) && prior < attempt.expectedVersion then attempt.expectedVersion else prior
  }

  /** The effect of a settlement in its common form. */
  lemma SettledLeaves(t: State, i: nat, record: bool, clear: bool, outcome: Outcome, key: CustodyKey)
    requires Inv(t) && Exists(t, i) && t.current == Some(t.flights[i].op)
    ensures var o := t.flights[i].op;
            var attempt, u := t.ops[o].attempt, WithStage(Settled(t, o, record, clear, outcome), i, Finishing);
            && o < |u.ops| && u.ops[o].settled == Some(outcome)
            && ConsumedVersion(u.consumed, key) ==
               (if record then Raised(t.consumed, attempt, key) else ConsumedVersion(t.consumed, key))
            && u.scope == (if clear && t.scope.EvidenceMatchesAttempt(attempt) then t.scope.(evidence := None) else t.scope)
  {
  }

  /**
   A settled submit records its version exactly if it ended applied or unknown, or lost its scope
   after the dispatch; a refusal records nothing and withdraws the attempt's evidence, so that the
   same version can be tried again only over newly published evidence.
   */
  lemma SubmitRecordsExactly(t: State, i: nat, key: CustodyKey)
    requires Inv(t) && Exists(t, i) && t.flights[i].phase == Submitting && t.flights[i].stage.ServiceDone?
    ensures var o, u := t.flights[i].op, Apply(t, ControllerResumed(i));
            var attempt := t.ops[o].attempt;
            && o < |u.ops| && u.ops[o].settled.Some?
            && var outcome := u.ops[o].settled.value;
            && var records := || outcome == Applied || outcome == OutcomeUnknown
                              || (outcome == Invalid(ScopeChanged) && t.flights[i].mayHaveDispatched);
            && ConsumedVersion(u.consumed, key) ==
               (if records then Raised(t.consumed, attempt, key) else ConsumedVersion(t.consumed, key))
            && (outcome.Rejected? || outcome == Invalid(AuthorityLost) || outcome == Applied ==>
                  !u.scope.EvidenceMatchesAttempt(attempt))
            && (u.scope == t.scope || u.scope == t.scope.(evidence := None))
            && (!t.scope.EvidenceMatchesAttempt(attempt) ==> u.scope == t.scope)
  {
    assert FlightOk(t, i);
    var f := t.flights[i];
    var record, clear, outcome := SettleSubmitForm(t, f.op, f.mayHaveDispatched, f.stage.result);
    SettledLeaves(t, i, record, clear, outcome, key);
  }

  /**
   A settled reconciliation records nothing new.  A retry makes the attempt live again, applied and
   the lost authority or state withdraw its evidence, and an unknown outcome leaves the scope alone.
   */
  lemma ReconciliationLeaves(t: State, i: nat, key: CustodyKey)
    requires Inv(t) && Issued(t) && Exists(t, i) && t.flights[i].phase == Reconciling && t.flights[i].stage.ServiceDone?
    ensures var o, u := t.flights[i].op, Apply(t, ControllerResumed(i));
            var attempt := t.ops[o].attempt;
            && o < |u.ops| && u.ops[o].settled.Some?
            && var outcome := u.ops[o].settled.value;
            && ConsumedVersion(u.consumed, key) == ConsumedVersion(t.consumed, key)
            && (outcome == RetryAttempt ==> LiveEquals(attempt, u.scope))
            && (outcome == Applied || outcome == Invalid(AuthorityLost) || outcome == Invalid(StateChanged) ==>
                  !u.scope.EvidenceMatchesAttempt(attempt))
            && (outcome == OutcomeUnknown ==> u.scope == t.scope)
  {
    assert FlightOk(t, i) && OpOk(t, t.flights[i].op);
    var r := t.flights[i].stage.result;
    if r.Reconciled? && r.value.RetrySameAttempt? {
      RetryEvidenceAccepted(t.scope, t.ops[t.flights[i].op].attempt, r.value.pickup);
    }
  }

  /** Every recorded version is the version of an operation of that custody: nothing else is ever blocked. */
  ghost predicate RecordsIssued(s: State) {
    forall key :: key in s.consumed ==> RecordedBy(s, key)
  }

  ghost predicate RecordedBy(s: State, key: CustodyKey) {
    key in s.consumed
    && exists o :: 0 <= o < |s.ops| && KeyOf(s.ops[o].attempt) == key && s.ops[o].attempt.expectedVersion == s.consumed[key]
  }

  /** A step that records at most the version of one operation. */
  ghost predicate RecordsOne(s: State, t: State, o: nat) {
    && o < |s.ops|
    && (t.consumed == s.consumed
        || t.consumed == s.consumed[KeyOf(s.ops[o].attempt) := Raised(s.consumed, s.ops[o].attempt, KeyOf(s.ops[o].attempt))])
  }

  lemma RecordingKeepsIssued(s: State, t: State, o: nat)
    requires RecordsIssued(s) && RecordsOne(s, t, o) && Issued(s)
    requires |s.ops| <= |t.ops| && forall k :: 0 <= k < |s.ops| ==> t.ops[k].attempt == s.ops[k].attempt
    ensures RecordsIssued(t)
  {
    forall key | key in t.consumed ensures RecordedBy(t, key) {
      if key in s.consumed {
        assert RecordedBy(s, key);
        var k :| 0 <= k < |s.ops| && KeyOf(s.ops[k].attempt) == key && s.ops[k].attempt.expectedVersion == s.consumed[key];
        assert KeyOf(t.ops[k].attempt) == key;
      }
      assert KeyOf(t.ops[o].attempt) == KeyOf(s.ops[o].attempt);
    }
  }

  lemma SubmitRecordsOne(s: State, o: nat, sent: bool, r: ServiceResult)
    requires o < |s.ops| && ResultFits(Submitting, r)
    ensures RecordsOne(s, SettleSubmit(s, o, sent, r), o)
  {
    var record, clear, outcome := SettleSubmitForm(s, o, sent, r);
  }

  lemma ReconcileRecordsOne(s: State, o: nat, r: ServiceResult)
    requires o < |s.ops|
    ensures RecordsOne(s, SettleReconcile(s, o, r), o)
  {
  }

  lemma SettlementRecordsOne(s: State, i: nat)
    requires Inv(s) && Exists(s, i)
    ensures RecordsOne(s, ControllerContinues(s, i), s.flights[i].op)
  {
    assert FlightOk(s, i);
    var f := s.flights[i];
    if f.stage.ServiceDone? {
      if f.phase == Submitting {
        SubmitRecordsOne(s, f.op, f.mayHaveDispatched, f.stage.result);
      } else {
        ReconcileRecordsOne(s, f.op, f.stage.result);
      }
    }
  }

  lemma ReadyRecordsOne(s: State, i: nat, available: bool, aborted: bool)
    requires Inv(s) && Exists(s, i)
    ensures RecordsOne(s, ServiceReady(s, i, available, aborted), s.flights[i].op)
  {
  }

  lemma PressRecordsNothing(s: State, key: string)
    ensures Acknowledge(s, key).consumed == s.consumed
  {
  }

  lemma OthersRecordNothing(s: State, e: Event)
    requires !e.ServiceResolved? && !e.ControllerResumed?
    ensures Apply(s, e).consumed == s.consumed
  {
    if e.AcknowledgePressed? {
      PressRecordsNothing(s, e.key);
    }
  }

  lemma GrowingKeepsRecords(s: State, t: State)
    requires RecordsIssued(s) && Grows(s, t) && t.consumed == s.consumed
    ensures RecordsIssued(t)
  {
    forall key | key in t.consumed ensures RecordedBy(t, key) {
      assert RecordedBy(s, key);
      var k :| 0 <= k < |s.ops| && KeyOf(s.ops[k].attempt) == key && s.ops[k].attempt.expectedVersion == s.consumed[key];
      assert KeyOf(t.ops[k].attempt) == key;
    }
  }

  lemma StepRecords(s: State, e: Event) returns (o: nat)
    requires Inv(s)
    ensures Apply(s, e).consumed == s.consumed || RecordsOne(s, Apply(s, e), o)
  {
    o := 0;
    if e.ServiceResolved? && Exists(s, e.flight) {
      o := s.flights[e.flight].op;
      ReadyRecordsOne(s, e.flight, e.available, e.aborted);
    } else if e.ControllerResumed? && Exists(s, e.flight) {
      o := s.flights[e.flight].op;
      SettlementRecordsOne(s, e.flight);
    } else if !e.ServiceResolved? && !e.ControllerResumed? {
      OthersRecordNothing(s, e);
    }
  }

  lemma StepKeepsRecords(s: State, e: Event)
    requires Inv(s) && Issued(s) && RecordsIssued(s)
    ensures RecordsIssued(Apply(s, e))
  {
    StepGrows(s, e);
    var t := Apply(s, e);
    var o := StepRecords(s, e);
    if t.consumed == s.consumed {
      GrowingKeepsRecords(s, t);
    } else {
      RecordingKeepsIssued(s, t, o);
    }
  }

  /** In every run, a custody is blocked up to the version of one of its own operations and no further. */
  lemma {:induction false} RecordedWasIssued(s: State, trace: seq<Event>)
    requires Inv(s) && Issued(s) && RecordsIssued(s)
    ensures RecordsIssued(Execute(s, trace))
    decreases |trace|
  {
    if trace != [] {
      StepKeepsInv(s, trace[0]);
      StepKeepsIssued(s, trace[0]);
      StepKeepsRecords(s, trace[0]);
      RecordedWasIssued(Apply(s, trace[0]), trace[1..]);
    }
  }
}

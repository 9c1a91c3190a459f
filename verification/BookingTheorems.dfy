/** What is written into a booking intent, and by what: every stored status over every run. */
module BookingTheorems {
  import opened Options
  import opened BookingIntent

  /** A flight whose reply counts: awaited, not invalidated, of the current generation and continuity. */
  predicate Counts(s: State, i: nat) {
    i < |s.flights| && s.flights[i].stage == AwaitApi && s.flights[i].invalidated.None? && IsCurrent(s, s.flights[i])
  }

  /** A reply that counts writes exactly what it says into the intent its flight was started for. */
  lemma ReplyDecides(s: State, i: nat, reply: Reply)
    requires Reachable(s) && Counts(s, i)
    ensures s.store.Some? && s.store.value.intent == s.flights[i].intent
    ensures Apply(s, FlightReplied(i, reply)).store ==
            Some(s.store.value.(status := match reply
                                          case PreviewReturned(true) => Stale
                                          case PreviewReturned(false) => ConfirmationLocked
                                          case PreviewFailed => FailedSafe))
  {
    ReachableInv(s);
    assert FlightOk(s, i);
  }

  /** Any other reply writes nothing. */
  lemma OtherRepliesWriteNothing(s: State, i: nat, reply: Reply)
    requires !Counts(s, i)
    ensures Apply(s, FlightReplied(i, reply)).store == s.store
  {
  }

  /** The event, in the state it met, that puts a record with this status into the store. */
  ghost predicate Writes(s: State, e: Event, r: Record) {
    match r.status
    case Draft => e.BeginCalled? && s.store.None? && e.wellFormed && e.continuity == Some(r.continuity) && e.input == r.input
    case Previewing => e == PreviewCalled(r.input, false) && s.store == Some(r.(status := Draft))
    case ConfirmationLocked =>
      e.FlightReplied? && e.reply == PreviewReturned(false) && Counts(s, e.flight) && s.flights[e.flight].intent == r.intent
    case FailedSafe =>
      e.FlightReplied? && e.reply == PreviewFailed && Counts(s, e.flight) && s.flights[e.flight].intent == r.intent
    case Stale =>
      || (e.FlightReplied? && e.reply == PreviewReturned(true) && Counts(s, e.flight)
          && s.flights[e.flight].intent == r.intent)
      || (((e.ReadCalled? && e.expired) || (e.IdentityReplaced? && e.expired))
          && s.store == Some(r.(status := ConfirmationLocked)))
  }

  lemma FlightWrites(s: State, e: Event)
    requires Inv(s) && (e.FlightStarted? || e.FlightReplied? || e.FlightEnded? || e.CancelSignalled?)
    requires Apply(s, e).store.Some? && Apply(s, e).store != s.store
    ensures Writes(s, e, Apply(s, e).store.value)
  {
    assert FlightOk(s, e.flight);
  }

  lemma ChangeIsWritten(s: State, e: Event)
    requires Inv(s) && Apply(s, e).store.Some? && Apply(s, e).store != s.store
    ensures Writes(s, e, Apply(s, e).store.value)
  {
    if e.FlightStarted? || e.FlightReplied? || e.FlightEnded? || e.CancelSignalled? {
      FlightWrites(s, e);
    }
  }

  lemma {:induction false} ExecuteSnoc(s: State, trace: seq<Event>, e: Event)
    ensures Execute(s, trace + [e]) == Apply(Execute(s, trace), e)
    decreases |trace|
  {
    ExecuteSplits(s, trace, [e]);
    var t := Execute(s, trace);
    assert [e][1..] == [];
    assert Execute(t, [e]) == Execute(Apply(t, e), []);
  }

  /** The event at a position of a run wrote this record. */
  ghost predicate WrittenAt(trace: seq<Event>, k: nat, r: Record) {
    k < |trace| && Writes(Execute(INITIAL, trace[..k]), trace[k], r)
  }

  /**
   Over every run, whatever is stored was put there by its own event: a lock by an unexpired preview
   for this intent's live flight, a safe failure by a failed one, and staleness by an expired
   preview or by reading an expired lock.
   */
  lemma {:induction false} StoredStatusWasWritten(trace: seq<Event>) returns (k: nat)
    requires Execute(INITIAL, trace).store.Some?
    ensures WrittenAt(trace, k, Execute(INITIAL, trace).store.value)
    decreases |trace|
  {
    assert trace != [];
    var before, e := trace[..|trace| - 1], trace[|trace| - 1];
    var s := Execute(INITIAL, before);
    assert trace == before + [e];
    ExecuteSnoc(INITIAL, before, e);
    RunKeepsInv(INITIAL, before);
    if s.store == Execute(INITIAL, trace).store {
      k := StoredStatusWasWritten(before);
      assert trace[..k] == before[..k] && trace[k] == before[k];
    } else {
      ChangeIsWritten(s, e);
      k := |before|;
    }
  }

  /** Leaving an intent empties the store and keeps its flight from writing; only clearing forgets that there was one. */
  lemma LeavingEmptiesTheStore(s: State)
    requires Reachable(s)
    ensures Apply(s, RetireCalled).store.None? && Apply(s, RetireCalled).terminal == Retired
    ensures Apply(s, ClearCalled).store.None? && Apply(s, ClearCalled).terminal == Idle
    ensures forall i :: 0 <= i < |s.flights| ==>
              !Counts(Apply(s, RetireCalled), i) && !Counts(Apply(s, ClearCalled), i)
  {
    ReachableInv(s);
    forall i | 0 <= i < |s.flights| ensures !Counts(Apply(s, RetireCalled), i) && !Counts(Apply(s, ClearCalled), i) {
      assert FlightOk(s, i);
    }
  }

  /** An intent begins exactly into an empty store, under a current continuity and well-formed identifiers. */
  lemma BeginIsExact(s: State, continuity: Option<nat>, input: int, wellFormed: bool)
    ensures Begin(s, continuity, input, wellFormed) != s ==>
              s.store.None? && Begin(s, continuity, input, wellFormed).store.Some?
    ensures s.store.None? && continuity.Some? && continuity.value !in s.lapsed && wellFormed <==>
              Begin(s, continuity, input, wellFormed).nextIntent == s.nextIntent + 1
    ensures Begin(s, continuity, input, wellFormed).nextIntent == s.nextIntent + 1 ==>
              Begin(s, continuity, input, wellFormed).store == Some(Record(Draft, s.nextIntent, continuity.value, input))
  {
  }

  /** A stored draft of a current continuity, with no flight about, can be previewed, and its reply then decides. */
  lemma DraftCanBeDecided(s: State, reply: Reply)
    requires Reachable(s) && s.store.Some? && s.store.value.status == Draft && s.flight.None?
    requires s.store.value.continuity !in s.lapsed
    ensures var n := |s.flights|;
            var t := Execute(s, [PreviewCalled(s.store.value.input, false), FlightStarted(n), FlightReplied(n, reply)]);
            t.store == Some(s.store.value.(status := match reply
                                                     case PreviewReturned(true) => Stale
                                                     case PreviewReturned(false) => ConfirmationLocked
                                                     case PreviewFailed => FailedSafe))
  {
    ReachableInv(s);
    var n := |s.flights|;
    var trace := [PreviewCalled(s.store.value.input, false), FlightStarted(n), FlightReplied(n, reply)];
    assert trace[1..] == [FlightStarted(n), FlightReplied(n, reply)] && trace[1..][1..] == [FlightReplied(n, reply)];
    var s1 := Apply(s, trace[0]);
    var s2 := Apply(s1, trace[1]);
    assert Execute(s, trace) == Execute(s1, trace[1..]) == Execute(s2, [FlightReplied(n, reply)]);
    assert [FlightReplied(n, reply)][1..] == [];
    assert Execute(s2, [FlightReplied(n, reply)]) == Apply(s2, FlightReplied(n, reply));
  }

  /** Another preview of the same intent joins the flight or is refused: nothing changes while one is under way. */
  lemma PreviewIsShared(s: State, input: int, aborted: bool)
    requires Reachable(s)
    ensures s.flight.Some? ==> Apply(s, PreviewCalled(input, aborted)) == s
    ensures |Apply(s, PreviewCalled(input, aborted)).flights| == |s.flights| + 1 ==>
              && !aborted && s.store == Some(Record(Draft, s.store.value.intent, s.store.value.continuity, input))
              && Apply(s, PreviewCalled(input, aborted)).flight == Some(|s.flights|)
              && forall i :: 0 <= i < |s.flights| ==> !Counts(Apply(s, PreviewCalled(input, aborted)), i)
  {
    ReachableInv(s);
    forall i | 0 <= i < |s.flights| && |Apply(s, PreviewCalled(input, aborted)).flights| == |s.flights| + 1
      ensures !Counts(Apply(s, PreviewCalled(input, aborted)), i)
    {
      assert FlightOk(s, i);
    }
  }
}

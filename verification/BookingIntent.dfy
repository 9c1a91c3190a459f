/**
 The booking intent controller: one stored intent, one preview flight at a time, cancellation,
 and late replies.  Identity continuities are named by numbers; once one has lapsed it never
 becomes current again.
 */
module BookingIntent {
  import opened Options

  datatype Status = Draft | Previewing | ConfirmationLocked | FailedSafe | Stale

  datatype Record = Record(status: Status, intent: nat, continuity: nat, input: int)

  datatype Terminal = Idle | Retired

  datatype Invalidation = WasCancelled | WasRetired | WasCleared | WasSuperseded

  /** A preview runs from its microtask, through the API call, to its final callback. */
  datatype Stage = Scheduled | AwaitApi | Finishing | Done

  datatype Flight = Flight(
    generation: nat, intent: nat, continuity: nat, input: int, invalidated: Option<Invalidation>, stage: Stage)

  datatype State = State(
    store: Option<Record>, flight: Option<nat>, generation: nat, continuity: Option<nat>, terminal: Terminal,
    flights: seq<Flight>, lapsed: set<nat>, nextIntent: nat)

  // ----- the record transitions

  function LockPreview(r: Record): Option<Record> {
    if r.status != Previewing then None else Some(r.(status := ConfirmationLocked))
  }

  function FailPreview(r: Record): Option<Record> {
    if r.status != Previewing then None else Some(r.(status := FailedSafe))
  }

  function StalePreview(r: Record): Option<Record> {
    if r.status != Previewing && r.status != ConfirmationLocked then None else Some(r.(status := Stale))
  }

  // ----- calls

  function WithFlight(s: State, i: nat, f: Flight): State
    requires i < |s.flights|
  {
    s.(flights := s.flights[i := f])
  }

  function Invalidate(s: State, why: Invalidation): State {
    var bumped := s.(generation := s.generation + 1, flight := None);
    if s.flight.Some? && s.flight.value < |s.flights|
    then WithFlight(bumped, s.flight.value, s.flights[s.flight.value].(invalidated := Some(why)))
    else bumped
  }

  function Drop(s: State, terminal: Terminal): State {
    s.(store := None, terminal := terminal)
  }

  function Read(s: State, expired: bool): State {
    if s.store.None? then s
    else if s.store.value.continuity in s.lapsed then Drop(Invalidate(s, WasSuperseded), Retired)
    else if s.store.value.status == ConfirmationLocked && expired then s.(store := StalePreview(s.store.value))
    else s
  }

  /** Begin needs an empty store and a current continuity; generated identifiers may be malformed. */
  function Begin(s: State, continuity: Option<nat>, input: int, wellFormed: bool): State {
    if s.store.Some? || continuity.None? || continuity.value in s.lapsed || !wellFormed then s
    else
      s.(continuity := continuity, terminal := Idle, nextIntent := s.nextIntent + 1,
         store := Some(Record(Draft, s.nextIntent, continuity.value, input)))
  }

  function Preview(s: State, input: int, aborted: bool): State {
    if s.flight.Some? || s.store.None? || s.store.value.status != Draft || s.store.value.input != input then s
    else if aborted then Drop(s, Retired)
    else
      var g := s.generation + 1;
      var record := s.store.value;
      s.(generation := g, store := Some(record.(status := Previewing)), flight := Some(|s.flights|),
         flights := s.flights + [Flight(g, record.intent, record.continuity, input, None, Scheduled)])
  }

  function ReplaceIdentity(s: State, next: Option<nat>, expired: bool): State {
    if next == s.continuity && next.Some? && next.value !in s.lapsed then Read(s, expired)
    else Drop(Invalidate(s, WasSuperseded).(continuity := next), Retired)
  }

  // ----- the segments of one preview

  predicate IsCurrent(s: State, f: Flight) {
    f.generation == s.generation && s.continuity == Some(f.continuity) && f.continuity !in s.lapsed
  }

  function FlightStarts(s: State, i: nat): State
    requires i < |s.flights|
  {
    var f := s.flights[i];
    if f.stage != Scheduled then s
    else if f.invalidated.Some? || !IsCurrent(s, f) then WithFlight(s, i, f.(stage := Finishing))
    else WithFlight(s, i, f.(stage := AwaitApi))
  }

  datatype Reply = PreviewReturned(expired: bool) | PreviewFailed

  function Written(active: Record, reply: Reply): Option<Record> {
    match reply
    case PreviewReturned(expired) => if expired then StalePreview(active) else LockPreview(active)
    case PreviewFailed => FailPreview(active)
  }

  function FlightReplies(s: State, i: nat, reply: Reply): State
    requires i < |s.flights|
  {
    var f := s.flights[i];
    if f.stage != AwaitApi then s
    else
      var over := WithFlight(s, i, f.(stage := Finishing));
      if f.invalidated.Some? || !IsCurrent(s, f) || s.store.None? || s.store.value.status != Previewing then over
      else over.(store := Written(s.store.value, reply))
  }

  function FlightFinally(s: State, i: nat): State
    requires i < |s.flights|
  {
    if s.flights[i].stage != Finishing then s
    else
      WithFlight(s, i, s.flights[i].(stage := Done))
      .(flight := if s.flight == Some(i) then None else s.flight)
  }

  /** The caller's abort listener, attached until the flight's final callback. */
  function Cancel(s: State, i: nat): State
    requires i < |s.flights|
  {
    var f := s.flights[i];
    if f.stage == Done || f.invalidated.Some? then s
    else
      Drop(WithFlight(s, i, f.(invalidated := Some(WasCancelled))).(generation := s.generation + 1), Retired)
  }

  // ----- runs

  datatype Event =
    | BeginCalled(continuity: Option<nat>, input: int, wellFormed: bool)
    | PreviewCalled(input: int, aborted: bool)
    | ReadCalled(expired: bool)
    | IdentityReplaced(next: Option<nat>, expired: bool)
    | RetireCalled
    | ClearCalled
    | ContinuityLapsed(gone: nat)
    | FlightStarted(flight: nat)
    | FlightReplied(flight: nat, reply: Reply)
    | FlightEnded(flight: nat)
    | CancelSignalled(flight: nat)

  function Apply(s: State, e: Event): State {
    match e
    case BeginCalled(continuity, input, wellFormed) => Begin(s, continuity, input, wellFormed)
    case PreviewCalled(input, aborted) => Preview(s, input, aborted)
    case ReadCalled(expired) => Read(s, expired)
    case IdentityReplaced(next, expired) => ReplaceIdentity(s, next, expired)
    case RetireCalled => Drop(Invalidate(s, WasRetired), Retired)
    case ClearCalled => Drop(Invalidate(s, WasCleared), Idle)
    case ContinuityLapsed(c) => s.(lapsed := s.lapsed + {c})
    case FlightStarted(i) => if i < |s.flights| then FlightStarts(s, i) else s
    case FlightReplied(i, reply) => if i < |s.flights| then FlightReplies(s, i, reply) else s
    case FlightEnded(i) => if i < |s.flights| then FlightFinally(s, i) else s
    case CancelSignalled(i) => if i < |s.flights| then Cancel(s, i) else s
  }

  function Execute(s: State, trace: seq<Event>): State
    decreases |trace|
  {
    if trace == [] then s else Execute(Apply(s, trace[0]), trace[1..])
  }

  const INITIAL: State := State(None, None, 0, None, Idle, [], {}, 0)

  // ----- the invariant

  predicate Unwritten(f: Flight) {
    f.stage == Scheduled || f.stage == AwaitApi
  }

  /** A live flight that was not invalidated is the shared one, and the store still holds its own intent. */
  predicate FlightOk(s: State, i: nat)
    requires i < |s.flights|
  {
    var f := s.flights[i];
    && f.generation <= s.generation && f.intent < s.nextIntent
    && (f.stage != Done && f.invalidated.None? ==>
          && s.flight == Some(i) && f.generation == s.generation
          && s.store.Some? && s.store.value.intent == f.intent && s.store.value.continuity == f.continuity
          && s.continuity == Some(f.continuity)
          && (Unwritten(f) ==> s.store.value.status == Previewing))
    && (f.invalidated.Some? ==> f.generation < s.generation)
  }

  /** A stored preview in progress has its flight, unless its continuity lapsed. */
  predicate PreviewOk(s: State) {
    s.store.Some? && s.store.value.status == Previewing && s.store.value.continuity !in s.lapsed ==>
      && s.flight.Some? && s.flight.value < |s.flights|
      && Unwritten(s.flights[s.flight.value]) && s.flights[s.flight.value].invalidated.None?
      && s.flights[s.flight.value].intent == s.store.value.intent
  }

  ghost predicate Inv(s: State) {
    && (s.flight.Some? ==> s.flight.value < |s.flights| && s.flights[s.flight.value].stage != Done)
    && (s.store.Some? ==> s.store.value.intent < s.nextIntent && s.continuity == Some(s.store.value.continuity))
    && (forall i :: 0 <= i < |s.flights| ==> FlightOk(s, i))
    && PreviewOk(s)
  }

  lemma DropKeepsInv(s: State, why: Invalidation, continuity: Option<nat>, terminal: Terminal)
    requires Inv(s)
    ensures Inv(Drop(Invalidate(s, why).(continuity := continuity), terminal))
  {
    var t := Drop(Invalidate(s, why).(continuity := continuity), terminal);
    forall i | 0 <= i < |t.flights| ensures FlightOk(t, i) {
      assert FlightOk(s, i);
    }
  }

  lemma ReadKeepsInv(s: State, expired: bool)
    requires Inv(s)
    ensures Inv(Read(s, expired))
  {
    if s.store.Some? {
      if s.store.value.continuity in s.lapsed {
        DropKeepsInv(s, WasSuperseded, s.continuity, Retired);
        assert Invalidate(s, WasSuperseded).(continuity := s.continuity) == Invalidate(s, WasSuperseded);
      } else {
        var t := Read(s, expired);
        assert forall i :: 0 <= i < |s.flights| ==> FlightOk(s, i) ==> FlightOk(t, i);
      }
    }
  }

  lemma PreviewKeepsInv(s: State, input: int, aborted: bool)
    requires Inv(s)
    ensures Inv(Preview(s, input, aborted))
  {
    var t := Preview(s, input, aborted);
    forall i | 0 <= i < |t.flights| ensures FlightOk(t, i) {
      if i < |s.flights| {
        assert FlightOk(s, i);
      }
    }
  }

  lemma FlightStepKeepsInv(s: State, e: Event)
    requires Inv(s) && (e.FlightStarted? || e.FlightReplied? || e.FlightEnded? || e.CancelSignalled?)
    ensures Inv(Apply(s, e))
  {
    var t := Apply(s, e);
    if e.flight < |s.flights| {
      assert FlightOk(s, e.flight);
      forall i | 0 <= i < |t.flights| ensures FlightOk(t, i) {
        assert FlightOk(s, i);
      }
    }
  }

  lemma StepKeepsInv(s: State, e: Event)
    requires Inv(s)
    ensures Inv(Apply(s, e))
  {
    match e
    case BeginCalled(continuity, input, wellFormed) =>
      assert forall i :: 0 <= i < |s.flights| ==> FlightOk(s, i) ==> FlightOk(Apply(s, e), i);
    case PreviewCalled(input, aborted) => PreviewKeepsInv(s, input, aborted);
    case ReadCalled(expired) => ReadKeepsInv(s, expired);
    case IdentityReplaced(next, expired) =>
      ReadKeepsInv(s, expired);
      DropKeepsInv(s, WasSuperseded, next, Retired);
    case RetireCalled =>
      DropKeepsInv(s, WasRetired, s.continuity, Retired);
      assert Invalidate(s, WasRetired).(continuity := s.continuity) == Invalidate(s, WasRetired);
    case ClearCalled =>
      DropKeepsInv(s, WasCleared, s.continuity, Idle);
      assert Invalidate(s, WasCleared).(continuity := s.continuity) == Invalidate(s, WasCleared);
    case ContinuityLapsed(c) =>
      assert forall i :: 0 <= i < |s.flights| ==> FlightOk(s, i) ==> FlightOk(Apply(s, e), i);
    case _ => FlightStepKeepsInv(s, e);
  }

  lemma {:induction false} RunKeepsInv(s: State, trace: seq<Event>)
    requires Inv(s)
    ensures Inv(Execute(s, trace))
    decreases |trace|
  {
    if trace != [] {
      StepKeepsInv(s, trace[0]);
      RunKeepsInv(Apply(s, trace[0]), trace[1..]);
    }
  }

  ghost predicate Reachable(s: State) {
    exists trace: seq<Event> :: s == Execute(INITIAL, trace)
  }

  lemma ReachableInv(s: State)
    requires Reachable(s)
    ensures Inv(s)
  {
    var trace: seq<Event> :| s == Execute(INITIAL, trace);
    RunKeepsInv(INITIAL, trace);
  }

  // ----- theorems

  predicate OfFlight(e: Event, i: nat) {
    (e.FlightStarted? || e.FlightReplied? || e.FlightEnded? || e.CancelSignalled?) && e.flight == i
  }

  /** A flight that was cancelled, retired, cleared or superseded does not touch the store. */
  lemma InvalidatedFlightNeverWrites(s: State, i: nat, e: Event)
    requires i < |s.flights| && s.flights[i].invalidated.Some? && OfFlight(e, i)
    ensures Apply(s, e).store == s.store
    ensures i < |Apply(s, e).flights| && Apply(s, e).flights[i].invalidated.Some?
  {
  }

  lemma {:induction false} InvalidatedStays(s: State, i: nat, trace: seq<Event>)
    requires i < |s.flights| && s.flights[i].invalidated.Some?
    ensures i < |Execute(s, trace).flights| && Execute(s, trace).flights[i].invalidated.Some?
    decreases |trace|
  {
    if trace != [] {
      InvalidatedStays(Apply(s, trace[0]), i, trace[1..]);
    }
  }

  /** Over every later interleaving, nothing such a flight does reaches the store. */
  lemma InvalidatedFlightIsSilentForever(s: State, i: nat, trace: seq<Event>, e: Event)
    requires i < |s.flights| && s.flights[i].invalidated.Some? && OfFlight(e, i)
    ensures Apply(Execute(s, trace), e).store == Execute(s, trace).store
  {
    InvalidatedStays(s, i, trace);
    InvalidatedFlightNeverWrites(Execute(s, trace), i, e);
  }

  /**
   Whatever a flight's start, reply, abort or final callback does to the store, it does to the
   intent it was started for: an intent begun later is untouched by earlier replies.
   */
  lemma FlightTouchesOnlyItsIntent(s: State, i: nat, e: Event)
    requires Reachable(s) && i < |s.flights| && OfFlight(e, i)
    requires Apply(s, e).store != s.store
    ensures s.store.Some? && s.store.value.intent == s.flights[i].intent
    ensures Apply(s, e).store.Some? ==> Apply(s, e).store.value.intent == s.flights[i].intent
    ensures s.flights[i].invalidated.None? && s.flight == Some(i)
  {
    ReachableInv(s);
    assert FlightOk(s, i);
  }

  /**
   A stored preview in progress that no live flight stands for belongs to a lapsed continuity, so
   the next read retires it.  Flights that were invalidated may still await their late replies.
   */
  lemma OrphanedPreviewHasLapsed(s: State, expired: bool)
    requires Reachable(s) && s.store.Some? && s.store.value.status == Previewing
    requires forall i :: 0 <= i < |s.flights| && Unwritten(s.flights[i]) ==> s.flights[i].invalidated.Some?
    ensures s.store.value.continuity in s.lapsed
    ensures Read(s, expired).store.None? && Read(s, expired).terminal == Retired
  {
    ReachableInv(s);
  }

  /** The same for a controller that shares no flight. */
  lemma UnsharedPreviewHasLapsed(s: State, expired: bool)
    requires Reachable(s) && s.store.Some? && s.store.value.status == Previewing && s.flight.None?
    ensures s.store.value.continuity in s.lapsed
    ensures Read(s, expired).store.None? && Read(s, expired).terminal == Retired
  {
    ReachableInv(s);
  }

  /** A retired preview that awaits its reply, a new intent, and a preview whose continuity lapsed before it started. */
  const LATE_REPLY: seq<Event> :=
    [BeginCalled(Some(0), 0, true), PreviewCalled(0, false), FlightStarted(0), RetireCalled,
     BeginCalled(Some(1), 0, true), PreviewCalled(0, false), ContinuityLapsed(1), FlightStarted(1), FlightEnded(1)]

  function AfterRetire(): State {
    State(None, None, 2, Some(0), Retired, [Flight(1, 0, 0, 0, Some(WasRetired), AwaitApi)], {}, 1)
  }

  lemma RetiredFlightAwaits()
    ensures Execute(INITIAL, LATE_REPLY[..4]) == AfterRetire()
  {
    var s1 := Apply(INITIAL, LATE_REPLY[0]);
    var s2 := Apply(s1, LATE_REPLY[1]);
    var s3 := Apply(s2, LATE_REPLY[2]);
    assert s3.flights == [Flight(1, 0, 0, 0, None, AwaitApi)];
    assert Apply(s3, LATE_REPLY[3]) == AfterRetire();
    UnrollFour(INITIAL, LATE_REPLY[..4]);
  }

  lemma UnrollFour(s: State, trace: seq<Event>)
    requires |trace| == 4
    ensures Execute(s, trace) == Apply(Apply(Apply(Apply(s, trace[0]), trace[1]), trace[2]), trace[3])
  {
    var s1 := Apply(s, trace[0]);
    var s2 := Apply(s1, trace[1]);
    var s3 := Apply(s2, trace[2]);
    assert Execute(s1, trace[1..]) == Execute(s2, trace[2..]) by { assert trace[1..][1..] == trace[2..]; }
    assert Execute(s2, trace[2..]) == Execute(s3, trace[3..]) by { assert trace[2..][1..] == trace[3..]; }
    assert Execute(s3, trace[3..]) == Execute(Apply(s3, trace[3]), []) by { assert trace[3..][1..] == []; }
  }

  function AfterSecondPreview(): State {
    State(Some(Record(Previewing, 1, 1, 0)), Some(1), 3, Some(1), Idle,
          [Flight(1, 0, 0, 0, Some(WasRetired), AwaitApi), Flight(3, 1, 1, 0, None, Scheduled)], {}, 2)
  }

  function Orphaned(): State {
    State(Some(Record(Previewing, 1, 1, 0)), None, 3, Some(1), Idle,
          [Flight(1, 0, 0, 0, Some(WasRetired), AwaitApi), Flight(3, 1, 1, 0, None, Done)], {1}, 2)
  }

  lemma SecondPreviewStarts()
    ensures Apply(Apply(AfterRetire(), LATE_REPLY[4]), LATE_REPLY[5]) == AfterSecondPreview()
  {
  }

  lemma SecondPreviewIsOrphaned()
    ensures Apply(Apply(Apply(AfterSecondPreview(), LATE_REPLY[6]), LATE_REPLY[7]), LATE_REPLY[8]) == Orphaned()
  {
    var s7 := Apply(AfterSecondPreview(), LATE_REPLY[6]);
    assert s7.lapsed == {1};
    var s8 := Apply(s7, LATE_REPLY[7]);
    assert s8.flights[1] == Flight(3, 1, 1, 0, None, Finishing);
  }

  /** Such an orphan exists beside a flight that still awaits its reply. */
  lemma OrphanBesideLateReply()
    ensures Execute(INITIAL, LATE_REPLY) == Orphaned()
    ensures Orphaned().flights[0].stage == AwaitApi && Orphaned().flight.None?
  {
    RetiredFlightAwaits();
    ExecuteSplits(INITIAL, LATE_REPLY[..4], LATE_REPLY[4..]);
    assert LATE_REPLY[..4] + LATE_REPLY[4..] == LATE_REPLY;
    SecondPreviewStarts();
    SecondPreviewIsOrphaned();
    var s5 := Apply(AfterRetire(), LATE_REPLY[4]);
    assert Execute(AfterRetire(), LATE_REPLY[4..]) == Execute(s5, LATE_REPLY[5..]) by {
      assert LATE_REPLY[4..][1..] == LATE_REPLY[5..];
    }
    UnrollFour(s5, LATE_REPLY[5..]);
  }

  lemma {:induction false} ExecuteSplits(s: State, a: seq<Event>, b: seq<Event>)
    ensures Execute(s, a + b) == Execute(Execute(s, a), b)
    decreases |a|
  {
    if a == [] {
      assert a + b == b;
    } else {
      assert (a + b)[1..] == a[1..] + b;
      ExecuteSplits(Apply(s, a[0]), a[1..], b);
    }
  }

  /** At most one preview that may still write exists, and it is the one new callers share. */
  lemma OnePreviewMayWrite(s: State, i: nat, j: nat)
    requires Reachable(s) && i < |s.flights| && j < |s.flights|
    requires s.flights[i].stage != Done && s.flights[i].invalidated.None?
    requires s.flights[j].stage != Done && s.flights[j].invalidated.None?
    ensures i == j && s.flight == Some(i)
  {
    ReachableInv(s);
    assert FlightOk(s, i) && FlightOk(s, j);
  }

  // ----- the object

  class Controller {
    var store: Option<Record>
    var flight: Option<nat>
    var generation: nat
    var continuity: Option<nat>
    var terminal: Terminal
    var flights: seq<Flight>
    var lapsed: set<nat>
    var nextIntent: nat

    function View(): State
      reads this
    {
      State(store, flight, generation, continuity, terminal, flights, lapsed, nextIntent)
    }

    ghost predicate Valid()
      reads this
    {
      Inv(View())
    }

    constructor ()
      ensures Valid() && View() == INITIAL
    {
      store, flight, generation, continuity, terminal := None, None, 0, None, Idle;
      flights, lapsed, nextIntent := [], {}, 0;
    }

    method BeginIntent(read: Option<nat>, input: int, wellFormed: bool) returns (begun: bool)
      requires Valid()
      modifies this`store, this`continuity, this`terminal, this`nextIntent
      ensures Valid() && View() == Apply(old(View()), BeginCalled(read, input, wellFormed))
      ensures begun <==> store != old(store)
    {
      StepKeepsInv(View(), BeginCalled(read, input, wellFormed));
      if store.Some? || read.None? || read.value in lapsed || !wellFormed {
        return false;
      }
      continuity, terminal := read, Idle;
      store := Some(Record(Draft, nextIntent, read.value, input));
      nextIntent := nextIntent + 1;
      begun := true;
    }

    method StartPreview(input: int, aborted: bool)
      requires Valid()
      modifies this`store, this`terminal, this`generation, this`flight, this`flights
      ensures Valid() && View() == Apply(old(View()), PreviewCalled(input, aborted))
    {
      StepKeepsInv(View(), PreviewCalled(input, aborted));
      if flight.Some? || store.None? || store.value.status != Draft || store.value.input != input {
        return;
      }
      if aborted {
        store, terminal := None, Retired;
        return;
      }
      generation := generation + 1;
      flight := Some(|flights|);
      flights := flights + [Flight(generation, store.value.intent, store.value.continuity, input, None, Scheduled)];
      store := Some(store.value.(status := Previewing));
    }

    method InvalidateFlight(why: Invalidation)
      requires flight.Some? ==> flight.value < |flights|
      modifies this`generation, this`flight, this`flights
      ensures View() == Invalidate(old(View()), why)
    {
      generation := generation + 1;
      if flight.Some? {
        flights := flights[flight.value := flights[flight.value].(invalidated := Some(why))];
        flight := None;
      }
    }

    method ReadView(expired: bool)
      requires Valid()
      modifies this`store, this`terminal, this`generation, this`flight, this`flights
      ensures Valid() && View() == Apply(old(View()), ReadCalled(expired))
    {
      StepKeepsInv(View(), ReadCalled(expired));
      if store.Some? && store.value.continuity in lapsed {
        InvalidateFlight(WasSuperseded);
        store, terminal := None, Retired;
      } else if store.Some? && store.value.status == ConfirmationLocked && expired {
        store := StalePreview(store.value);
      }
    }

    method ReplaceIdentityWith(next: Option<nat>, expired: bool)
      requires Valid()
      modifies this
      ensures Valid() && View() == Apply(old(View()), IdentityReplaced(next, expired))
    {
      StepKeepsInv(View(), IdentityReplaced(next, expired));
      if next == continuity && next.Some? && next.value !in lapsed {
        ReadView(expired);
        return;
      }
      InvalidateFlight(WasSuperseded);
      continuity, store, terminal := next, None, Retired;
    }

    method Retire()
      requires Valid()
      modifies this
      ensures Valid() && View() == Apply(old(View()), RetireCalled)
    {
      StepKeepsInv(View(), RetireCalled);
      InvalidateFlight(WasRetired);
      store, terminal := None, Retired;
    }

    method Clear()
      requires Valid()
      modifies this
      ensures Valid() && View() == Apply(old(View()), ClearCalled)
    {
      StepKeepsInv(View(), ClearCalled);
      InvalidateFlight(WasCleared);
      store, terminal := None, Idle;
    }

    /** The preview operation's first segment. */
    method StartFlight(i: nat)
      requires Valid() && i < |flights| && flights[i].stage == Scheduled
      modifies this`flights
      ensures Valid() && View() == Apply(old(View()), FlightStarted(i))
    {
      StepKeepsInv(View(), FlightStarted(i));
      var f := flights[i];
      var proceeds := f.invalidated.None? && IsCurrent(View(), f);
      flights := flights[i := f.(stage := if proceeds then AwaitApi else Finishing)];
    }

    /** The preview operation after the API answered or failed. */
    method ReplyToFlight(i: nat, reply: Reply)
      requires Valid() && i < |flights| && flights[i].stage == AwaitApi
      modifies this`flights, this`store
      ensures Valid() && View() == Apply(old(View()), FlightReplied(i, reply))
    {
      StepKeepsInv(View(), FlightReplied(i, reply));
      var f := flights[i];
      if f.invalidated.None? && IsCurrent(View(), f) && store.Some? && store.value.status == Previewing {
        store := Written(store.value, reply);
      }
      flights := flights[i := f.(stage := Finishing)];
    }

    method EndFlight(i: nat)
      requires Valid() && i < |flights| && flights[i].stage == Finishing
      modifies this`flights, this`flight
      ensures Valid() && View() == Apply(old(View()), FlightEnded(i))
    {
      StepKeepsInv(View(), FlightEnded(i));
      flights := flights[i := flights[i].(stage := Done)];
      if flight == Some(i) {
        flight := None;
      }
    }

    method CancelFlight(i: nat)
      requires Valid() && i < |flights|
      modifies this`flights, this`generation, this`store, this`terminal
      ensures Valid() && View() == Apply(old(View()), CancelSignalled(i))
    {
      StepKeepsInv(View(), CancelSignalled(i));
      if flights[i].stage == Done || flights[i].invalidated.Some? {
        return;
      }
      flights := flights[i := flights[i].(invalidated := Some(WasCancelled))];
      generation := generation + 1;
      store, terminal := None, Retired;
    }
  }
}

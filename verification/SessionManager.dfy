/**
 The session manager: generations, one refresh flight per generation, and a first-in
 first-out queue of credential mutations.  Steps are code segments between awaits; a store
 write lands at some instant between its call and the segment that resumes after it.
 Stored records are taken to be well formed and unexpired, and store calls to succeed.
 */
module SessionManager {
  import opened Options

  type Session = string

  /** A stored session and the generation it was saved under. */
  datatype Stored = Stored(session: Session, generation: nat)

  /** A queued credential mutation; `issuedAt` is the generation when it was queued. */
  datatype Mutation =
    | Persist(session: Session, generation: nat, issuedAt: nat, refresh: Option<nat>)
    | ClearAfterFailure(issuedAt: nat, failed: nat)
    | SignOut(issuedAt: nat)

  /** How far the mutation at the head of the queue has got. */
  datatype Progress = NotStarted | Loading | Saving | Saved | Clearing | Cleared

  datatype RefreshStage = AwaitApi | AwaitMutation | Settled | Finished

  datatype Refresh = Refresh(generation: nat, stage: RefreshStage)

  /** A vault read of `restore` or `forceRefresh`, outside the queue: called, landed with what it found, resumed. */
  datatype Read = ReadCalled | ReadLanded(found: Option<Session>) | ReadOver

  datatype State = State(
    generation: nat, queue: seq<Mutation>, progress: Progress, vault: Option<Stored>,
    refreshes: seq<Refresh>, refreshFlight: Option<nat>, vaultReads: seq<Read>,
    signedOut: nat)  // the generation of the last sign-out whose queued step has run

  // ----- calls

  function BeginAuthentication(s: State): State {
    s.(generation := s.generation + 1)
  }

  /** Only generations the manager has handed out can be presented. */
  function Establish(s: State, session: Session, generation: nat): State {
    if generation > s.generation then s
    else s.(queue := s.queue + [Persist(session, generation, s.generation, None)])
  }

  function SignOutCalled(s: State): State {
    s.(generation := s.generation + 1, queue := s.queue + [SignOut(s.generation + 1)])
  }

  function ReadWantedCalled(s: State): State {
    s.(vaultReads := s.vaultReads + [ReadCalled])
  }

  /** The read lands at some instant between its call and its resumption. */
  function ReadLandsAt(s: State, r: nat): State {
    if r >= |s.vaultReads| || s.vaultReads[r] != ReadCalled then s
    else s.(vaultReads := s.vaultReads[r := ReadLanded(if s.vault.Some? then Some(s.vault.value.session) else None)])
  }

  /** The caller resumes; a session it found and wants renewed is refreshed, under the generation of this moment. */
  function ReadResumes(s: State, r: nat, renew: bool): State {
    if r >= |s.vaultReads| || !s.vaultReads[r].ReadLanded? then s
    else
      var over := s.(vaultReads := s.vaultReads[r := ReadOver]);
      if s.vaultReads[r].found.Some? && renew then RefreshCalled(over) else over
  }

  /** Joins the refresh of the current generation, or starts one: the generation is captured at the call. */
  function RefreshCalled(s: State): State {
    if s.refreshFlight.Some? && s.refreshFlight.value < |s.refreshes|
       && s.refreshes[s.refreshFlight.value].generation == s.generation
    then s
    else s.(refreshes := s.refreshes + [Refresh(s.generation, AwaitApi)], refreshFlight := Some(|s.refreshes|))
  }

  function WithStage(s: State, r: nat, stage: RefreshStage): State
    requires r < |s.refreshes|
  {
    s.(refreshes := s.refreshes[r := s.refreshes[r].(stage := stage)])
  }

  /** The refresh call came back with a session, or failed. */
  function ApiReplied(s: State, r: nat, reply: Option<Session>): State {
    if r >= |s.refreshes| || s.refreshes[r].stage != AwaitApi then s
    else
      var g := s.refreshes[r].generation;
      match reply
      case Some(session) =>
        WithStage(s, r, AwaitMutation).(queue := s.queue + [Persist(session, g, s.generation, Some(r))])
      case None =>
        if g == s.generation then WithStage(s, r, AwaitMutation).(queue := s.queue + [ClearAfterFailure(g, r)])
        else WithStage(s, r, Settled)
  }

  /** The refresh promise's final callback. */
  function RefreshSettled(s: State, r: nat): State {
    if r >= |s.refreshes| || s.refreshes[r].stage != Settled then s
    else
      WithStage(s, r, Finished)
      .(refreshFlight := if s.refreshFlight == Some(r) then None else s.refreshFlight)
  }

  // ----- the queue

  predicate Waits(s: State, r: nat) {
    r < |s.refreshes| && s.refreshes[r].stage == AwaitMutation
  }

  /** The head mutation is over: the next one may start, and a refresh waiting for it resumes. */
  function Complete(s: State): State
    requires s.queue != []
  {
    var popped := s.(queue := s.queue[1..], progress := NotStarted);
    match s.queue[0]
    case Persist(_, _, _, Some(r)) => if Waits(s, r) then WithStage(popped, r, Settled) else popped
    case Persist(_, _, _, None) => popped
    case ClearAfterFailure(_, r) => if Waits(s, r) then WithStage(popped, r, Settled) else popped
    case SignOut(g) => popped.(signedOut := if s.signedOut < g then g else s.signedOut)
  }

  /** One segment of the head mutation, or the landing of its store call. */
  function QueueRuns(s: State): State {
    if s.queue == [] then s
    else
      match (s.queue[0], s.progress)
      case (Persist(_, g, _, _), NotStarted) =>
        if g != s.generation then Complete(s) else s.(progress := Saving)
      case (Persist(session, g, _, _), Saving) => s.(vault := Some(Stored(session, g)), progress := Saved)
      case (Persist(_, g, _, _), Saved) => if g != s.generation then s.(progress := Clearing) else Complete(s)
      case (SignOut(_), NotStarted) => s.(progress := Loading)
      case (_, Clearing) => s.(vault := None, progress := Cleared)
      case (_, Cleared) => Complete(s)
      case (_, _) => s.(progress := Clearing)
  }

  // ----- runs

  datatype Event =
    | AuthenticationBegun
    | Established(session: Session, generation: nat)
    | SignOutPressed
    | ReadWanted
    | ReadLands(read: nat)
    | ReadResumed(read: nat, renew: bool)
    | RefreshReplied(refresh: nat, reply: Option<Session>)
    | RefreshResolved(refresh: nat)
    | QueueAdvances

  function Apply(s: State, e: Event): State {
    match e
    case AuthenticationBegun => BeginAuthentication(s)
    case Established(session, g) => Establish(s, session, g)
    case SignOutPressed => SignOutCalled(s)
    case ReadWanted => ReadWantedCalled(s)
    case ReadLands(r) => ReadLandsAt(s, r)
    case ReadResumed(r, renew) => ReadResumes(s, r, renew)
    case RefreshReplied(r, reply) => ApiReplied(s, r, reply)
    case RefreshResolved(r) => RefreshSettled(s, r)
    case QueueAdvances => QueueRuns(s)
  }

  function Execute(s: State, trace: seq<Event>): State
    decreases |trace|
  {
    if trace == [] then s else Execute(Apply(s, trace[0]), trace[1..])
  }

  /** A manager over a vault that may hold a session of an earlier process, counted as generation zero. */
  function Initial(stored: Option<Session>): State {
    State(0, [], NotStarted, if stored.Some? then Some(Stored(stored.value, 0)) else None, [], None, [], 0)
  }

  // ----- the invariant

  /** The newest generation a session saved before the mutation runs can carry. */
  function Bound(m: Mutation): int {
    if m.SignOut? then m.issuedAt - 1 else m.issuedAt
  }

  predicate MutationOk(s: State, a: nat)
    requires a < |s.queue|
  {
    var m := s.queue[a];
    && m.issuedAt <= s.generation
    && (m.Persist? ==> m.generation <= m.issuedAt)
    && (s.vault.Some? ==> s.vault.value.generation <= Bound(m))
  }

  /** First in, first out: what a persist ahead in the queue may save is no newer than what a later mutation clears. */
  predicate OrderOk(s: State, a: nat, b: nat)
    requires a < b < |s.queue|
  {
    s.queue[a].Persist? ==> s.queue[a].generation <= Bound(s.queue[b])
  }

  predicate HeadOk(s: State) {
    if s.queue == [] then s.progress == NotStarted
    else
      match s.queue[0]
      case Persist(session, g, _, _) =>
        && s.progress != Loading
        && (s.progress == Saving || s.progress == Saved || s.progress == Clearing ==> s.signedOut <= g)
        && (s.progress == Saved || s.progress == Clearing ==> s.vault == Some(Stored(session, g)))
        && (s.progress == Cleared ==> s.vault == None)
      case ClearAfterFailure(_, _) =>
        && s.progress != Loading && s.progress != Saving && s.progress != Saved
        && (s.progress == Cleared ==> s.vault == None)
      case SignOut(_) =>
        && s.progress != Saving && s.progress != Saved
        && (s.progress == Cleared ==> s.vault == None)
  }

  /** An unfinished refresh of the current generation is the one the manager shares. */
  predicate RefreshOk(s: State, r: nat)
    requires r < |s.refreshes|
  {
    && s.refreshes[r].generation <= s.generation
    && (s.refreshes[r].stage != Finished && s.refreshes[r].generation == s.generation ==> s.refreshFlight == Some(r))
  }

  predicate DistinctOk(s: State, p: nat, q: nat)
    requires p < q < |s.refreshes|
  {
    s.refreshes[p].stage != Finished && s.refreshes[q].stage != Finished ==>
      s.refreshes[p].generation != s.refreshes[q].generation
  }

  ghost predicate Inv(s: State) {
    && s.signedOut <= s.generation
    && (s.vault.Some? ==> s.signedOut <= s.vault.value.generation <= s.generation)
    && HeadOk(s)
    && (s.refreshFlight.Some? ==> s.refreshFlight.value < |s.refreshes|)
    && (forall a :: 0 <= a < |s.queue| ==> MutationOk(s, a))
    && (forall a, b :: 0 <= a < b < |s.queue| ==> OrderOk(s, a, b))
    && (forall r :: 0 <= r < |s.refreshes| ==> RefreshOk(s, r))
    && (forall p, q :: 0 <= p < q < |s.refreshes| ==> DistinctOk(s, p, q))
  }

  lemma BumpKeepsInv(s: State)
    requires Inv(s)
    ensures Inv(BeginAuthentication(s))
  {
    var t := BeginAuthentication(s);
    assert forall a :: 0 <= a < |s.queue| ==> MutationOk(s, a) ==> MutationOk(t, a);
    assert forall a, b :: 0 <= a < b < |s.queue| ==> OrderOk(s, a, b) ==> OrderOk(t, a, b);
    assert forall r :: 0 <= r < |s.refreshes| ==> RefreshOk(s, r) ==> RefreshOk(t, r);
    assert forall p, q :: 0 <= p < q < |s.refreshes| ==> DistinctOk(s, p, q) ==> DistinctOk(t, p, q);
  }

  /** Queueing a mutation issued now, which may clear nothing newer than the present generation. */
  lemma EnqueueKeepsInv(s: State, m: Mutation)
    requires Inv(s) && m.issuedAt == s.generation
    requires m.Persist? ==> m.generation <= s.generation
    requires m.SignOut? ==>
               && (s.vault.Some? ==> s.vault.value.generation < s.generation)
               && (forall a :: 0 <= a < |s.queue| ==> s.queue[a].issuedAt < s.generation)
    ensures Inv(s.(queue := s.queue + [m]))
  {
    var t := s.(queue := s.queue + [m]);
    forall a | 0 <= a < |t.queue| ensures MutationOk(t, a) {
      if a < |s.queue| {
        assert MutationOk(s, a);
      }
    }
    forall a, b | 0 <= a < b < |t.queue| ensures OrderOk(t, a, b) {
      assert MutationOk(s, a);
      if b < |s.queue| {
        assert OrderOk(s, a, b);
      }
    }
    assert forall r :: 0 <= r < |s.refreshes| ==> RefreshOk(s, r) ==> RefreshOk(t, r);
    assert forall p, q :: 0 <= p < q < |s.refreshes| ==> DistinctOk(s, p, q) ==> DistinctOk(t, p, q);
  }

  lemma SignOutKeepsInv(s: State)
    requires Inv(s)
    ensures Inv(SignOutCalled(s))
  {
    var t := BeginAuthentication(s);
    BumpKeepsInv(s);
    forall a | 0 <= a < |t.queue| ensures t.queue[a].issuedAt < t.generation {
      assert MutationOk(s, a);
    }
    EnqueueKeepsInv(t, SignOut(t.generation));
    assert SignOutCalled(s) == t.(queue := t.queue + [SignOut(t.generation)]);
  }

  /** The invariant does not look at the reads. */
  lemma ReadsKeepInv(s: State, vaultReads: seq<Read>)
    requires Inv(s)
    ensures Inv(s.(vaultReads := vaultReads))
  {
    var t := s.(vaultReads := vaultReads);
    assert forall a :: 0 <= a < |s.queue| ==> MutationOk(s, a) ==> MutationOk(t, a);
    assert forall a, b :: 0 <= a < b < |s.queue| ==> OrderOk(s, a, b) ==> OrderOk(t, a, b);
    assert forall r :: 0 <= r < |s.refreshes| ==> RefreshOk(s, r) ==> RefreshOk(t, r);
    assert forall p, q :: 0 <= p < q < |s.refreshes| ==> DistinctOk(s, p, q) ==> DistinctOk(t, p, q);
  }

  lemma RefreshKeepsInv(s: State)
    requires Inv(s)
    ensures Inv(RefreshCalled(s))
  {
    var t := RefreshCalled(s);
    if t != s {
      assert forall a :: 0 <= a < |s.queue| ==> MutationOk(s, a) ==> MutationOk(t, a);
      assert forall a, b :: 0 <= a < b < |s.queue| ==> OrderOk(s, a, b) ==> OrderOk(t, a, b);
      forall r | 0 <= r < |t.refreshes| ensures RefreshOk(t, r) {
        if r < |s.refreshes| {
          assert RefreshOk(s, r);
        }
      }
      forall p, q | 0 <= p < q < |t.refreshes| ensures DistinctOk(t, p, q) {
        assert RefreshOk(s, p);
        if q < |s.refreshes| {
          assert DistinctOk(s, p, q);
        }
      }
    }
  }

  lemma StageKeepsInv(s: State, r: nat, stage: RefreshStage)
    requires Inv(s) && r < |s.refreshes| && s.refreshes[r].stage != Finished
    ensures stage != Finished ==> Inv(WithStage(s, r, stage))
    ensures Inv(WithStage(s, r, Finished).(refreshFlight := if s.refreshFlight == Some(r) then None else s.refreshFlight))
  {
    var t := WithStage(s, r, stage);
    var u := WithStage(s, r, Finished).(refreshFlight := if s.refreshFlight == Some(r) then None else s.refreshFlight);
    assert forall a :: 0 <= a < |s.queue| ==> MutationOk(s, a) ==> MutationOk(t, a) && MutationOk(u, a);
    assert forall a, b :: 0 <= a < b < |s.queue| ==> OrderOk(s, a, b) ==> OrderOk(t, a, b) && OrderOk(u, a, b);
    forall k | 0 <= k < |s.refreshes| ensures RefreshOk(u, k) && (stage != Finished ==> RefreshOk(t, k)) {
      assert RefreshOk(s, k);
    }
    assert forall p, q :: 0 <= p < q < |s.refreshes| ==>
      DistinctOk(s, p, q) ==> DistinctOk(t, p, q) && DistinctOk(u, p, q);
  }

  lemma ApiKeepsInv(s: State, r: nat, reply: Option<Session>)
    requires Inv(s)
    ensures Inv(ApiReplied(s, r, reply))
  {
    if r < |s.refreshes| && s.refreshes[r].stage == AwaitApi {
      var g := s.refreshes[r].generation;
      assert RefreshOk(s, r);
      StageKeepsInv(s, r, AwaitMutation);
      StageKeepsInv(s, r, Settled);
      var waiting := WithStage(s, r, AwaitMutation);
      if reply.Some? {
        EnqueueKeepsInv(waiting, Persist(reply.value, g, s.generation, Some(r)));
      } else if g == s.generation {
        EnqueueKeepsInv(waiting, ClearAfterFailure(g, r));
      }
    }
  }

  /** Dropping the head keeps the order of the rest. */
  lemma PopKeepsInv(s: State, signedOut: nat)
    requires Inv(s) && s.queue != []
    requires s.signedOut <= signedOut <= s.generation
    requires s.vault.Some? ==> signedOut <= s.vault.value.generation
    ensures Inv(s.(queue := s.queue[1..], progress := NotStarted, signedOut := signedOut))
  {
    var t := s.(queue := s.queue[1..], progress := NotStarted, signedOut := signedOut);
    forall a | 0 <= a < |t.queue| ensures MutationOk(t, a) {
      assert MutationOk(s, a + 1);
    }
    forall a, b | 0 <= a < b < |t.queue| ensures OrderOk(t, a, b) {
      assert OrderOk(s, a + 1, b + 1);
    }
    assert forall r :: 0 <= r < |s.refreshes| ==> RefreshOk(s, r) ==> RefreshOk(t, r);
    assert forall p, q :: 0 <= p < q < |s.refreshes| ==> DistinctOk(s, p, q) ==> DistinctOk(t, p, q);
  }

  lemma CompleteKeepsInv(s: State)
    requires Inv(s) && s.queue != []
    requires s.queue[0].SignOut? ==> s.vault == None
    ensures Inv(Complete(s))
  {
    assert MutationOk(s, 0);
    match s.queue[0]
    case Persist(_, _, _, Some(r)) =>
      PopKeepsInv(s, s.signedOut);
      if Waits(s, r) {
        StageKeepsInv(s.(queue := s.queue[1..], progress := NotStarted), r, Settled);
      }
    case ClearAfterFailure(_, r) =>
      PopKeepsInv(s, s.signedOut);
      if Waits(s, r) {
        StageKeepsInv(s.(queue := s.queue[1..], progress := NotStarted), r, Settled);
      }
    case SignOut(g) => PopKeepsInv(s, if s.signedOut < g then g else s.signedOut);
    case _ => PopKeepsInv(s, s.signedOut);
  }

  /** A store write or a change of progress that fits the head keeps the rest of the invariant. */
  lemma ProgressKeepsInv(s: State, t: State)
    requires Inv(s) && s.queue != [] && t == s.(progress := t.progress, vault := t.vault)
    requires HeadOk(t)
    requires t.vault == s.vault || t.vault == None
             || (s.queue[0].Persist? && s.signedOut <= s.queue[0].generation
                 && t.vault == Some(Stored(s.queue[0].session, s.queue[0].generation)))
    ensures Inv(t)
  {
    assert MutationOk(s, 0);
    forall a | 0 <= a < |t.queue| ensures MutationOk(t, a) {
      assert MutationOk(s, a);
      if a > 0 {
        assert OrderOk(s, 0, a);
      }
    }
    assert forall a, b :: 0 <= a < b < |s.queue| ==> OrderOk(s, a, b) ==> OrderOk(t, a, b);
    assert forall r :: 0 <= r < |s.refreshes| ==> RefreshOk(s, r) ==> RefreshOk(t, r);
    assert forall p, q :: 0 <= p < q < |s.refreshes| ==> DistinctOk(s, p, q) ==> DistinctOk(t, p, q);
  }

  /** A segment of the head changes its progress or the vault as the head allows, or completes it. */
  lemma QueueShape(s: State)
    requires s.queue != [] && HeadOk(s)
    ensures var t := QueueRuns(s);
            || (t == Complete(s) && (s.queue[0].SignOut? ==> s.vault == None))
            || (t == s.(progress := t.progress, vault := t.vault) && HeadOkAfter(s, t))
  {
  }

  /** What a segment that does not complete the head may leave behind. */
  predicate HeadOkAfter(s: State, t: State)
    requires s.queue != []
  {
    && (s.queue[0].Persist? && t.progress == Saving ==> t.vault == s.vault && s.queue[0].generation == s.generation)
    && (t.progress == Saving ==> s.queue[0].Persist?)
    && (t.progress == Saved ==>
          s.queue[0].Persist? && s.progress == Saving
          && t.vault == Some(Stored(s.queue[0].session, s.queue[0].generation)))
    && (t.progress == Clearing ==> t.vault == s.vault && (s.queue[0].Persist? ==> s.progress == Saved))
    && (t.progress == Cleared ==> t.vault == None)
    && (t.progress == Loading ==> s.queue[0].SignOut? && t.vault == s.vault)
    && t.progress != NotStarted
  }

  lemma QueueKeepsInv(s: State)
    requires Inv(s)
    ensures Inv(QueueRuns(s))
  {
    if s.queue != [] {
      QueueShape(s);
      if QueueRuns(s) == Complete(s) && (s.queue[0].SignOut? ==> s.vault == None) {
        CompleteKeepsInv(s);
      } else {
        ProgressKeepsInv(s, QueueRuns(s));
      }
    }
  }

  lemma StepKeepsInv(s: State, e: Event)
    requires Inv(s)
    ensures Inv(Apply(s, e))
  {
    match e
    case AuthenticationBegun => BumpKeepsInv(s);
    case Established(session, g) =>
      if g <= s.generation {
        EnqueueKeepsInv(s, Persist(session, g, s.generation, None));
      }
    case SignOutPressed => SignOutKeepsInv(s);
    case ReadWanted => ReadsKeepInv(s, s.vaultReads + [ReadCalled]);
    case ReadLands(r) => ReadsKeepInv(s, Apply(s, e).vaultReads);
    case ReadResumed(r, renew) =>
      if r < |s.vaultReads| && s.vaultReads[r].ReadLanded? {
        ReadsKeepInv(s, s.vaultReads[r := ReadOver]);
        RefreshKeepsInv(s.(vaultReads := s.vaultReads[r := ReadOver]));
      }
    case RefreshReplied(r, reply) => ApiKeepsInv(s, r, reply);
    case RefreshResolved(r) =>
      if r < |s.refreshes| && s.refreshes[r].stage == Settled {
        StageKeepsInv(s, r, Settled);
      }
    case QueueAdvances => QueueKeepsInv(s);
  }

  lemma {:induction false} RunKeepsInv(s: State, trace: seq<Event>)
    requires Inv(s)
    ensures Inv(Execute(s, trace))
    decreases |trace|
  {
    if trace != [] {
      StepKeepsInv(s, trace[0]);
      RunKeepsInv(Apply(s, trace[0]), trace[1..]);
    }
  }

  ghost predicate Reachable(s: State) {
    exists stored: Option<Session>, trace: seq<Event> :: s == Execute(Initial(stored), trace)
  }

  lemma ReachableInv(s: State)
    requires Reachable(s)
    ensures Inv(s)
  {
    var stored: Option<Session>, trace: seq<Event> :| s == Execute(Initial(stored), trace);
    RunKeepsInv(Initial(stored), trace);
  }

  // ----- theorems

  /** Once a sign-out's queued step has run, the vault never again holds a session saved under an earlier generation. */
  lemma SignOutIsFinal(s: State)
    requires Reachable(s) && s.vault.Some?
    ensures s.vault.value.generation >= s.signedOut
  {
    ReachableInv(s);
  }

  /** The generation of a finished sign-out is never forgotten. */
  lemma {:induction false} SignedOutGrows(s: State, trace: seq<Event>)
    ensures s.signedOut <= Execute(s, trace).signedOut
    decreases |trace|
  {
    if trace != [] {
      SignedOutGrows(Apply(s, trace[0]), trace[1..]);
    }
  }

  /** In particular, after the sign-out at the head of the queue completes, no later state holds an older session. */
  lemma CompletedSignOutClearsForGood(s: State, trace: seq<Event>)
    requires Reachable(s) && s.queue != [] && s.queue[0].SignOut? && s.progress == Cleared
    ensures var t := Execute(Apply(s, QueueAdvances), trace);
            t.vault.Some? ==> t.vault.value.generation >= s.queue[0].issuedAt
  {
    ReachableInv(s);
    StepKeepsInv(s, QueueAdvances);
    RunKeepsInv(Apply(s, QueueAdvances), trace);
    SignedOutGrows(Apply(s, QueueAdvances), trace);
  }

  /** Who may empty the vault, and how old the session it removes must be. */
  predicate ClearsOnlyOlder(m: Mutation, removed: Stored) {
    match m
    case Persist(session, g, _, _) => removed == Stored(session, g)
    case ClearAfterFailure(g, _) => removed.generation <= g
    case SignOut(g) => removed.generation < g
  }

  /** No failed refresh, stale persist or sign-out ever clears a session saved under a newer generation. */
  lemma ClearsNothingNewer(s: State, e: Event)
    requires Reachable(s) && s.vault.Some? && Apply(s, e).vault.None?
    ensures e == QueueAdvances && s.queue != [] && ClearsOnlyOlder(s.queue[0], s.vault.value)
  {
    ReachableInv(s);
    assert s.queue != [] ==> MutationOk(s, 0);
  }

  /** At most one refresh of each generation is unfinished at any time. */
  lemma OneRefreshPerGeneration(s: State, p: nat, q: nat)
    requires Reachable(s) && p < |s.refreshes| && q < |s.refreshes|
    requires s.refreshes[p].stage != Finished && s.refreshes[q].stage != Finished
    requires s.refreshes[p].generation == s.refreshes[q].generation
    ensures p == q
  {
    ReachableInv(s);
    assert p < q ==> DistinctOk(s, p, q);
    assert q < p ==> DistinctOk(s, q, p);
  }

  /** A persist is saved and kept only under the generation that is current when its save was confirmed. */
  lemma ConfirmedPersistIsCurrent(s: State)
    requires Reachable(s) && s.queue != [] && s.queue[0].Persist? && s.progress == Saved
    ensures Apply(s, QueueAdvances).queue == s.queue[1..] ==>
              s.vault == Some(Stored(s.queue[0].session, s.generation))
  {
    ReachableInv(s);
  }

  // ----- the object

  class Manager {
    var generation: nat
    var credentialMutations: seq<Mutation>
    var progress: Progress
    var vault: Option<Stored>
    var refreshes: seq<Refresh>
    var refreshFlight: Option<nat>
    var vaultReads: seq<Read>
    var signedOut: nat

    function View(): State
      reads this
    {
      State(generation, credentialMutations, progress, vault, refreshes, refreshFlight, vaultReads, signedOut)
    }

    ghost predicate Valid()
      reads this
    {
      Inv(View())
    }

    constructor (stored: Option<Session>)
      ensures Valid() && View() == Initial(stored)
    {
      generation, credentialMutations, progress := 0, [], NotStarted;
      vault := if stored.Some? then Some(Stored(stored.value, 0)) else None;
      refreshes, refreshFlight, vaultReads, signedOut := [], None, [], 0;
    }

    method Serialize(m: Mutation)
      modifies this`credentialMutations
      ensures View() == old(View()).(queue := old(credentialMutations) + [m])
    {
      credentialMutations := credentialMutations + [m];
    }

    method BeginAuthentication() returns (current: nat)
      requires Valid()
      modifies this`generation
      ensures Valid() && View() == Apply(old(View()), AuthenticationBegun) && current == generation
    {
      StepKeepsInv(View(), AuthenticationBegun);
      generation := generation + 1;
      current := generation;
    }

    method EstablishSession(session: Session, presented: nat)
      requires Valid() && presented <= generation
      modifies this`credentialMutations
      ensures Valid() && View() == Apply(old(View()), Established(session, presented))
    {
      StepKeepsInv(View(), Established(session, presented));
      Serialize(Persist(session, presented, generation, None));
    }

    method PressSignOut()
      requires Valid()
      modifies this`generation, this`credentialMutations
      ensures Valid() && View() == Apply(old(View()), SignOutPressed)
    {
      StepKeepsInv(View(), SignOutPressed);
      generation := generation + 1;
      Serialize(SignOut(generation));
    }

    /** The call of `restore` or `forceRefresh`, up to its vault read. */
    method StartRead() returns (read: nat)
      requires Valid()
      modifies this`vaultReads
      ensures Valid() && View() == Apply(old(View()), ReadWanted) && read == |old(vaultReads)|
    {
      StepKeepsInv(View(), ReadWanted);
      read := |vaultReads|;
      vaultReads := vaultReads + [ReadCalled];
    }

    method LandRead(r: nat)
      requires Valid() && r < |vaultReads| && vaultReads[r] == ReadCalled
      modifies this`vaultReads
      ensures Valid() && View() == Apply(old(View()), ReadLands(r))
    {
      StepKeepsInv(View(), ReadLands(r));
      vaultReads := vaultReads[r := ReadLanded(if vault.Some? then Some(vault.value.session) else None)];
    }

    /** The segment after the read: nothing found, a session still good, or a refresh. */
    method ResumeRead(r: nat, renew: bool) returns (flight: Option<nat>)
      requires Valid() && r < |vaultReads| && vaultReads[r].ReadLanded?
      modifies this`vaultReads, this`refreshes, this`refreshFlight
      ensures Valid() && View() == Apply(old(View()), ReadResumed(r, renew))
      ensures flight.Some? == (old(vaultReads[r]).found.Some? && renew)
      ensures flight.Some? ==> refreshFlight == flight && refreshes[flight.value].generation == generation
    {
      StepKeepsInv(View(), ReadResumed(r, renew));
      var found := vaultReads[r].found;
      vaultReads := vaultReads[r := ReadOver];
      if found.None? || !renew {
        return None;
      }
      RefreshSession();
      flight := refreshFlight;
    }

    /** Joins the refresh of the current generation, or starts one. */
    method RefreshSession()
      requires refreshFlight.Some? ==> refreshFlight.value < |refreshes|
      modifies this`refreshes, this`refreshFlight
      ensures View() == RefreshCalled(old(View()))
      ensures refreshFlight.Some? && refreshFlight.value < |refreshes|
      ensures refreshes[refreshFlight.value].generation == generation
    {
      if refreshFlight.None? || refreshes[refreshFlight.value].generation != generation {
        refreshFlight := Some(|refreshes|);
        refreshes := refreshes + [Refresh(generation, AwaitApi)];
      }
    }

    method RefreshReply(r: nat, reply: Option<Session>)
      requires Valid() && r < |refreshes| && refreshes[r].stage == AwaitApi
      modifies this`refreshes, this`credentialMutations
      ensures Valid() && View() == Apply(old(View()), RefreshReplied(r, reply))
    {
      StepKeepsInv(View(), RefreshReplied(r, reply));
      var captured := refreshes[r].generation;
      if reply.Some? {
        refreshes := refreshes[r := refreshes[r].(stage := AwaitMutation)];
        Serialize(Persist(reply.value, captured, generation, Some(r)));
      } else if captured == generation {
        refreshes := refreshes[r := refreshes[r].(stage := AwaitMutation)];
        Serialize(ClearAfterFailure(captured, r));
      } else {
        refreshes := refreshes[r := refreshes[r].(stage := Settled)];
      }
    }

    method RefreshFinally(r: nat)
      requires Valid() && r < |refreshes| && refreshes[r].stage == Settled
      modifies this`refreshes, this`refreshFlight
      ensures Valid() && View() == Apply(old(View()), RefreshResolved(r))
    {
      StepKeepsInv(View(), RefreshResolved(r));
      refreshes := refreshes[r := refreshes[r].(stage := Finished)];
      if refreshFlight == Some(r) {
        refreshFlight := None;
      }
    }

    method CompleteHead()
      requires credentialMutations != []
      modifies this`credentialMutations, this`progress, this`refreshes, this`signedOut
      ensures View() == Complete(old(View()))
    {
      var m := credentialMutations[0];
      credentialMutations := credentialMutations[1..];
      progress := NotStarted;
      var owner := if m.Persist? then m.refresh else if m.ClearAfterFailure? then Some(m.failed) else None;
      if owner.Some? && owner.value < |refreshes| && refreshes[owner.value].stage == AwaitMutation {
        refreshes := refreshes[owner.value := refreshes[owner.value].(stage := Settled)];
      }
      if m.SignOut? && signedOut < m.issuedAt {
        signedOut := m.issuedAt;
      }
    }

    /** One segment of the mutation at the head of the queue. */
    method AdvanceQueue()
      requires Valid()
      modifies this`credentialMutations, this`progress, this`refreshes, this`signedOut, this`vault
      ensures Valid() && View() == Apply(old(View()), QueueAdvances)
    {
      StepKeepsInv(View(), QueueAdvances);
      if credentialMutations == [] {
        return;
      }
      var m := credentialMutations[0];
      if progress == Clearing {
        vault, progress := None, Cleared;
      } else if progress == Cleared {
        CompleteHead();
      } else if m.SignOut? {
        progress := if progress == NotStarted then Loading else Clearing;
      } else if m.ClearAfterFailure? {
        progress := Clearing;
      } else if progress == NotStarted {
        if m.generation != generation {
          CompleteHead();
        } else {
          progress := Saving;
        }
      } else if progress == Saving {
        vault, progress := Some(Stored(m.session, m.generation)), Saved;
      } else if m.generation != generation {
        progress := Clearing;
      } else {
        CompleteHead();
      }
    }
  }
}

/**
 Whether a sign-out lasts: when the vault, once emptied, stays empty without a new session being
 established.  A credential read before the sign-out can still be refreshed after it, because the
 refresh takes the generation of the moment it is called and not of the read.
 */
module SignOutTheorems {
  import opened Options
  import opened SessionManager

  // ----- a signed-out session that returns

  /** Read, sign out to the end, then let the read resume and its refresh succeed. */
  lemma SignedOutSessionReturns(session: Session, renewed: Session)
    ensures var s0 := Apply(Apply(Initial(Some(session)), ReadWanted), ReadLands(0));
            var s1 := Apply(s0, SignOutPressed);
            var s2 := Apply(Apply(Apply(Apply(s1, QueueAdvances), QueueAdvances), QueueAdvances), QueueAdvances);
            var s3 := Apply(Apply(s2, ReadResumed(0, true)), RefreshReplied(0, Some(renewed)));
            && s2.vault.None? && s2.queue == [] && s2.signedOut == s2.generation
            && Apply(Apply(s3, QueueAdvances), QueueAdvances).vault == Some(Stored(renewed, 1))
  {
    var s0 := Apply(Apply(Initial(Some(session)), ReadWanted), ReadLands(0));
    assert s0.vaultReads == [ReadLanded(Some(session))];
    var s1 := Apply(s0, SignOutPressed);
    var s2 := Apply(Apply(Apply(Apply(s1, QueueAdvances), QueueAdvances), QueueAdvances), QueueAdvances);
    assert s2 == State(1, [], NotStarted, None, [], None, [ReadLanded(Some(session))], 1);
    var s3 := Apply(Apply(s2, ReadResumed(0, true)), RefreshReplied(0, Some(renewed)));
    assert s3.queue == [Persist(renewed, 1, 1, Some(0))];
  }

  // ----- the condition

  /** A read that found a session and has not resumed. */
  predicate Holds(s: State, r: nat)
    requires r < |s.vaultReads|
  {
    s.vaultReads[r].ReadLanded? && s.vaultReads[r].found.Some?
  }

  /** A refresh of the current generation that awaits its reply. */
  predicate Renews(s: State, r: nat)
    requires r < |s.refreshes|
  {
    s.refreshes[r].stage == AwaitApi && s.refreshes[r].generation == s.generation
  }

  /** A queued persist of the current generation. */
  predicate Saves(s: State, a: nat)
    requires a < |s.queue|
  {
    s.queue[a].Persist? && s.queue[a].generation == s.generation
  }

  /** No session is on its way: none read and held, none being refreshed, none queued to be saved. */
  ghost predicate Quiet(s: State) {
    && (forall r :: 0 <= r < |s.vaultReads| ==> !Holds(s, r))
    && (forall r :: 0 <= r < |s.refreshes| ==> !Renews(s, r))
    && (forall a :: 0 <= a < |s.queue| ==> !Saves(s, a))
  }

  predicate Establishes(trace: seq<Event>) {
    exists k :: 0 <= k < |trace| && trace[k].Established?
  }

  /** No run that establishes nothing ever leaves a session in the vault. */
  ghost predicate StaysEmpty(s: State) {
    forall trace: seq<Event> :: !Establishes(trace) ==> Execute(s, trace).vault.None?
  }

  // ----- quiet states stay empty

  ghost predicate Emptied(s: State) {
    Quiet(s) && s.vault.None? && s.progress != Saving && s.progress != Saved
  }

  lemma QueueKeepsEmptied(s: State)
    requires Inv(s) && Emptied(s)
    ensures Emptied(QueueRuns(s))
  {
    if s.queue != [] {
      var t := QueueRuns(s);
      assert !Saves(s, 0);
      forall a | 0 <= a < |t.queue| ensures !Saves(t, a) {
        assert t.queue == s.queue || t.queue == s.queue[1..];
        assert t.queue == s.queue ==> !Saves(s, a);
        assert t.queue == s.queue[1..] ==> !Saves(s, a + 1);
      }
      forall r | 0 <= r < |t.refreshes| ensures !Renews(t, r) {
        assert !Renews(s, r);
      }
      assert forall r :: 0 <= r < |s.vaultReads| ==> !Holds(s, r) ==> !Holds(t, r);
    }
  }

  lemma ReadsKeepEmptied(s: State, e: Event)
    requires Inv(s) && Emptied(s) && (e.ReadWanted? || e.ReadLands? || e.ReadResumed?)
    ensures Emptied(Apply(s, e))
  {
    var t := Apply(s, e);
    assert e.ReadResumed? && e.read < |s.vaultReads| ==> !Holds(s, e.read);
    forall r | 0 <= r < |t.vaultReads| ensures !Holds(t, r) {
      assert r < |s.vaultReads| ==> !Holds(s, r);
    }
    assert forall r :: 0 <= r < |s.refreshes| ==> !Renews(s, r) ==> !Renews(t, r);
    assert forall a :: 0 <= a < |s.queue| ==> !Saves(s, a) ==> !Saves(t, a);
  }

  lemma RepliesKeepEmptied(s: State, e: Event)
    requires Inv(s) && Emptied(s) && (e.RefreshReplied? || e.RefreshResolved?)
    ensures Emptied(Apply(s, e))
  {
    var t := Apply(s, e);
    if e.RefreshReplied? && e.refresh < |s.refreshes| {
      assert !Renews(s, e.refresh);
    }
    assert forall r :: 0 <= r < |s.vaultReads| ==> !Holds(s, r) ==> !Holds(t, r);
    forall r | 0 <= r < |t.refreshes| ensures !Renews(t, r) {
      assert !Renews(s, r);
    }
    forall a | 0 <= a < |t.queue| ensures !Saves(t, a) {
      assert a < |s.queue| ==> !Saves(s, a);
    }
  }

  /** A new generation makes everything on its way stale. */
  lemma BumpsKeepEmptied(s: State, e: Event)
    requires Inv(s) && Emptied(s) && (e.AuthenticationBegun? || e.SignOutPressed?)
    ensures Emptied(Apply(s, e))
  {
    var t := Apply(s, e);
    assert forall r :: 0 <= r < |s.vaultReads| ==> !Holds(s, r) ==> !Holds(t, r);
    forall r | 0 <= r < |t.refreshes| ensures !Renews(t, r) {
      assert RefreshOk(s, r);
    }
    forall a | 0 <= a < |t.queue| ensures !Saves(t, a) {
      assert a < |s.queue| ==> MutationOk(s, a);
    }
  }

  lemma {:induction false} EmptiedStaysEmpty(s: State, trace: seq<Event>)
    requires Inv(s) && Emptied(s) && !Establishes(trace)
    ensures Execute(s, trace).vault.None?
    decreases |trace|
  {
    if trace != [] {
      var e := trace[0];
      assert !e.Established?;
      StepKeepsInv(s, e);
      if e.AuthenticationBegun? || e.SignOutPressed? {
        BumpsKeepEmptied(s, e);
      } else if e.RefreshReplied? || e.RefreshResolved? {
        RepliesKeepEmptied(s, e);
      } else if e.QueueAdvances? {
        QueueKeepsEmptied(s);
      } else {
        ReadsKeepEmptied(s, e);
      }
      assert !Establishes(trace[1..]) by {
        assert forall k :: 0 <= k < |trace[1..]| ==> trace[1..][k] == trace[k + 1];
      }
      EmptiedStaysEmpty(Apply(s, e), trace[1..]);
    }
  }

  // ----- sessions on their way do return

  /** Which refresh waits for a mutation. */
  function Owner(m: Mutation): Option<nat> {
    match m
    case Persist(_, _, _, refresh) => refresh
    case ClearAfterFailure(_, failed) => Some(failed)
    case SignOut(_) => None
  }

  predicate Awaited(s: State, r: nat) {
    exists a :: 0 <= a < |s.queue| && Owner(s.queue[a]) == Some(r)
  }

  /** A refresh that waits for a mutation has one queued, and the shared refresh is not finished. */
  ghost predicate Served(s: State) {
    && (forall r :: 0 <= r < |s.refreshes| && s.refreshes[r].stage == AwaitMutation ==> Awaited(s, r))
    && (s.refreshFlight.Some? ==>
          s.refreshFlight.value < |s.refreshes| && s.refreshes[s.refreshFlight.value].stage != Finished)
  }

  lemma EnqueueKeepsServed(s: State, m: Mutation)
    requires Served(s)
    ensures Served(s.(queue := s.queue + [m]))
  {
    var t := s.(queue := s.queue + [m]);
    forall r | 0 <= r < |t.refreshes| && t.refreshes[r].stage == AwaitMutation ensures Awaited(t, r) {
      var a :| 0 <= a < |s.queue| && Owner(s.queue[a]) == Some(r);
      assert t.queue[a] == s.queue[a];
    }
  }

  lemma ApiKeepsServed(s: State, r: nat, reply: Option<Session>)
    requires Served(s)
    ensures Served(ApiReplied(s, r, reply))
  {
    if r < |s.refreshes| && s.refreshes[r].stage == AwaitApi {
      var t := ApiReplied(s, r, reply);
      forall k | 0 <= k < |t.refreshes| && t.refreshes[k].stage == AwaitMutation ensures Awaited(t, k) {
        if k == r {
          assert Owner(t.queue[|s.queue|]) == Some(r);
        } else {
          var a :| 0 <= a < |s.queue| && Owner(s.queue[a]) == Some(k);
          assert t.queue[a] == s.queue[a];
        }
      }
    }
  }

  lemma CompleteKeepsServed(s: State)
    requires Served(s) && s.queue != []
    ensures Served(Complete(s))
  {
    var t := Complete(s);
    forall r | 0 <= r < |t.refreshes| && t.refreshes[r].stage == AwaitMutation ensures Awaited(t, r) {
      var a :| 0 <= a < |s.queue| && Owner(s.queue[a]) == Some(r);
      assert a > 0 && t.queue[a - 1] == s.queue[a];
    }
  }

  /** Everything but the queue and the refreshes is beside the point. */
  lemma SameKeepsServed(s: State, t: State)
    requires Served(s) && t.queue == s.queue && t.refreshes == s.refreshes && t.refreshFlight == s.refreshFlight
    ensures Served(t)
  {
    assert forall r :: Awaited(s, r) ==> Awaited(t, r);
  }

  lemma RefreshKeepsServed(s: State)
    requires Served(s)
    ensures Served(RefreshCalled(s))
  {
    var t := RefreshCalled(s);
    assert forall r :: Awaited(s, r) ==> Awaited(t, r);
  }

  lemma SettledKeepsServed(s: State, r: nat)
    requires Served(s)
    ensures Served(RefreshSettled(s, r))
  {
    var t := RefreshSettled(s, r);
    assert forall k :: Awaited(s, k) ==> Awaited(t, k);
  }

  lemma QueueKeepsServed(s: State)
    requires Served(s)
    ensures Served(QueueRuns(s))
  {
    if s.queue != [] {
      if QueueRuns(s) == Complete(s) {
        CompleteKeepsServed(s);
      } else {
        SameKeepsServed(s, QueueRuns(s));
      }
    }
  }

  lemma StepKeepsServed(s: State, e: Event)
    requires Served(s)
    ensures Served(Apply(s, e))
  {
    match e
    case AuthenticationBegun => SameKeepsServed(s, Apply(s, e));
    case Established(session, g) =>
      if g <= s.generation {
        EnqueueKeepsServed(s, Persist(session, g, s.generation, None));
      }
    case SignOutPressed =>
      EnqueueKeepsServed(s, SignOut(s.generation + 1));
      SameKeepsServed(s.(queue := s.queue + [SignOut(s.generation + 1)]), Apply(s, e));
    case ReadWanted => SameKeepsServed(s, Apply(s, e));
    case ReadLands(r) => SameKeepsServed(s, Apply(s, e));
    case ReadResumed(r, renew) =>
      if r < |s.vaultReads| && s.vaultReads[r].ReadLanded? {
        var over := s.(vaultReads := s.vaultReads[r := ReadOver]);
        SameKeepsServed(s, over);
        RefreshKeepsServed(over);
      }
    case RefreshReplied(r, reply) => ApiKeepsServed(s, r, reply);
    case RefreshResolved(r) => SettledKeepsServed(s, r);
    case QueueAdvances => QueueKeepsServed(s);
  }

  lemma {:induction false} RunKeepsServed(s: State, trace: seq<Event>)
    requires Served(s)
    ensures Served(Execute(s, trace))
    decreases |trace|
  {
    if trace != [] {
      StepKeepsServed(s, trace[0]);
      RunKeepsServed(Apply(s, trace[0]), trace[1..]);
    }
  }

  /** The queue, advanced n times. */
  function Advanced(s: State, n: nat): State
    decreases n
  {
    if n == 0 then s else Advanced(QueueRuns(s), n - 1)
  }

  function Advances(n: nat): seq<Event> {
    seq(n, _ => QueueAdvances)
  }

  lemma {:induction false} ExecuteAdvances(s: State, n: nat)
    ensures Execute(s, Advances(n)) == Advanced(s, n)
    decreases n
  {
    if n > 0 {
      assert Advances(n)[1..] == Advances(n - 1);
      ExecuteAdvances(QueueRuns(s), n - 1);
    }
  }

  lemma {:induction false} AdvancedAdds(s: State, m: nat, n: nat)
    ensures Advanced(s, m + n) == Advanced(Advanced(s, m), n)
    decreases m
  {
    if m > 0 {
      AdvancedAdds(QueueRuns(s), m - 1, n);
    }
  }

  lemma AdvancedFew(s: State)
    ensures Advanced(s, 1) == QueueRuns(s) && Advanced(s, 2) == QueueRuns(QueueRuns(s))
    ensures Advanced(s, 3) == QueueRuns(QueueRuns(QueueRuns(s)))
    ensures Advanced(s, 4) == QueueRuns(QueueRuns(QueueRuns(QueueRuns(s))))
  {
    AdvancedAdds(s, 1, 1);
    AdvancedAdds(s, 2, 1);
    AdvancedAdds(s, 3, 1);
  }

  lemma PersistCompletes(s: State) returns (n: nat)
    requires s.queue != [] && s.queue[0].Persist? && s.progress == NotStarted
    ensures 1 <= n <= 3 && Advanced(s, n) == Complete(s).(vault := Advanced(s, n).vault)
  {
    AdvancedFew(s);
    if s.queue[0].generation != s.generation {
      n := 1;
    } else {
      n := 3;
      var saved := s.(vault := Some(Stored(s.queue[0].session, s.generation)), progress := Saved);
      assert QueueRuns(QueueRuns(s)) == saved;
      assert QueueRuns(saved) == Complete(saved);
    }
  }

  lemma ClearCompletes(s: State) returns (n: nat)
    requires s.queue != [] && !s.queue[0].Persist? && s.progress == NotStarted
    ensures 3 <= n <= 4 && Advanced(s, n) == Complete(s).(vault := Advanced(s, n).vault)
  {
    AdvancedFew(s);
    var cleared := s.(vault := None, progress := Cleared);
    assert QueueRuns(s.(progress := Clearing)) == cleared && QueueRuns(cleared) == Complete(cleared);
    if s.queue[0].SignOut? {
      n := 4;
      assert QueueRuns(QueueRuns(s)) == s.(progress := Clearing);
    } else {
      n := 3;
      assert QueueRuns(s) == s.(progress := Clearing);
    }
  }

  /** The head is served in a few steps, and leaves the rest of the queue as it was. */
  lemma HeadCompletes(s: State) returns (n: nat)
    requires s.queue != [] && s.progress == NotStarted
    ensures Advanced(s, n) == Complete(s).(vault := Advanced(s, n).vault)
  {
    if s.queue[0].Persist? {
      n := PersistCompletes(s);
    } else {
      n := ClearCompletes(s);
    }
  }

  /** What serving mutations leaves alone. */
  ghost predicate QueueOnly(s: State, t: State) {
    && t.generation == s.generation && t.vaultReads == s.vaultReads && t.refreshFlight == s.refreshFlight
    && |t.refreshes| == |s.refreshes|
    && (forall r :: 0 <= r < |s.refreshes| ==>
          t.refreshes[r] == s.refreshes[r]
          || (s.refreshes[r].stage == AwaitMutation && t.refreshes[r] == s.refreshes[r].(stage := Settled)))
  }

  lemma CompleteIsQueueOnly(s: State, vault: Option<Stored>)
    requires s.queue != []
    ensures var t := Complete(s).(vault := vault);
            QueueOnly(s, t) && t.queue == s.queue[1..] && t.progress == NotStarted
  {
  }

  lemma QueueOnlyChains(s: State, t: State, u: State)
    requires QueueOnly(s, t) && QueueOnly(t, u)
    ensures QueueOnly(s, u)
  {
  }

  lemma {:induction false} PrefixCompletes(s: State, k: nat) returns (n: nat)
    requires s.progress == NotStarted && k <= |s.queue|
    ensures var t := Advanced(s, n); QueueOnly(s, t) && t.queue == s.queue[k..] && t.progress == NotStarted
    decreases k
  {
    if k == 0 {
      n := 0;
    } else {
      var m := HeadCompletes(s);
      var t := Advanced(s, m);
      CompleteIsQueueOnly(s, t.vault);
      var rest := PrefixCompletes(t, k - 1);
      AdvancedAdds(s, m, rest);
      QueueOnlyChains(s, t, Advanced(t, rest));
      n := m + rest;
      assert t.queue[k - 1..] == s.queue[k..];
    }
  }

  lemma {:induction false} AdvancedKeepsInv(s: State, n: nat)
    requires Inv(s)
    ensures Inv(Advanced(s, n))
    decreases n
  {
    if n > 0 {
      QueueKeepsInv(s);
      AdvancedKeepsInv(QueueRuns(s), n - 1);
    }
  }

  lemma {:induction false} ExecuteSplits(s: State, a: seq<Event>, b: seq<Event>)
    ensures Execute(s, a + b) == Execute(Execute(s, a), b)
    decreases |a|
  {
    if a == [] {
      assert a + b == b;
    } else {
      assert (a + b)[1..] == a[1..] + b;
      ExecuteSplits(Apply(s, a[0]), a[1..], b);
    }
  }

  /** A run that establishes nothing, begins no authentication, and leaves a session in the vault. */
  ghost predicate Refills(s: State, trace: seq<Event>) {
    && (forall k :: 0 <= k < |trace| ==> !trace[k].Established? && !trace[k].AuthenticationBegun?)
    && Execute(s, trace).vault.Some?
  }

  lemma PrependRefills(s: State, e: Event, trace: seq<Event>)
    requires !e.Established? && !e.AuthenticationBegun? && Refills(Apply(s, e), trace)
    ensures Refills(s, [e] + trace)
  {
    assert ([e] + trace)[1..] == trace;
  }

  /** A queued persist of the current generation is saved. */
  lemma SavesRefills(s: State, a: nat) returns (trace: seq<Event>)
    requires Inv(s) && s.progress == NotStarted && a < |s.queue| && Saves(s, a)
    ensures Refills(s, trace)
  {
    var n := PrefixCompletes(s, a);
    var t := Advanced(s, n);
    AdvancedAdds(s, n, 2);
    assert t.queue[0] == s.queue[a];
    assert Advanced(t, 2) == QueueRuns(QueueRuns(t)) by { assert Advanced(QueueRuns(t), 1) == QueueRuns(QueueRuns(t)); }
    trace := Advances(n + 2);
    ExecuteAdvances(s, n + 2);
  }

  /** A refresh of the current generation may be answered. */
  lemma RenewsRefills(s: State, r: nat) returns (trace: seq<Event>)
    requires Inv(s) && s.progress == NotStarted && r < |s.refreshes| && Renews(s, r)
    ensures Refills(s, trace)
  {
    var e := RefreshReplied(r, Some(""));
    var t := Apply(s, e);
    StepKeepsInv(s, e);
    assert Saves(t, |s.queue|);
    var rest := SavesRefills(t, |s.queue|);
    PrependRefills(s, e, rest);
    trace := [e] + rest;
  }

  /** A held credential is refreshed at once, if no refresh of the current generation is there to join. */
  lemma HeldRefills(s: State, r: nat) returns (trace: seq<Event>)
    requires Inv(s) && s.progress == NotStarted && r < |s.vaultReads| && Holds(s, r)
    requires s.refreshFlight.Some? ==> s.refreshes[s.refreshFlight.value].generation != s.generation
    ensures Refills(s, trace)
  {
    var e := ReadResumed(r, true);
    var t := Apply(s, e);
    StepKeepsInv(s, e);
    assert Renews(t, |s.refreshes|);
    var rest := RenewsRefills(t, |s.refreshes|);
    PrependRefills(s, e, rest);
    trace := [e] + rest;
  }

  /** If the refresh to join has its result, it is over first. */
  lemma HeldAfterSettledRefills(s: State, r: nat) returns (trace: seq<Event>)
    requires Inv(s) && s.progress == NotStarted && r < |s.vaultReads| && Holds(s, r)
    requires s.refreshFlight.Some? && s.refreshes[s.refreshFlight.value].stage == Settled
    ensures Refills(s, trace)
  {
    var e := RefreshResolved(s.refreshFlight.value);
    var t := Apply(s, e);
    StepKeepsInv(s, e);
    assert Holds(t, r);
    var rest := HeldRefills(t, r);
    PrependRefills(s, e, rest);
    trace := [e] + rest;
  }

  /** If the refresh to join waits for a mutation, the queue is served first. */
  lemma HeldAfterMutationRefills(s: State, r: nat) returns (trace: seq<Event>)
    requires Inv(s) && Served(s) && s.progress == NotStarted && r < |s.vaultReads| && Holds(s, r)
    requires s.refreshFlight.Some? && s.refreshes[s.refreshFlight.value].stage == AwaitMutation
    ensures Refills(s, trace)
  {
    var n := PrefixCompletes(s, |s.queue|);
    var t := Advanced(s, n);
    AdvancedKeepsInv(s, n);
    ExecuteAdvances(s, n);
    RunKeepsServed(s, Advances(n));
    assert t.queue == [];
    assert Holds(t, r);
    var f := s.refreshFlight.value;
    assert t.refreshes[f].stage != AwaitMutation by {
      assert !Awaited(t, f);
    }
    var rest := HeldAfterSettledRefills(t, r);
    ExecuteSplits(s, Advances(n), rest);
    trace := Advances(n) + rest;
  }

  /** Whatever is on its way may come back. */
  lemma NotQuietRefills(s: State) returns (trace: seq<Event>)
    requires Inv(s) && Served(s) && s.progress == NotStarted && !Quiet(s)
    ensures Refills(s, trace)
  {
    if a :| 0 <= a < |s.queue| && Saves(s, a) {
      trace := SavesRefills(s, a);
    } else if r :| 0 <= r < |s.refreshes| && Renews(s, r) {
      trace := RenewsRefills(s, r);
    } else {
      var r :| 0 <= r < |s.vaultReads| && Holds(s, r);
      if s.refreshFlight.None? || s.refreshes[s.refreshFlight.value].generation != s.generation {
        trace := HeldRefills(s, r);
      } else if s.refreshes[s.refreshFlight.value].stage == AwaitMutation {
        trace := HeldAfterMutationRefills(s, r);
      } else {
        assert !Renews(s, s.refreshFlight.value);
        trace := HeldAfterSettledRefills(s, r);
      }
    }
  }

  // ----- theorems

  /**
   After a sign-out's queued step the vault stays empty over every run that establishes no session,
   if and only if at that moment no session is on its way: none read and held by a caller, none
   being refreshed under the current generation, none queued to be saved under it.
   */
  lemma SignOutLastsExactly(s: State)
    requires Reachable(s) && s.queue != [] && s.queue[0].SignOut? && s.progress == Cleared
    ensures StaysEmpty(Apply(s, QueueAdvances)) <==> Quiet(Apply(s, QueueAdvances))
  {
    ReachableInv(s);
    ReachableServed(s);
    StepKeepsInv(s, QueueAdvances);
    StepKeepsServed(s, QueueAdvances);
    var t := Apply(s, QueueAdvances);
    if Quiet(t) {
      forall trace: seq<Event> | !Establishes(trace) ensures Execute(t, trace).vault.None? {
        EmptiedStaysEmpty(t, trace);
      }
    } else {
      var trace := NotQuietRefills(t);
      assert !Establishes(trace);
    }
  }

  lemma ReachableServed(s: State)
    requires Reachable(s)
    ensures Served(s)
  {
    var stored: Option<Session>, trace: seq<Event> :| s == Execute(Initial(stored), trace);
    RunKeepsServed(Initial(stored), trace);
  }
}

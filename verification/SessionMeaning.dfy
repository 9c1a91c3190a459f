/**
 What the credential queue means: segment by segment as it runs, it leaves in the vault exactly
 what serving the queued mutations one after the other would, and every stored session has a source.
 */
module SessionMeaning {
  import opened Options
  import opened SessionManager
  import opened SignOutTheorems

  /** The last mutation that counts decides; a persist of another generation does not count. */
  function LastWins(vault: Option<Stored>, queue: seq<Mutation>, generation: nat): Option<Stored> {
    if queue == [] then vault
    else
      var last := queue[|queue| - 1];
      if !last.Persist? then None
      else if last.generation == generation then Some(Stored(last.session, generation))
      else LastWins(vault, queue[..|queue| - 1], generation)
  }

  /** What the vault holds once the head is over; a save that was overtaken is cleared again. */
  function AfterHead(s: State): Option<Stored>
    requires s.queue != []
  {
    if s.progress == NotStarted then LastWins(s.vault, [s.queue[0]], s.generation)
    else if s.queue[0].Persist? && s.queue[0].generation == s.generation && (s.progress == Saving || s.progress == Saved)
    then Some(Stored(s.queue[0].session, s.generation))
    else None
  }

  /** What the vault will hold when the queue is empty, if nothing else happens. */
  function Drained(s: State): Option<Stored> {
    if s.queue == [] then s.vault else LastWins(AfterHead(s), s.queue[1..], s.generation)
  }

  // ----- the queue computes its meaning

  lemma {:induction false} LastWinsSplits(vault: Option<Stored>, a: seq<Mutation>, b: seq<Mutation>, generation: nat)
    ensures LastWins(vault, a + b, generation) == LastWins(LastWins(vault, a, generation), b, generation)
    decreases |b|
  {
    if b == [] {
      assert a + b == a;
    } else {
      assert (a + b)[..|a + b| - 1] == a + b[..|b| - 1];
      LastWinsSplits(vault, a, b[..|b| - 1], generation);
    }
  }

  lemma CompletedHead(s: State)
    requires s.queue != []
    ensures Drained(Complete(s)) == LastWins(s.vault, s.queue[1..], s.generation)
  {
    var t := Complete(s);
    assert t.vault == s.vault && t.queue == s.queue[1..] && t.generation == s.generation && t.progress == NotStarted;
    if t.queue != [] {
      assert t.queue == [t.queue[0]] + t.queue[1..];
      LastWinsSplits(s.vault, [t.queue[0]], t.queue[1..], s.generation);
    }
  }

  lemma OneWins(vault: Option<Stored>, m: Mutation, generation: nat)
    ensures LastWins(vault, [m], generation) ==
            if !m.Persist? then None else if m.generation == generation then Some(Stored(m.session, generation)) else vault
  {
    assert [m][..0] == [];
  }

  /** A segment completes a head that has had its effect, or leaves that effect to come. */
  lemma SegmentKeepsHead(s: State)
    requires s.queue != [] && HeadOk(s)
    ensures var t := QueueRuns(s);
            || (t == Complete(s) && AfterHead(s) == s.vault)
            || (t == s.(progress := t.progress, vault := t.vault) && AfterHead(t) == AfterHead(s))
  {
    OneWins(s.vault, s.queue[0], s.generation);
  }

  lemma AdvancingKeepsMeaning(s: State)
    requires Inv(s)
    ensures Drained(QueueRuns(s)) == Drained(s)
  {
    if s.queue != [] {
      SegmentKeepsHead(s);
      CompletedHead(s);
    }
  }

  /** How many segments the queue still needs at most. */
  function Work(s: State): nat {
    5 * |s.queue| + match s.progress
                    case NotStarted => 4
                    case Loading => 3
                    case Saving => 3
                    case Saved => 2
                    case Clearing => 1
                    case Cleared => 0
  }

  lemma AdvancingWorks(s: State)
    requires Inv(s) && s.queue != []
    ensures Work(QueueRuns(s)) < Work(s)
  {
  }

  /** Left alone, the queue empties, and the vault then holds exactly its meaning. */
  lemma {:induction false} QueueDrains(s: State) returns (n: nat)
    requires Inv(s)
    ensures Advanced(s, n).queue == [] && Advanced(s, n).vault == Drained(s)
    decreases Work(s)
  {
    if s.queue == [] {
      n := 0;
    } else {
      QueueKeepsInv(s);
      AdvancingKeepsMeaning(s);
      AdvancingWorks(s);
      n := QueueDrains(QueueRuns(s));
      n := n + 1;
    }
  }

  // ----- what each call means

  lemma Enqueued(s: State, m: Mutation)
    requires Inv(s)
    ensures Drained(s.(queue := s.queue + [m])) == LastWins(Drained(s), [m], s.generation)
  {
    var t := s.(queue := s.queue + [m]);
    assert [m][..0] == [];
    if s.queue == [] {
      assert t.queue == [m] && t.queue[1..] == [];
    } else {
      assert t.queue[1..] == s.queue[1..] + [m];
      LastWinsSplits(AfterHead(s), s.queue[1..], [m], s.generation);
    }
  }

  /** Establishing a session under the current generation stores it; under an older one it changes nothing. */
  lemma EstablishMeans(s: State, session: Session, generation: nat)
    requires Inv(s)
    ensures Drained(Apply(s, Established(session, generation))) ==
            if generation == s.generation then Some(Stored(session, generation)) else Drained(s)
  {
    if generation <= s.generation {
      Enqueued(s, Persist(session, generation, s.generation, None));
    }
  }

  lemma SignOutMeans(s: State)
    requires Inv(s)
    ensures Drained(Apply(s, SignOutPressed)) == None
  {
    BumpKeepsInv(s);
    var t := BeginAuthentication(s);
    Enqueued(t, SignOut(t.generation));
    assert SignOutCalled(s) == t.(queue := t.queue + [SignOut(t.generation)]);
  }

  /** A refresh of the current generation stores what it returned, or clears the vault if it failed; an older one changes nothing. */
  lemma RefreshReplyMeans(s: State, r: nat, reply: Option<Session>)
    requires Inv(s) && r < |s.refreshes| && s.refreshes[r].stage == AwaitApi
    ensures Drained(Apply(s, RefreshReplied(r, reply))) ==
            if s.refreshes[r].generation != s.generation then Drained(s)
            else if reply.Some? then Some(Stored(reply.value, s.generation)) else None
  {
    StageKeepsInv(s, r, AwaitMutation);
    var g, t := s.refreshes[r].generation, WithStage(s, r, AwaitMutation);
    assert Drained(t) == Drained(s);
    Enqueued(t, match reply case Some(session) => Persist(session, g, s.generation, Some(r)) case None => ClearAfterFailure(g, r));
  }

  lemma {:induction false} StaleLosesToClears(vault: Option<Stored>, queue: seq<Mutation>, generation: nat)
    requires forall a :: 0 <= a < |queue| && queue[a].Persist? ==> queue[a].generation != generation
    ensures LastWins(vault, queue, generation) ==
            if exists a :: 0 <= a < |queue| && !queue[a].Persist? then None else vault
    decreases |queue|
  {
    if queue != [] {
      var front := queue[..|queue| - 1];
      StaleLosesToClears(vault, front, generation);
      if queue[|queue| - 1].Persist? && exists a :: 0 <= a < |queue| && !queue[a].Persist? {
        var a :| 0 <= a < |queue| && !queue[a].Persist?;
        assert !front[a].Persist?;
      }
    }
  }

  /** A new authentication discards what is queued and unsaved; clears that are queued, and saves under way, still empty the vault. */
  lemma AuthenticationMeans(s: State)
    requires Inv(s)
    ensures Drained(Apply(s, AuthenticationBegun)) ==
            if s.progress != NotStarted || exists a :: 0 <= a < |s.queue| && !s.queue[a].Persist?
            then None else s.vault
  {
    var t := BeginAuthentication(s);
    if s.queue != [] {
      forall a | 0 <= a < |t.queue| && t.queue[a].Persist? ensures t.queue[a].generation != t.generation {
        assert MutationOk(s, a);
      }
      var rest := t.queue[1..];
      StaleLosesToClears(AfterHead(t), rest, t.generation);
      OneWins(t.vault, t.queue[0], t.generation);
      if exists a :: 0 <= a < |s.queue| && !s.queue[a].Persist? {
        var a :| 0 <= a < |s.queue| && !s.queue[a].Persist?;
        assert a > 0 ==> !rest[a - 1].Persist?;
      }
      assert forall a :: 0 <= a < |rest| ==> rest[a] == s.queue[a + 1];
    }
  }

  /** Reads, their resumption and settled promises mean nothing for the vault. */
  lemma OthersMeanNothing(s: State, e: Event)
    requires e.ReadWanted? || e.ReadLands? || e.ReadResumed? || e.RefreshResolved?
    ensures Drained(Apply(s, e)) == Drained(s)
  {
    var t := Apply(s, e);
    assert t.queue == s.queue && t.progress == s.progress && t.vault == s.vault && t.generation == s.generation;
  }

  // ----- every stored session has a source

  /** The sessions a trace hands over: established, or returned by a refresh. */
  function Delivered(trace: seq<Event>): set<Session> {
    if trace == [] then {}
    else
      (match trace[0]
       case Established(session, _) => {session}
       case RefreshReplied(_, Some(session)) => {session}
       case _ => {}) + Delivered(trace[1..])
  }

  predicate Sourced(s: State, known: set<Session>) {
    && (s.vault.Some? ==> s.vault.value.session in known)
    && (forall a :: 0 <= a < |s.queue| && s.queue[a].Persist? ==> s.queue[a].session in known)
  }

  lemma QueueKeepsSourced(s: State, known: set<Session>)
    requires Inv(s) && Sourced(s, known)
    ensures Sourced(QueueRuns(s), known)
  {
    if s.queue != [] {
      assert Complete(s).queue == s.queue[1..];
    }
  }

  lemma StepKeepsSourced(s: State, e: Event, known: set<Session>)
    requires Inv(s) && Sourced(s, known)
    ensures Sourced(Apply(s, e), known + Delivered([e]))
  {
    if e.QueueAdvances? {
      QueueKeepsSourced(s, known);
    }
  }

  /** In every run, what the vault or the queue holds was stored before, established, or returned by a refresh. */
  lemma {:induction false} EverySessionHasASource(s: State, trace: seq<Event>, known: set<Session>)
    requires Inv(s) && Sourced(s, known)
    ensures Sourced(Execute(s, trace), known + Delivered(trace))
    decreases |trace|
  {
    if trace != [] {
      StepKeepsInv(s, trace[0]);
      StepKeepsSourced(s, trace[0], known);
      EverySessionHasASource(Apply(s, trace[0]), trace[1..], known + Delivered([trace[0]]));
      assert [trace[0]][1..] == [];
      assert known + Delivered([trace[0]]) + Delivered(trace[1..]) == known + Delivered(trace);
    }
  }
}

/**
 Which configurations reach the two steps that break single ownership although init succeeds, the events have
 their callbacks and the callbacks hand their connections on: they depend on how many events epoll may report
 at once, EPOLL_MAX_EVENT_BSIZE, and how many tasks are submitted at once, THREADPOOL_BATCH_SIZE_SUBMIT.
 */
module LifecycleLimits {
  import opened Lifecycle
  import opened LifecycleGaps
  import opened Runs

  /** A task is about to be appended with the flag cleared. */
  ghost predicate LateAppend(c: Setup, s: State, a: Action)
  {
    && Typed(c, s) && Can(c, s, a)
    && a.Dispatch? && a.verdict == Enough && Serves(c, a.event) && !s.flags[a.l]
  }

  /** The first piece of a wrapped batch is about to be cut short. */
  ghost predicate CutShort(c: Setup, s: State, a: Action)
  {
    Typed(c, s) && Can(c, s, a) && a.Commit? && a.taken < c.batch - s.backs[a.l] < |s.batch[a.l]|
  }

  /** What holds of loop `l` in every run, proper or not: no more events and tasks than epoll has reported; and
      when a batch holds all that epoll can report, there are no events left once it is being submitted. */
  ghost predicate AtDesk(c: Setup, s: State, l: nat)
    requires Typed(c, s) && l < c.loops
  {
    && (s.polling[l] ==> s.events[l] == [] && s.batch[l] == [] && s.flags[l])
    && |s.events[l]| + |s.batch[l]| <= c.maxEvents
    && (c.maxEvents <= c.batch && (!s.flags[l] || s.committing[l]) ==> s.events[l] == [])
    && (!Serving(c) ==> s.batch[l] == [])
  }

  ghost predicate InRound(c: Setup, s: State)
  {
    Typed(c, s) && forall l :: 0 <= l < c.loops ==> AtDesk(c, s, l)
  }

  lemma DispatchInRound(c: Setup, s: State, a: Action, t: State)
    requires InRound(c, s) && Next(c, s, a, t) && a.Dispatch? && Typed(c, t)
    ensures InRound(c, t)
  {
    assert AtDesk(c, s, a.l);
    DispatchFrame(c, s, a.l, a.event, a.verdict, a.ok, t);
    forall l | 0 <= l < c.loops ensures AtDesk(c, t, l) {
      assert AtDesk(c, s, l);
    }
  }

  lemma CommitInRound(c: Setup, s: State, a: Action, t: State)
    requires InRound(c, s) && Next(c, s, a, t) && a.Commit? && Typed(c, t)
    ensures InRound(c, t)
  {
    assert AtDesk(c, s, a.l);
    forall l | 0 <= l < c.loops ensures AtDesk(c, t, l) {
      assert AtDesk(c, s, l);
    }
  }

  lemma PollInRound(c: Setup, s: State, a: Action, t: State)
    requires InRound(c, s) && Next(c, s, a, t) && (a.Poll? || a.EndRound?) && Typed(c, t)
    ensures InRound(c, t)
  {
    assert AtDesk(c, s, a.l);
    forall l | 0 <= l < c.loops ensures AtDesk(c, t, l) {
      assert AtDesk(c, s, l);
    }
  }

  /** The other steps leave all that alone. */
  ghost predicate SameDesks(s: State, t: State)
  {
    && t.polling == s.polling && t.events == s.events && t.batch == s.batch
    && t.flags == s.flags && t.committing == s.committing
  }

  lemma OtherSteps(c: Setup, s: State, a: Action, t: State)
    requires Next(c, s, a, t) && !a.Dispatch? && !a.Commit? && !a.Poll? && !a.EndRound?
    ensures SameDesks(s, t)
  {
  }

  lemma OtherInRound(c: Setup, s: State, t: State)
    requires InRound(c, s) && SameDesks(s, t) && Typed(c, t)
    ensures InRound(c, t)
  {
    forall l | 0 <= l < c.loops ensures AtDesk(c, t, l) {
      assert AtDesk(c, s, l);
    }
  }

  /** Every step of every thread keeps it. */
  lemma RoundKept(c: Setup, s: State, a: Action, t: State)
    requires InRound(c, s) && Next(c, s, a, t)
    ensures InRound(c, t)
  {
    TypedKept(c, s, a, t);
    if a.Dispatch? {
      DispatchInRound(c, s, a, t);
    } else if a.Commit? {
      CommitInRound(c, s, a, t);
    } else if a.Poll? || a.EndRound? {
      PollInRound(c, s, a, t);
    } else {
      OtherSteps(c, s, a, t);
      OtherInRound(c, s, t);
    }
  }

  lemma ReachableInRound(c: Setup, s: State)
    requires Reachable(c, s)
    ensures InRound(c, s)
  {
    var run :| Leads(GoodSteps(c), Init(c), run, s);
    forall x, a, y | InRound(c, x) && GoodSteps(c)(x, a, y) ensures InRound(c, y) {
      RoundKept(c, x, a, y);
    }
    Always(GoodSteps(c), x => InRound(c, x), Init(c), run, s);
  }

  lemma NoLateAppend(c: Setup, s: State, a: Action)
    requires InRound(c, s) && LateAppend(c, s, a)
    ensures c.batch < c.maxEvents && Serving(c)
  {
    assert AtDesk(c, s, a.l);
  }

  lemma NoCutShort(c: Setup, s: State, a: Action)
    requires InRound(c, s) && CutShort(c, s, a)
    ensures 2 <= c.batch && 2 <= c.maxEvents && Serving(c)
  {
    assert AtDesk(c, s, a.l);
  }

  lemma LateWitness(c: Setup) returns (s: State, a: Action, t: State)
    requires Usable(c) && c.batch < c.maxEvents && Serving(c)
    ensures Reachable(c, s) && LateAppend(c, s, a) && Next(c, s, a, t) && !Owned(t)
  {
    s, a := TwiceOwned(c);
    t := Apply(c, s, a);
    assert Owners(t, s.events[0][0]) == 2;
  }

  lemma CutWitness(c: Setup) returns (s: State, a: Action, t: State)
    requires Usable(c) && 2 <= c.batch && 2 <= c.maxEvents && Serving(c)
    ensures Reachable(c, s) && CutShort(c, s, a) && Next(c, s, a, t) && !Owned(t)
  {
    s, a := TailLost(c);
    t := Apply(c, s, a);
    assert Owners(t, s.batch[0][1]) == 0;
  }

  /** A task can be appended after a refusal in the same round, which gives its connection a second owner
      (TwoOwners), exactly when epoll can report more events at once than a batch holds. */
  lemma LateAppendIff(c: Setup)
    requires Usable(c)
    ensures (exists s, a :: Reachable(c, s) && LateAppend(c, s, a)) <==> c.batch < c.maxEvents && Serving(c)
  {
    if c.batch < c.maxEvents && Serving(c) {
      var s, a, t := LateWitness(c);
    }
    forall s, a | Reachable(c, s) && LateAppend(c, s, a) ensures c.batch < c.maxEvents && Serving(c) {
      ReachableInRound(c, s);
      NoLateAppend(c, s, a);
    }
  }

  /** A wrapped batch can be cut short in its first piece, which leaves a connection without an owner
      (TailUnowned), exactly when both a batch and a round can hold two tasks. */
  lemma CutShortIff(c: Setup)
    requires Usable(c)
    ensures (exists s, a :: Reachable(c, s) && CutShort(c, s, a)) <==> 2 <= c.batch && 2 <= c.maxEvents && Serving(c)
  {
    if 2 <= c.batch && 2 <= c.maxEvents && Serving(c) {
      var s, a, t := CutWitness(c);
    }
    forall s, a | Reachable(c, s) && CutShort(c, s, a) ensures 2 <= c.batch && 2 <= c.maxEvents && Serving(c) {
      ReachableInRound(c, s);
      NoCutShort(c, s, a);
    }
  }

  /** The steps of a server whose init succeeds, whose events have their callbacks and whose callbacks hand their
      connections on; what the thread pool accepts is not restricted. */
  ghost predicate ProperNext(c: Setup, s: State, a: Action, t: State)
  {
    Next(c, s, a, t) && (Good(c, s, a) || LateAppend(c, s, a) || CutShort(c, s, a))
  }

  ghost function ProperSteps(c: Setup): (State, Action, State) -> bool
  {
    (s, a, t) => ProperNext(c, s, a, t)
  }

  /** In every such run every open connection is in exactly one place. */
  ghost predicate AlwaysOwned(c: Setup)
  {
    forall run, s :: Leads(ProperSteps(c), Init(c), run, s) ==> Owned(s)
  }

  lemma ProperRun(c: Setup, run: seq<Action>, s: State)
    requires Usable(c) && (c.maxEvents <= 1 || !Serving(c)) && Leads(ProperSteps(c), Init(c), run, s)
    ensures Inv(c, s)
  {
    InitInv(c);
    forall x, a, y | Inv(c, x) && InRound(c, x) && ProperSteps(c)(x, a, y) ensures Inv(c, y) && InRound(c, y) {
      RoundKept(c, x, a, y);
      if LateAppend(c, x, a) {
        NoLateAppend(c, x, a);
      } else if CutShort(c, x, a) {
        NoCutShort(c, x, a);
      }
      StepKeepsIff(c, x, a, y);
    }
    Always(ProperSteps(c), x => Inv(c, x) && InRound(c, x), Init(c), run, s);
  }

  lemma GoodIsProper(c: Setup, s: State) returns (run: seq<Action>)
    requires Reachable(c, s)
    ensures Leads(ProperSteps(c), Init(c), run, s)
  {
    run :| Leads(GoodSteps(c), Init(c), run, s);
    Widen(GoodSteps(c), ProperSteps(c), Init(c), run, s);
  }

  /** A good run followed by one of the two steps. */
  lemma BreakingRun(c: Setup, s: State, a: Action, t: State)
    requires Reachable(c, s) && ProperNext(c, s, a, t) && !Owned(t)
    ensures !AlwaysOwned(c)
  {
    var run := GoodIsProper(c, s);
    Extend(ProperSteps(c), Init(c), run, s, a, t);
  }

  /** Whatever the pool refuses, a server that is otherwise used as it should be keeps every connection in exactly
      one place, if and only if epoll reports one event at a time (or no callback is set at all). */
  lemma OwnershipSafeIff(c: Setup)
    requires Usable(c)
    ensures AlwaysOwned(c) <==> c.maxEvents <= 1 || !Serving(c)
  {
    if c.maxEvents <= 1 || !Serving(c) {
      forall run, s | Leads(ProperSteps(c), Init(c), run, s) ensures Owned(s) {
        ProperRun(c, run, s);
      }
    } else if c.batch == 1 {
      var s, a, t := LateWitness(c);
      BreakingRun(c, s, a, t);
    } else {
      var s, a, t := CutWitness(c);
      BreakingRun(c, s, a, t);
    }
  }
}

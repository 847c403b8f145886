/**
 Where each step of the server leaves its connection, and what a thread gets done that is not disturbed: an IO loop
 comes to the end of its round, and the main thread closes what is on the close list and nothing else.
 */
module LifecycleSteps {
  import opened Lifecycle
  import opened LoadBalance
  import opened Runs

  /** `fd` has come to the end of the close list and is not armed. */
  ghost predicate NowClosing(s: State, t: State, fd: Fd)
  {
    t.closeList == s.closeList + [fd] && t.armed == s.armed - {fd}
  }

  /** `fd` has been armed. */
  ghost predicate NowArmed(s: State, t: State, fd: Fd)
  {
    t.closeList == s.closeList && t.armed == s.armed + {fd}
  }

  /** Neither. */
  ghost predicate Untouched(s: State, t: State)
  {
    t.closeList == s.closeList && t.armed == s.armed
  }

  /** An event of one of the two kinds: for `serves` and `other` see whether its own and the other callback are set. */
  ghost predicate EventDone(s: State, t: State, l: nat, fd: Fd, serves: bool, other: bool, verdict: Verdict, ok: bool)
    requires l < |s.batch| == |s.flags|
  {
    if serves then
      && (verdict == Fail ==> NowClosing(s, t, fd) && t.batch == s.batch)
      && (verdict == Short ==> (if ok then NowArmed(s, t, fd) else NowClosing(s, t, fd)) && t.batch == s.batch)
      && (verdict == Enough ==>
            && t.batch == s.batch[l := s.batch[l] + [fd]]
            && if s.flags[l] then Untouched(s, t) else if ok then NowArmed(s, t, fd) else NowClosing(s, t, fd))
    else
      && t.batch == s.batch
      && (!other || ok ==> NowClosing(s, t, fd))
      && (other && !ok ==> Untouched(s, t))
  }

  /** What becomes of the connection of an event.  It is closed on a hangup and when its socket fails; below the water
      mark it is armed again, or closed when that fails; otherwise it is buffered.  Without its callback it is closed,
      even when the enable for the other one succeeds; when that fails it is dropped. */
  lemma DispatchDoes(c: Setup, s: State, l: nat, event: Event, verdict: Verdict, ok: bool, t: State)
    requires Inv(c, s) && Next(c, s, Dispatch(l, event, verdict, ok), t)
    ensures var fd := s.events[l][0];
            && t == s.(events := s.events[l := s.events[l][1..]], batch := t.batch, armed := t.armed,
                       closeList := t.closeList)
            && (event == Hangup ==> NowClosing(s, t, fd) && t.batch == s.batch)
            && (event == Readable ==> EventDone(s, t, l, fd, c.hasRead, c.hasWrite, verdict, ok))
            && (event == Writable ==> EventDone(s, t, l, fd, c.hasWrite, c.hasRead, verdict, ok))
  {
    assert s.armed + {s.events[l][0]} - {s.events[l][0]} == s.armed - {s.events[l][0]};
  }

  /** A refused connection is armed again, or closed when that fails. */
  lemma RenableDoes(c: Setup, s: State, l: nat, ok: bool, t: State)
    requires Next(c, s, Renable(l, ok), t)
    ensures var fd := s.refused[l][0];
            && t == s.(refused := s.refused[l := s.refused[l][1..]], armed := t.armed, closeList := t.closeList)
            && if ok then NowArmed(s, t, fd) else NowClosing(s, t, fd)
  {
  }

  /** What a callback does with its connection: it begins with a queued one; an enable that succeeds arms it, one that
      fails leaves everything as it is; a close closes it; and in the end it returns. */
  lemma CallbackDoes(c: Setup, s: State, a: Action, t: State)
    requires Next(c, s, a, t)
    requires a.Begin? || a.Enable? || a.Close? || a.EnableAgain? || a.CloseAgain? || a.Return?
    ensures t == s.(queued := t.queued, running := t.running, returning := t.returning, armed := t.armed,
                    closeList := t.closeList)
    ensures t.queued == if a.Begin? then s.queued - multiset{a.fd} else s.queued
    ensures a.Enable? || a.EnableAgain? ==> if a.ok then NowArmed(s, t, a.fd) else t == s
    ensures a.Close? || a.CloseAgain? ==> NowClosing(s, t, a.fd)
    ensures a.Begin? || a.Return? ==> Untouched(s, t)
    ensures t.running ==
            if a.Begin? then s.running + multiset{a.fd}
            else if (a.Enable? && a.ok) || a.Close? || (a.Return? && !a.handedOn) then s.running - multiset{a.fd}
            else s.running
    ensures t.returning ==
            if (a.Enable? && a.ok) || a.Close? then s.returning + multiset{a.fd}
            else if a.Return? && a.handedOn then s.returning - multiset{a.fd}
            else s.returning
  {
  }

  /** A new connection goes to the first of the least loaded loops and is armed there; when epoll does not take it,
      everything is as it was; when init fails it stays, and number 0 is closed and forgotten instead. */
  lemma ConnectDoes(c: Setup, s: State, fd: Fd, initOk: bool, addOk: bool, t: State) returns (l: nat)
    requires Mapped(c, s) && Next(c, s, Connect(fd, initOk, addOk), t)
    ensures l < c.loops
    ensures forall j :: 0 <= j < c.loops ==> s.counts[l] <= s.counts[j] && (j < l ==> s.counts[l] < s.counts[j])
    ensures initOk && addOk ==>
              t == s.(conns := s.conns[fd := l], open := s.open + {fd}, armed := s.armed + {fd},
                      counts := s.counts[l := s.counts[l] + 1])
    ensures initOk && !addOk ==> t == s
    ensures !initOk ==>
              t == s.(conns := s.conns[fd := l] - {0}, open := s.open + {fd} - {0}, armed := s.armed - {0})
  {
    l := Least(s.counts);
  }

  /** What epoll reports is no longer armed, and is before the loop, in that order; at the end of a round the flag is
      set and the loop polls again. */
  lemma RoundDoes(c: Setup, s: State, a: Action, t: State)
    requires Next(c, s, a, t) && (a.Poll? || a.EndRound?)
    ensures a.Poll? ==>
              t == s.(events := s.events[a.l := a.ready], armed := t.armed, polling := s.polling[a.l := false])
    ensures a.Poll? ==> forall x :: x in t.armed <==> x in s.armed && x !in a.ready
    ensures a.EndRound? ==> t == s.(polling := s.polling[a.l := true], flags := s.flags[a.l := true])
  {
  }

  /** The steps that loop `l` takes within a round. */
  predicate Within(a: Action, l: nat)
  {
    (a.Dispatch? || a.Commit? || a.Renable? || a.EndRound?) && a.l == l
  }

  /** How much is left of the round of loop `l`. */
  function Left(s: State, l: nat): nat
    requires l < |s.events| == |s.batch| == |s.refused| == |s.polling|
  {
    3 * |s.events[l]| + 2 * |s.batch[l]| + |s.refused[l]| + One(!s.polling[l])
  }

  /** Every step of a round leaves less of it. */
  lemma LeftLess(c: Setup, s: State, a: Action, l: nat, t: State)
    requires Next(c, s, a, t) && l < c.loops && Within(a, l)
    ensures Typed(c, t) && Left(t, l) < Left(s, l)
  {
    TypedKept(c, s, a, t);
    if a.Dispatch? {
      DispatchFrame(c, s, l, a.event, a.verdict, a.ok, t);
    } else if a.Commit? {
      CommitLess(c, s, l, a.taken, t);
    }
  }

  lemma CommitLess(c: Setup, s: State, l: nat, taken: nat, t: State)
    requires Typed(c, s) && Typed(c, t) && l < c.loops && s.batch[l] != [] && s.refused[l] == []
    requires taken <= Piece(c, s, l) && t == Submitted(c, s, l, taken)
    ensures Left(t, l) < Left(s, l)
  {
  }

  /** Within a round loop `l` is never stuck, whatever epoll, the sockets and the pool answer. */
  ghost predicate FreeToGoOn(c: Setup, s: State, l: nat)
    requires Typed(c, s) && l < c.loops
  {
    || (forall ok :: Can(c, s, Renable(l, ok)))
    || (forall event, verdict, ok :: Can(c, s, Dispatch(l, event, verdict, ok)))
    || (forall taken: nat :: taken <= Piece(c, s, l) ==> Can(c, s, Commit(l, taken)))
    || Can(c, s, EndRound(l))
  }

  lemma RoundNeverStuck(c: Setup, s: State, l: nat)
    requires Typed(c, s) && l < c.loops && !s.polling[l]
    ensures FreeToGoOn(c, s, l)
  {
    if s.refused[l] != [] {
      assert forall ok :: Can(c, s, Renable(l, ok));
    } else if s.batch[l] != [] && (s.committing[l] || |s.batch[l]| == c.batch || s.events[l] == []) {
      assert forall taken: nat :: taken <= Piece(c, s, l) ==> Can(c, s, Commit(l, taken));
    } else if s.events[l] != [] {
      assert forall event, verdict, ok :: Can(c, s, Dispatch(l, event, verdict, ok));
    } else {
      assert Can(c, s, EndRound(l));
    }
  }

  lemma SomeStep(c: Setup, s: State, l: nat) returns (a: Action)
    requires Typed(c, s) && l < c.loops && !s.polling[l]
    ensures Within(a, l) && Can(c, s, a)
  {
    RoundNeverStuck(c, s, l);
    a := if Can(c, s, Renable(l, true)) then Renable(l, true)
         else if Can(c, s, Dispatch(l, Hangup, Fail, true)) then Dispatch(l, Hangup, Fail, true)
         else if Can(c, s, Commit(l, 0)) then Commit(l, 0)
         else EndRound(l);
  }

  /** So every round comes to an end, and then the loop polls again with nothing left before it and its flag set. */
  lemma {:induction false} RoundEnds(c: Setup, s: State, l: nat) returns (run: seq<Action>, t: State)
    requires Typed(c, s) && l < c.loops && !s.polling[l]
    ensures Leads(Steps(c), s, run, t) && forall a :: a in run ==> Within(a, l)
    ensures Typed(c, t) && t.polling[l] && t.events[l] == [] && t.batch[l] == [] && t.refused[l] == [] && t.flags[l]
    decreases Left(s, l)
  {
    var a := SomeStep(c, s, l);
    t := Apply(c, s, a);
    LeftLess(c, s, a, l, t);
    run := [a];
    assert Leads(Steps(c), t, run[1..], t) && Steps(c)(s, a, t);
    if !a.EndRound? {
      var m, rest := t, [];
      SameRound(c, s, a, l, m);
      rest, t := RoundEnds(c, m, l);
      Join(Steps(c), s, run, m, rest, t);
      run := run + rest;
    }
  }

  lemma SameRound(c: Setup, s: State, a: Action, l: nat, t: State)
    requires Next(c, s, a, t) && l < c.loops && Within(a, l) && !a.EndRound?
    ensures t.polling == s.polling
  {
    if a.Dispatch? {
      DispatchFrame(c, s, l, a.event, a.verdict, a.ok, t);
    }
  }

  /** The main thread closes connections by itself. */
  ghost predicate Sweeps(c: Setup, s: State, t: State)
  {
    exists run: seq<Action> :: Leads(GoodSteps(c), s, run, t) && forall a :: a in run ==> a.SweepOne?
  }

  lemma SweepsNothing(c: Setup, s: State)
    ensures Sweeps(c, s, s)
  {
    assert Leads(GoodSteps(c), s, [], s);
  }

  lemma SweepsFirst(c: Setup, s: State, m: State, t: State)
    requires GoodNext(c, s, SweepOne, m) && Sweeps(c, m, t)
    ensures Sweeps(c, s, t)
  {
    var run: seq<Action> :| Leads(GoodSteps(c), m, run, t) && forall a :: a in run ==> a.SweepOne?;
    assert GoodSteps(c)(s, SweepOne, m) && ([SweepOne] + run)[1..] == run;
    assert Leads(GoodSteps(c), s, [SweepOne] + run, t);
  }

  /** The connections `fs` are gone, and nothing else has changed but the counts and the list. */
  ghost predicate Gone(s: State, fs: seq<Fd>, t: State)
  {
    && t == s.(conns := t.conns, open := t.open, counts := t.counts, closing := t.closing)
    && t.conns == (map x | x in s.conns && x !in fs :: s.conns[x])
    && (forall x :: x in t.open <==> x in s.open && x !in fs)
  }

  lemma SweptOne(c: Setup, s: State) returns (t: State)
    requires Inv(c, s) && s.closing != []
    ensures GoodNext(c, s, SweepOne, t) && Inv(c, t)
    ensures Gone(s, [s.closing[0]], t) && [s.closing[0]] + t.closing == s.closing
  {
    SweepCan(c, s);
    t := Apply(c, s, SweepOne);
    StepKeepsIff(c, s, SweepOne, t);
    ClosingNotArmed(s);
  }

  lemma NothingGone(s: State)
    ensures Gone(s, [], s)
  {
  }

  lemma ClosingNotArmed(s: State)
    requires Owned(s) && s.closing != []
    ensures s.armed - {s.closing[0]} == s.armed
  {
    assert Owners(s, s.closing[0]) == One(s.closing[0] in s.conns);
    assert s.closing[0] in multiset(s.closing);
  }

  lemma GoneTogether(s: State, f: Fd, m: State, fs: seq<Fd>, t: State)
    requires Gone(s, [f], m) && Gone(m, fs, t)
    ensures Gone(s, [f] + fs, t)
  {
  }

  lemma {:induction false} SweepsAll(c: Setup, s: State) returns (t: State)
    requires Inv(c, s)
    ensures Sweeps(c, s, t) && Inv(c, t) && Gone(s, s.closing, t) && t.closing == []
    decreases |s.closing|
  {
    if s.closing == [] {
      t := s;
      SweepsNothing(c, s);
      NothingGone(s);
    } else {
      var m := SweptOne(c, s);
      t := SweepsAll(c, m);
      SweepsFirst(c, s, m, t);
      GoneTogether(s, s.closing[0], m, m.closing, t);
    }
  }

  /** HandleCloseList, undisturbed: it takes the whole list over and closes exactly the connections on it; the counts
      are those of the connections that are left. */
  lemma SweepCloses(c: Setup, s: State) returns (m: State, t: State)
    requires Inv(c, s) && s.closing == []
    ensures GoodNext(c, s, SweepBegin, m) && Sweeps(c, m, t) && Inv(c, t)
    ensures m.closing == s.closeList && t.closing == t.closeList == []
    ensures Gone(s.(closeList := []), s.closeList, t)
  {
    m := Apply(c, s, SweepBegin);
    StepKeepsIff(c, s, SweepBegin, m);
    t := SweepsAll(c, m);
  }
}

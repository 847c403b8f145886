/**
 Runs of the server that end in the four steps by which the code itself breaks single ownership: a failed
 init, an event without its callback, a task appended after a refusal in the same round, and a wrapped
 batch whose first piece is cut short.  And a run that shows what single ownership does not promise.
 Whatever else is configured, the runs go through IO loop 0.
 */
module LifecycleGaps {
  import opened Bags
  import opened Lifecycle
  import opened LoadBalance
  import opened Runs
  import opened Words

  const NONE: multiset<Fd> := multiset{}

  predicate Usable(c: Setup)
  {
    0 < c.loops && 0 < c.batch < TWO_31
  }

  /** A callback is set, and `TaskEvent` runs it. */
  predicate Serving(c: Setup)
  {
    c.hasRead || c.hasWrite
  }

  function TaskEvent(c: Setup): Event
  {
    if c.hasRead then Readable else Writable
  }

  /** One more good step. */
  lemma Then(c: Setup, s: State, a: Action, t: State)
    requires Reachable(c, s) && GoodNext(c, s, a, t)
    ensures Reachable(c, t)
  {
    var run :| Leads(GoodSteps(c), Init(c), run, s);
    Extend(GoodSteps(c), Init(c), run, s, a, t);
  }

  lemma ReachableTyped(c: Setup, s: State)
    requires Reachable(c, s)
    ensures Typed(c, s)
  {
    ReachableInv(c, s);
  }

  /** Between rounds: every connection is armed, and no callback owns one. */
  ghost predicate Quiet(c: Setup, b: State)
  {
    && Usable(c) && Reachable(c, b) && b.armed == b.conns.Keys
    && |b.counts| == |b.backs| == c.loops && b.backs[0] < c.batch
    && b == Init(c).(conns := b.conns, open := b.open, armed := b.armed, counts := b.counts, backs := b.backs,
                     returning := b.returning)
  }

  /** `n` connections have been accepted, and nothing else has happened. */
  ghost predicate Gathered(c: Setup, b: State, n: nat)
  {
    && Quiet(c, b) && b.counts == After(c.loops, n) && b.backs == Init(c).backs && b.returning == NONE
    && forall x :: x in b.open ==> x < n
  }

  lemma {:induction false} Crowd(c: Setup, n: nat) returns (b: State)
    requires Usable(c)
    ensures Gathered(c, b, n)
  {
    if n == 0 {
      b := Init(c);
      assert Leads(GoodSteps(c), Init(c), [], b);
    } else {
      var s := Crowd(c, n - 1);
      b := OneMoreConnection(c, s, n - 1);
    }
  }

  lemma MapIsOpen(c: Setup, s: State)
    requires Reachable(c, s)
    ensures s.conns.Keys == s.open
  {
    ReachableInv(c, s);
  }

  lemma AcceptedState(c: Setup, s: State, fd: Fd) returns (b: State)
    requires Typed(c, s) && fd !in s.conns
    ensures b == Accepted(c, s, fd, true, true)
    ensures b == s.(conns := b.conns, open := s.open + {fd}, armed := s.armed + {fd}, counts := Connected(s.counts))
    ensures b.conns.Keys == s.conns.Keys + {fd}
  {
    b := Accepted(c, s, fd, true, true);
  }

  lemma AcceptedQuiet(c: Setup, s: State, fd: Fd) returns (b: State)
    requires Quiet(c, s) && fd !in s.open
    ensures Quiet(c, b) && b.counts == Connected(s.counts) && b.open == s.open + {fd}
    ensures b.backs == s.backs && b.returning == s.returning
  {
    ReachableTyped(c, s);
    MapIsOpen(c, s);
    b := AcceptedState(c, s, fd);
    Then(c, s, Connect(fd, true, true), b);
  }

  lemma OneMoreConnection(c: Setup, s: State, n: nat) returns (b: State)
    requires Gathered(c, s, n)
    ensures Gathered(c, b, n + 1)
  {
    b := AcceptedQuiet(c, s, n);
    AfterNext(c.loops, n);
  }

  lemma AfterNext(loops: nat, n: nat)
    requires 0 < loops
    ensures After(loops, n + 1) == Connected(After(loops, n))
  {
  }

  /** Some `m` elements of a set, each once. */
  lemma {:induction false} SomeOf(a: set<Fd>, m: nat) returns (fs: seq<Fd>)
    requires m <= |a|
    ensures |fs| == m && forall x :: multiset(fs)[x] <= One(x in a)
  {
    fs := [];
    if m > 0 {
      var x :| x in a;
      var gs := SomeOf(a - {x}, m - 1);
      fs := [x] + gs;
      assert multiset(fs) == multiset{x} + multiset(gs);
    }
  }

  lemma ManyRounds(q: nat, m: nat, loops: nat, r: nat)
    requires m * loops == q * loops + r && r < loops
    ensures m <= q
  {
    if q < m {
      MulGap(q, m, loops);
    }
  }

  lemma FirstLoopFull(loops: nat, m: nat)
    requires 0 < loops
    ensures m <= After(loops, m * loops)[0]
  {
    var q, r := RoundRobin(loops, m * loops);
    ManyRounds(q, m, loops, r);
    FirstOfRounds(loops, q, r);
  }

  lemma FirstOfRounds(loops: nat, q: nat, r: nat)
    requires 0 < loops
    ensures q <= Rounds(loops, q, r)[0]
  {
  }

  /** Loop 0 serves `m` connections `fs`, all armed. */
  lemma Loop0Serves(c: Setup, m: nat) returns (b: State, fs: seq<Fd>)
    requires Usable(c)
    ensures Quiet(c, b) && b.backs[0] == 0 && b.returning == NONE && |fs| == m && CanReport(b, 0, fs)
  {
    b := Crowd(c, m * c.loops);
    FirstLoopFull(c.loops, m);
    CountsAreLive(c, b);
    assert b.counts[0] == |On(b.conns, 0)|;
    fs := SomeOf(On(b.conns, 0), m);
    Reportable(b, fs);
  }

  lemma Reportable(b: State, fs: seq<Fd>)
    requires b.armed == b.conns.Keys && forall x :: multiset(fs)[x] <= One(x in On(b.conns, 0))
    ensures CanReport(b, 0, fs)
  {
  }

  /** What loop 0 has before it during a round. */
  datatype Desk = Desk(events: seq<Fd>, batch: seq<Fd>, refused: seq<Fd>, flag: bool, back: nat)

  /** Loop 0 is in a round that began in `b`. */
  function During(b: State, armed: set<Fd>, d: Desk, queued: multiset<Fd>, running: multiset<Fd>): State
    requires 0 < |b.polling| == |b.events| == |b.batch| == |b.refused| == |b.flags| == |b.backs|
  {
    b.(armed := armed, polling := b.polling[0 := false], events := b.events[0 := d.events],
       batch := b.batch[0 := d.batch], refused := b.refused[0 := d.refused], flags := b.flags[0 := d.flag],
       backs := b.backs[0 := d.back], queued := queued, running := running)
  }

  /** Such a state, reached by good steps. */
  ghost predicate Midway(c: Setup, b: State, armed: set<Fd>, d: Desk, queued: multiset<Fd>, running: multiset<Fd>)
  {
    Quiet(c, b) && Reachable(c, During(b, armed, d, queued, running))
  }

  /** epoll reports `fs`. */
  lemma Reported(c: Setup, b: State, fs: seq<Fd>)
    requires Quiet(c, b) && CanReport(b, 0, fs) && |fs| <= c.maxEvents
    ensures Midway(c, b, Except(b.armed, fs), Desk(fs, [], [], true, b.backs[0]), NONE, NONE)
  {
    ReachableTyped(c, b);
    NothingChanged(b.batch, 0);
    NothingChanged(b.refused, 0);
    NothingChanged(b.flags, 0);
    NothingChanged(b.backs, 0);
    Then(c, b, Poll(0, fs), During(b, Except(b.armed, fs), Desk(fs, [], [], true, b.backs[0]), NONE, NONE));
  }

  /** The first event of loop 0 gets its connection buffered. */
  lemma Buffered(c: Setup, b: State, armed: set<Fd>, d: Desk)
    requires Serving(c) && Midway(c, b, armed, d, NONE, NONE) && d.flag && d.refused == [] && d.events != []
    requires |d.batch| < c.batch
    ensures Midway(c, b, armed, d.(events := d.events[1..], batch := d.batch + [d.events[0]]), NONE, NONE)
  {
    var s := During(b, armed, d, NONE, NONE);
    ReachableTyped(c, b);
    ReachableTyped(c, s);
    ChangedTwice(b.events, 0, d.events, d.events[1..]);
    ChangedTwice(b.batch, 0, d.batch, d.batch + [d.events[0]]);
    Then(c, s, Dispatch(0, TaskEvent(c), Enough, true),
         During(b, armed, d.(events := d.events[1..], batch := d.batch + [d.events[0]]), NONE, NONE));
  }

  /** The first `k` of the events `fs` are buffered. */
  lemma {:induction false} BufferedAll(c: Setup, b: State, armed: set<Fd>, fs: seq<Fd>, back: nat, k: nat)
    requires Serving(c) && k <= |fs| && k <= c.batch && Midway(c, b, armed, Desk(fs, [], [], true, back), NONE, NONE)
    ensures Midway(c, b, armed, Desk(fs[k..], fs[..k], [], true, back), NONE, NONE)
  {
    if k > 0 {
      BufferedAll(c, b, armed, fs, back, k - 1);
      Buffered(c, b, armed, Desk(fs[k - 1..], fs[..k - 1], [], true, back));
      assert fs[k - 1..][1..] == fs[k..] && fs[..k - 1] + [fs[k - 1..][0]] == fs[..k];
    } else {
      assert fs[0..] == fs && fs[..0] == [];
    }
  }

  /** A failed init, with the very first connection: 5 stays open and in the map, and nobody owns it. */
  lemma InitFails(c: Setup) returns (a: Action)
    requires Usable(c)
    ensures Reachable(c, Init(c)) && Typed(c, Init(c)) && a == Connect(5, false, true) && Can(c, Init(c), a)
    ensures var t := Apply(c, Init(c), a);
            5 in t.conns && 5 in t.open && Owners(t, 5) == 0
  {
    a := Connect(5, false, true);
    assert Leads(GoodSteps(c), Init(c), [], Init(c));
    BagEmpty(Init(c).events);
    assert Bag(Init(c).events)[5] == 0;
  }

  /** An event without its callback, when only the other one is set: the enable fails, the handler returns
      true all the same, and the connection is open and in the map with no owner. */
  lemma CallbackMissing(c: Setup) returns (s: State, a: Action)
    requires Usable(c) && c.hasRead != c.hasWrite && 0 < c.maxEvents
    ensures Reachable(c, s) && Typed(c, s) && Can(c, s, a)
    ensures a == Dispatch(0, if c.hasRead then Writable else Readable, Enough, false)
    ensures var fd, t := s.events[0][0], Apply(c, s, a);
            fd in t.conns && Owners(t, fd) == 0
  {
    var b, fs := Loop0Serves(c, 1);
    Reported(c, b, fs);
    s := During(b, Except(b.armed, fs), Desk(fs, [], [], true, 0), NONE, NONE);
    a := Dispatch(0, if c.hasRead then Writable else Readable, Enough, false);
    ReachableInv(c, s);
    NoOwner(c, s, 0, a.event, Enough);
  }

  /** The pool has taken the first `k` tasks of loop 0 and refused the last, and the next batch starts at 0 again. */
  function LastLeft(s: State, k: nat): State
    requires 0 < |s.batch| == |s.refused| == |s.flags| == |s.backs| == |s.committing| && |s.batch[0]| == k + 1
  {
    var p := s.batch[0];
    s.(queued := s.queued + multiset(p[..k]), refused := s.refused[0 := p[k..k + 1]], batch := s.batch[0 := []],
       backs := s.backs[0 := 0], flags := s.flags[0 := false], committing := s.committing[0 := false])
  }

  lemma FullRefused(c: Setup, s: State)
    requires Typed(c, s) && |s.batch[0]| == c.batch && s.backs[0] == 0 && s.refused[0] == [] && !s.polling[0]
    ensures Can(c, s, Commit(0, c.batch - 1)) && Good(c, s, Commit(0, c.batch - 1))
    ensures Apply(c, s, Commit(0, c.batch - 1)) == LastLeft(s, c.batch - 1)
  {
  }

  lemma RefusedDesk(b: State, armed: set<Fd>, d: Desk, k: nat)
    requires 0 < |b.polling| == |b.events| == |b.batch| == |b.refused| == |b.flags| == |b.backs| == |b.committing|
    requires |d.batch| == k + 1 && !b.committing[0] && d.back == 0
    ensures LastLeft(During(b, armed, d, NONE, NONE), k)
            == During(b, armed, Desk(d.events, [], [d.batch[k]], false, 0), multiset(d.batch[..k]), NONE)
  {
    assert d.batch[k..k + 1] == [d.batch[k]] && NONE + multiset(d.batch[..k]) == multiset(d.batch[..k]);
    ChangedTwice(b.refused, 0, d.refused, [d.batch[k]]);
    ChangedTwice(b.batch, 0, d.batch, []);
    ChangedTwice(b.flags, 0, d.flag, false);
    ChangedTwice(b.backs, 0, 0, 0);
    NothingChanged(b.committing, 0);
  }

  /** The pool takes all tasks of a full batch but the last. */
  lemma LastRefused(c: Setup, b: State, armed: set<Fd>, d: Desk)
    requires Midway(c, b, armed, d, NONE, NONE) && d.back == 0 && d.refused == [] && |d.batch| == c.batch
    ensures Midway(c, b, armed, Desk(d.events, [], [d.batch[c.batch - 1]], false, 0),
                   multiset(d.batch[..c.batch - 1]), NONE)
  {
    var s := During(b, armed, d, NONE, NONE);
    ReachableTyped(c, b);
    ReachableTyped(c, s);
    FullRefused(c, s);
    Then(c, s, Commit(0, c.batch - 1), LastLeft(s, c.batch - 1));
    RefusedDesk(b, armed, d, c.batch - 1);
  }

  /** What the pool has refused is armed again. */
  lemma Rearmed(c: Setup, b: State, armed: set<Fd>, d: Desk, queued: multiset<Fd>)
    requires Midway(c, b, armed, d, queued, NONE) && |d.refused| == 1
    ensures Midway(c, b, armed + {d.refused[0]}, d.(refused := []), queued, NONE)
  {
    var s := During(b, armed, d, queued, NONE);
    ReachableTyped(c, b);
    ReachableTyped(c, s);
    assert d.refused[1..] == [];
    ChangedTwice(b.refused, 0, d.refused, []);
    Then(c, s, Renable(0, true), During(b, armed + {d.refused[0]}, d.(refused := []), queued, NONE));
  }

  /** A task appended after a refusal in the same round: the pool has refused the last task of a full batch and
      cleared the flag, and the next event makes its connection have two owners. */
  lemma TwiceOwned(c: Setup) returns (s: State, a: Action)
    requires Usable(c) && Serving(c) && c.batch < c.maxEvents
    ensures Reachable(c, s) && Typed(c, s) && Can(c, s, a) && a == Dispatch(0, TaskEvent(c), Enough, true)
    ensures !s.flags[0] && Owners(Apply(c, s, a), s.events[0][0]) == 2
  {
    var n := c.batch;
    var b, fs := Loop0Serves(c, n + 1);
    Reported(c, b, fs);
    var armed := Except(b.armed, fs);
    BufferedAll(c, b, armed, fs, 0, n);
    LastRefused(c, b, armed, Desk(fs[n..], fs[..n], [], true, 0));
    var queued := multiset(fs[..n][..n - 1]);
    Rearmed(c, b, armed, Desk(fs[n..], [], [fs[n - 1]], false, 0), queued);
    s := During(b, armed + {fs[n - 1]}, Desk(fs[n..], [], [], false, 0), queued, NONE);
    a := Dispatch(0, TaskEvent(c), Enough, true);
    ReachableInv(c, s);
    TwoOwners(c, s, 0, TaskEvent(c), true);
  }

  /** The pool takes the one task there is. */
  lemma Flushed(c: Setup, b: State, armed: set<Fd>, f: Fd, back: nat)
    requires Midway(c, b, armed, Desk([], [f], [], true, back), NONE, NONE) && back < c.batch
    ensures Midway(c, b, armed, Desk([], [], [], true, Step(back, 1, c.batch)), multiset{f}, NONE)
  {
    var s := During(b, armed, Desk([], [f], [], true, back), NONE, NONE);
    var t := During(b, armed, Desk([], [], [], true, Step(back, 1, c.batch)), multiset{f}, NONE);
    ReachableTyped(c, b);
    ReachableTyped(c, s);
    assert [f][..1] == [f] && [f][1..] == [] && s.queued + multiset([f]) == t.queued;
    ChangedTwice(b.batch, 0, [f], []);
    ChangedTwice(b.backs, 0, back, Step(back, 1, c.batch));
    NothingChanged(b.committing, 0);
    Then(c, s, Commit(0, 1), t);
  }

  lemma Begun(c: Setup, b: State, armed: set<Fd>, f: Fd, back: nat)
    requires Midway(c, b, armed, Desk([], [], [], true, back), multiset{f}, NONE)
    ensures Midway(c, b, armed, Desk([], [], [], true, back), NONE, multiset{f})
  {
    var s := During(b, armed, Desk([], [], [], true, back), multiset{f}, NONE);
    ReachableTyped(c, s);
    Then(c, s, Begin(f), During(b, armed, Desk([], [], [], true, back), NONE, multiset{f}));
  }

  /** Connection `f` alone is served, up to its callback; the next batch starts behind its task. */
  lemma Served(c: Setup, b: State, f: Fd)
    requires Quiet(c, b) && Serving(c) && 0 < c.maxEvents && CanReport(b, 0, [f])
    ensures Midway(c, b, Except(b.armed, [f]), Desk([], [], [], true, Step(b.backs[0], 1, c.batch)), NONE, multiset{f})
  {
    var armed, back := Except(b.armed, [f]), b.backs[0];
    Reported(c, b, [f]);
    Buffered(c, b, armed, Desk([f], [], [], true, back));
    assert [f][1..] == [] && [] + [[f][0]] == [f];
    Flushed(c, b, armed, f, back);
    Begun(c, b, armed, f, Step(back, 1, c.batch));
  }

  /** The callback of `f` arms it again, and the round ends while the callback goes on. */
  lemma HandedBack(c: Setup, b: State, f: Fd, back: nat) returns (b': State)
    requires Midway(c, b, Except(b.armed, [f]), Desk([], [], [], true, back), NONE, multiset{f})
    requires f in b.armed && back < c.batch
    ensures b' == b.(backs := b.backs[0 := back], returning := b.returning + multiset{f}) && Quiet(c, b')
  {
    var s := During(b, Except(b.armed, [f]), Desk([], [], [], true, back), NONE, multiset{f});
    var e := During(b, b.armed, Desk([], [], [], true, back), NONE, NONE).(returning := b.returning + multiset{f});
    b' := b.(backs := b.backs[0 := back], returning := b.returning + multiset{f});
    ReachableTyped(c, b);
    ReachableTyped(c, s);
    assert Except(b.armed, [f]) + {f} == b.armed;
    Then(c, s, Enable(f, true), e);
    RoundOver(c, b, e, back);
  }

  lemma RoundOver(c: Setup, b: State, e: State, back: nat)
    requires Quiet(c, b) && Typed(c, b) && Reachable(c, e) && back < c.batch
    requires e == During(b, b.armed, Desk([], [], [], true, back), NONE, NONE).(returning := e.returning)
    ensures Quiet(c, b.(backs := b.backs[0 := back], returning := e.returning))
  {
    ReachableTyped(c, e);
    Then(c, e, EndRound(0), b.(backs := b.backs[0 := back], returning := e.returning));
  }

  /** What single ownership does not promise: the callback that has armed its connection again may go on while
      a second callback for it already runs.  So a callback must leave its connection alone from then on. */
  lemma TwoCallbacks(c: Setup) returns (s: State, f: Fd)
    requires Usable(c) && Serving(c) && 0 < c.maxEvents
    ensures Reachable(c, s) && s.running[f] == 1 && s.returning[f] == 1
  {
    var b, fs := Loop0Serves(c, 1);
    f := fs[0];
    var back := Step(0, 1, c.batch);
    OneReport(b, fs);
    Served(c, b, f);
    var b' := HandedBack(c, b, f, back);
    Served(c, b', f);
    s := During(b', Except(b'.armed, [f]), Desk([], [], [], true, Step(back, 1, c.batch)), NONE, multiset{f});
  }

  lemma OneReport(b: State, fs: seq<Fd>)
    requires fs != [] && CanReport(b, 0, fs)
    ensures fs[0] in b.armed && CanReport(b, 0, [fs[0]])
  {
    assert fs == [fs[0]] + fs[1..];
    assert multiset(fs)[fs[0]] <= One(fs[0] in b.armed && fs[0] in b.conns && b.conns[fs[0]] == 0);
  }

  /** The callback returns. */
  lemma CallbackReturns(c: Setup, b: State, f: Fd) returns (b': State)
    requires Quiet(c, b) && f in b.returning
    ensures b' == b.(returning := b.returning - multiset{f}) && Quiet(c, b')
  {
    b' := b.(returning := b.returning - multiset{f});
    ReachableTyped(c, b);
    Then(c, b, Return(f, true), b');
  }

  /** Where the next batch starts does not matter to epoll. */
  lemma SameReport(b: State, b': State, fs: seq<Fd>)
    requires CanReport(b, 0, fs) && b'.armed == b.armed && b'.conns == b.conns
    ensures CanReport(b', 0, fs)
  {
  }

  /** Connection `f` of loop 0 can be served. */
  ghost predicate Waiting(c: Setup, b: State, f: Fd)
  {
    Quiet(c, b) && Serving(c) && 0 < c.maxEvents && f in b.armed && CanReport(b, 0, [f])
  }

  /** A round in which connection `f` alone is served, and its callback returns. */
  lemma OneRound(c: Setup, b: State, f: Fd) returns (b': State)
    requires Waiting(c, b, f)
    ensures Waiting(c, b', f) && b' == b.(backs := b.backs[0 := Step(b.backs[0], 1, c.batch)])
  {
    Served(c, b, f);
    b' := HandedBack(c, b, f, Step(b.backs[0], 1, c.batch));
    assert b.returning + multiset{f} - multiset{f} == b.returning;
    b' := CallbackReturns(c, b', f);
    SameReport(b, b', [f]);
  }

  /** `k` such rounds, so that the next batch starts at position `k`. */
  lemma {:induction false} Advanced(c: Setup, b: State, f: Fd, k: nat) returns (b': State)
    requires Waiting(c, b, f) && b.backs[0] == 0 && k < c.batch
    ensures Waiting(c, b', f) && b'.backs[0] == k && b'.armed == b.armed && b'.conns == b.conns
  {
    b' := b;
    if k > 0 {
      b' := Advanced(c, b, f, k - 1);
      b' := OneRound(c, b', f);
    }
  }

  /** Loop 0 serves two connections, and its next batch starts in the last slot of the ring. */
  lemma PairAtEnd(c: Setup) returns (b: State, fs: seq<Fd>)
    requires Usable(c) && Serving(c) && 2 <= c.batch && 2 <= c.maxEvents
    ensures Quiet(c, b) && b.backs[0] == c.batch - 1 && |fs| == 2 && CanReport(b, 0, fs)
  {
    var b0;
    b0, fs := Loop0Serves(c, 2);
    OneReport(b0, fs);
    b := Advanced(c, b0, fs[0], c.batch - 1);
    SameReport(b0, b, fs);
  }

  /** Two tasks are buffered, the second of them at the start of the ring. */
  lemma WrappedPair(c: Setup) returns (b: State, armed: set<Fd>, fs: seq<Fd>)
    requires Usable(c) && Serving(c) && 2 <= c.batch && 2 <= c.maxEvents
    ensures |fs| == 2 && Midway(c, b, armed, Desk([], fs, [], true, c.batch - 1), NONE, NONE)
  {
    b, fs := PairAtEnd(c);
    BufferedPair(c, b, fs);
    armed := Except(b.armed, fs);
  }

  lemma BufferedPair(c: Setup, b: State, fs: seq<Fd>)
    requires Quiet(c, b) && Serving(c) && 2 <= c.batch && 2 <= c.maxEvents && |fs| == 2 && CanReport(b, 0, fs)
    ensures Midway(c, b, Except(b.armed, fs), Desk([], fs, [], true, b.backs[0]), NONE, NONE)
  {
    Reported(c, b, fs);
    BufferedAll(c, b, Except(b.armed, fs), fs, b.backs[0], 2);
    assert fs[2..] == [] && fs[..2] == fs;
  }

  /** A wrapped batch whose first piece is cut short: the pool refuses the task in the last slot of the ring, whose
      connection is re-enabled, and the wrapped one is neither submitted nor re-enabled: nobody owns its connection. */
  lemma TailLost(c: Setup) returns (s: State, a: Action)
    requires Usable(c) && Serving(c) && 2 <= c.batch && 2 <= c.maxEvents
    ensures Reachable(c, s) && Typed(c, s) && Can(c, s, a) && a == Commit(0, 0)
    ensures |s.batch[0]| == 2 && s.backs[0] == c.batch - 1
    ensures var fd, t := s.batch[0][1], Apply(c, s, a);
            fd in t.conns && Owners(t, fd) == 0
  {
    var b, armed, fs := WrappedPair(c);
    s, a := During(b, armed, Desk([], fs, [], true, c.batch - 1), NONE, NONE), Commit(0, 0);
    PairLost(c, s);
  }

  lemma PairLost(c: Setup, s: State)
    requires Reachable(c, s) && Usable(c)
    requires |s.events| == |s.batch| == |s.refused| == |s.backs| == |s.polling| == c.loops
    requires s.events[0] == [] && |s.batch[0]| == 2 && s.refused[0] == [] && s.backs[0] == c.batch - 1 && !s.polling[0]
    ensures Typed(c, s) && Can(c, s, Commit(0, 0))
    ensures var fd, t := s.batch[0][1], Submitted(c, s, 0, 0);
            fd in t.conns && Owners(t, fd) == 0
  {
    ReachableInv(c, s);
    TailUnowned(c, s, 0, 0);
  }
}

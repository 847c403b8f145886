/**
 What one thread of the pool does in its turn, from one point of its loop to the next, while no other interferes:
 a worker serves its own queue before it looks at another's, searches all the others before it waits, and begins
 again with its own; a producer wakes the queue's owner; the thread that calls exit stops every queue.
 */
module PoolTurns {
  import opened PoolMachine
  import opened PoolRefinement
  import opened PoolTheorems
  import opened Runs
  import opened ThreadPools
  import opened Words

  /** From `s` to `t`, worker `w` has taken the batch `xs` off the front of queue `q`, executed it and gone to `back`;
      nothing else has changed. */
  ghost predicate Batch(c: Config, w: nat, s: State, q: nat, xs: seq<Task>, back: Pc, t: State)
  {
    && w < |s.pcs| && q < |s.queues| && xs != [] && |xs| == Min(c.batch, |s.queues[q]|)
    && Progress(s.queues, t.queues, q, xs)
    && t == s.(queues := t.queues, executed := s.executed + multiset(xs), pcs := s.pcs[w := back])
  }

  /** What has been taken is executed. */
  lemma BatchServed(c: Config, s: State, w: nat, back: Pc, l: State) returns (t: State, xs: seq<Task>)
    requires Inv(c, s) && Inv(c, l) && w < c.threads && s.queues[w] != [] && s.hands[w] == []
    requires l == Take(c, s, w, w, back) && Goes(c, w, s, l)
    ensures Goes(c, w, s, t) && Batch(c, w, s, w, xs, back, t)
  {
    t, xs := Executed(l, w, back), l.hands[w];
    ExecutesAll(c, l, w, back);
    GoesOn(c, w, s, l, t);
    ExecutedIsBatch(c, s, w, back);
  }

  lemma ExecutedIsBatch(c: Config, s: State, w: nat, back: Pc)
    requires w < |s.pcs| == |s.queues| == |s.hands| && s.queues[w] != [] && s.hands[w] == [] && 0 < c.batch
    ensures var l := Take(c, s, w, w, back);
            Batch(c, w, s, w, l.hands[w], back, Executed(l, w, back))
  {
    var l := Take(c, s, w, w, back);
    TakeIsProgress(c, s, w, w, back);
    assert s.hands[w := l.hands[w]][w := []] == s.hands;
    assert s.pcs[w := Exec(back)][w := back] == s.pcs[w := back];
  }

  /** A worker takes from its own queue first. */
  lemma OwnFirst(c: Config, s: State, w: nat) returns (t: State, xs: seq<Task>)
    requires Inv(c, s) && w < c.threads && s.pcs[w] == OwnPop && s.queues[w] != []
    ensures Goes(c, w, s, t) && Batch(c, w, s, w, xs, OwnPop, t)
  {
    var l := Take(c, s, w, w, OwnPop);
    GoesOneStep(c, w, s, false, l);
    t, xs := BatchServed(c, s, w, OwnPop, l);
  }

  /** When that is empty, it searches the others' from where it last took something, and waits only if it has passed
      over all of them.  In plain numbers (Exhaustive): unless each of them is empty, or not full and too short, it
      ends up with a batch. */
  lemma SearchesBeforeWaiting(c: Config, s: State, w: nat) returns (t: State, j: nat)
    requires Inv(c, s) && w < c.threads && s.pcs[w] == OwnPop && s.queues[w] == []
    ensures Goes(c, w, s, t) && Searched(c, w, s, j, t)
    ensures Exhaustive(c, s.queues, w, s.starts[w], t.hands[w])
  {
    assert PcOk(c, s.pcs[w]);
    var m := Goto(s, w, StealRead(0));
    GoesOneStep(c, w, s, false, m);
    t, j := SearchIsStolen(c, m, w, 0);
    SearchedFrom(c, w, s, m, j, t);
    GoesOn(c, w, s, m, t);
    StolenIsExhaustive(c, s.queues, t.queues, w, s.starts[w], j, t.hands[w], t.starts[w]);
  }

  /** After a wait that brought nothing on a queue that is not stopped, it begins again with its own queue. */
  lemma BeginsAgain(c: Config, s: State, w: nat) returns (t: State, xs: seq<Task>, j: nat)
    requires Inv(c, s) && w < c.threads && s.pcs[w] == ReadStopped && !s.stopped[w]
    ensures Goes(c, w, s, t)
    ensures if s.queues[w] != [] then Batch(c, w, s, w, xs, OwnPop, t) else Searched(c, w, s, j, t)
  {
    xs, j := [], 0;
    var m := BackToTop(c, s, w);
    if s.queues[w] != [] {
      t, xs := OwnFirst(c, m, w);
    } else {
      t, j := SearchesBeforeWaiting(c, m, w);
      SearchedFrom(c, w, s, m, j, t);
    }
    GoesOn(c, w, s, m, t);
  }

  lemma BackToTop(c: Config, s: State, w: nat) returns (m: State)
    requires Inv(c, s) && w < c.threads && s.pcs[w] == ReadStopped && !s.stopped[w]
    ensures Goes(c, w, s, m) && Inv(c, m) && m == s.(pcs := s.pcs[w := OwnPop])
  {
    m := Goto(s, w, OwnPop);
    GoesOneStep(c, w, s, false, m);
  }

  /** Where in its loop the worker began does not matter to what it finds. */
  lemma SearchedFrom(c: Config, w: nat, s: State, m: State, j: nat, t: State)
    requires Searched(c, w, m, j, t) && w < |s.pcs| && m == s.(pcs := s.pcs[w := m.pcs[w]])
    ensures Searched(c, w, s, j, t)
  {
    var pc := if t.hands[w] == [] then TimedWait else Exec(OwnPop);
    assert s.pcs[w := m.pcs[w]][w := pc] == s.pcs[w := pc];
  }

  /** On a stopped queue it leaves: with single tasks at once, otherwise by way of the loop that drains its queue. */
  lemma Leaves(c: Config, s: State, w: nat) returns (t: State)
    requires Inv(c, s) && w < c.threads && s.pcs[w] == ReadStopped && s.stopped[w]
    ensures Goes(c, w, s, t)
    ensures t == if c.batch == 1 then s.(pcs := s.pcs[w := Done]) else DrainedBy(s, w)
  {
    var m := Goto(s, w, if c.batch == 1 then Done else DrainRead);
    GoesOneStep(c, w, s, false, m);
    t := m;
    if c.batch > 1 {
      DrainsAlone(c, m, w);
      t := DrainedBy(m, w);
      GoesOn(c, w, s, m, t);
      assert s.pcs[w := DrainRead][w := Done] == s.pcs[w := Done];
    }
  }

  /** The timed wait: what is in the queue is taken and executed; an empty queue that runs puts the worker to sleep,
      until its time is over; from an empty stopped one it goes on to read the flag. */
  lemma TimedTurn(c: Config, s: State, w: nat, expired: bool) returns (t: State, xs: seq<Task>)
    requires Inv(c, s) && w < c.threads && (s.pcs[w] == TimedWait || (s.pcs[w] == TimedSleep && expired))
    ensures Goes(c, w, s, t)
    ensures if s.queues[w] != [] then Batch(c, w, s, w, xs, OwnPop, t)
            else t == s.(pcs := s.pcs[w := if s.stopped[w] || expired then ReadStopped else TimedSleep])
  {
    var m := LookTimed(c, s, w, expired);
    GoesOneStep(c, w, s, expired, m);
    t, xs := m, [];
    if s.queues[w] != [] {
      t, xs := BatchServed(c, s, w, OwnPop, m);
    }
  }

  /** The untimed wait of a sole worker: what is in the queue is taken and executed; an empty queue that runs puts it to
      sleep; from an empty stopped one it leaves. */
  lemma IdleTurn(c: Config, s: State, w: nat) returns (t: State, xs: seq<Task>)
    requires Inv(c, s) && w < c.threads && s.pcs[w] == IdleWait
    ensures Goes(c, w, s, t)
    ensures if s.queues[w] != [] then Batch(c, w, s, w, xs, IdleWait, t)
            else t == if s.stopped[w] then DrainedBy(s, w) else s.(pcs := s.pcs[w := IdleSleep])
  {
    assert PcOk(c, s.pcs[w]);
    xs := [];
    if s.queues[w] != [] {
      var l := Take(c, s, w, w, IdleWait);
      GoesOneStep(c, w, s, false, l);
      t, xs := BatchServed(c, s, w, IdleWait, l);
    } else if s.stopped[w] {
      var m := Goto(s, w, DrainRead);
      GoesOneStep(c, w, s, false, m);
      DrainsAlone(c, m, w);
      t := DrainedBy(m, w);
      GoesOn(c, w, s, m, t);
      assert s.pcs[w := DrainRead][w := Done] == s.pcs[w := Done];
    } else {
      t := Goto(s, w, IdleSleep);
      GoesOneStep(c, w, s, false, t);
    }
  }

  /** A worker's next step is determined, but for when its timed wait is over. */
  lemma NoChoice(c: Config, s: State, w: nat, e: bool, t: State, e': bool, t': State)
    requires Next(c, s, Work(w, e), t) && Next(c, s, Work(w, e'), t') && (e == e' || s.pcs[w] != TimedWait)
    ensures t == t'
  {
  }

  /** How far worker `w`, left alone, has looked when it gets to where it is. */
  ghost predicate Looked(c: Config, w: nat, s: State)
    requires Typed(c, s) && w < c.threads
  {
    match s.pcs[w]
    case StealRead(k) => s.queues[w] == [] && PassedOver(c, s.queues, w, s.starts[w], k)
    case StealPop(k) => s.queues[w] == [] && PassedOver(c, s.queues, w, s.starts[w], k)
    case TimedWait => s.queues[w] == [] && PassedOver(c, s.queues, w, s.starts[w], c.threads - 1)
    case TimedSleep => s.queues[w] == [] && PassedOver(c, s.queues, w, s.starts[w], c.threads - 1)
    case _ => true
  }

  lemma LookedOn(c: Config, w: nat, s: State, k: nat, t: State)
    requires Inv(c, s) && Inv(c, t) && w < c.threads && Looked(c, w, s) && k + 1 < c.threads
    requires (s.pcs[w] == StealRead(k) || s.pcs[w] == StealPop(k)) && t == Goto(s, w, NextVictim(c, k))
    requires Short(c, s.queues[Victim(c, w, s.starts[w], k)])
    ensures Looked(c, w, t)
  {
    OneMorePassed(c, s.queues, w, s.starts[w], k, Victim(c, w, s.starts[w], k));
  }

  lemma ReadLooked(c: Config, w: nat, s: State, k: nat, e: bool, t: State)
    requires Inv(c, s) && Inv(c, t) && w < c.threads && Looked(c, w, s) && k + 1 < c.threads
    requires s.pcs[w] == StealRead(k) && t == Worked(c, s, w, e)
    ensures Looked(c, w, t)
  {
    var v := Victim(c, w, s.starts[w], k);
    if |s.queues[v]| < Threshold(c) {
      if s.queues[v] != [] {
        ThresholdIsRich(c, s.queues[v]);
      }
      LookedOn(c, w, s, k, t);
    }
  }

  lemma PopLooked(c: Config, w: nat, s: State, k: nat, e: bool, t: State)
    requires Inv(c, s) && Inv(c, t) && w < c.threads && Looked(c, w, s) && k + 1 < c.threads
    requires s.pcs[w] == StealPop(k) && t == Worked(c, s, w, e)
    ensures Looked(c, w, t)
  {
    if s.queues[Victim(c, w, s.starts[w], k)] == [] {
      LookedOn(c, w, s, k, t);
    }
  }

  lemma OtherLooked(c: Config, w: nat, s: State, e: bool, t: State)
    requires Typed(c, s) && Bounded(c, s) && Typed(c, t) && w < c.threads && Looked(c, w, s)
    requires !s.pcs[w].StealRead? && !s.pcs[w].StealPop? && t == Worked(c, s, w, e)
    ensures Looked(c, w, t)
  {
    assert PcOk(c, s.pcs[w]);
    if s.pcs[w].TimedWait? || s.pcs[w].TimedSleep? {
      TimedLooked(c, w, s, s.pcs[w].TimedSleep? || e, t);
    }
  }

  lemma TimedLooked(c: Config, w: nat, s: State, e: bool, t: State)
    requires Typed(c, s) && Bounded(c, s) && Typed(c, t) && w < c.threads && Looked(c, w, s)
    requires (s.pcs[w].TimedWait? || s.pcs[w].TimedSleep?) && t == LookTimed(c, s, w, e)
    ensures Looked(c, w, t)
  {
  }

  lemma LookedKept(c: Config, w: nat, s: State, e: bool, t: State)
    requires Inv(c, s) && Inv(c, t) && w < c.threads && Looked(c, w, s) && Next(c, s, Work(w, e), t)
    ensures Looked(c, w, t)
  {
    assert PcOk(c, s.pcs[w]);
    if s.pcs[w].StealRead? {
      ReadLooked(c, w, s, s.pcs[w].k, e, t);
    } else if s.pcs[w].StealPop? {
      PopLooked(c, w, s, s.pcs[w].k, e, t);
    } else {
      OtherLooked(c, w, s, e, t);
    }
  }

  lemma {:induction false} LookedAlways(c: Config, w: nat, s: State, run: seq<Action>, t: State)
    requires Inv(c, s) && w < c.threads && Looked(c, w, s) && Leads(Steps(c), s, run, t) && Alone(run, w)
    ensures Inv(c, t) && Looked(c, w, t)
    decreases |run|
  {
    if run != [] {
      var a := run[0];
      var m :| Steps(c)(s, a, m) && Leads(Steps(c), m, run[1..], t);
      assert a in run;
      StepInv(c, s, a);
      LookedKept(c, w, s, a.expired, m);
      LookedAlways(c, w, m, run[1..], t);
    }
  }

  /** Whatever it has done since it last looked at its own queue, a worker left alone waits only when that is empty
      and every other queue has turned out not to be worth it. */
  lemma WaitsOnlyAfterSearch(c: Config, s: State, w: nat, run: seq<Action>, t: State)
    requires Inv(c, s) && w < c.threads && s.pcs[w] == OwnPop && Leads(Steps(c), s, run, t) && Alone(run, w)
    requires Typed(c, t) && (t.pcs[w] == TimedWait || t.pcs[w] == TimedSleep)
    ensures t.queues[w] == [] && PcOk(c, t.pcs[w]) && PassedOver(c, t.queues, w, t.starts[w], c.threads - 1)
    ensures Exhaustive(c, t.queues, w, t.starts[w], [])
  {
    LookedAlways(c, w, s, run, t);
    assert PcOk(c, t.pcs[w]);
    NothingStolen(c, t.queues, w, t.starts[w]);
    StolenIsExhaustive(c, t.queues, t.queues, w, t.starts[w], c.threads - 1, [], t.starts[w]);
  }

  /** A sleeper that has been woken looks at its predicate again. */
  function Awake(pc: Pc): Pc
  {
    match pc
    case IdleSleep => IdleWait
    case TimedSleep => TimedWait
    case _ => pc
  }

  /** The notification behind a push, and a spurious wakeup: only the owner of the queue can be asleep on it, and it
      wakes if it is. */
  lemma NotifyWakes(c: Config, s: State, p: nat) returns (t: State)
    requires Inv(c, s) && Enabled(c, s, Notify(p))
    ensures Next(c, s, Notify(p), t)
    ensures var q := s.producers[p].target;
            q < c.threads && t == s.(producers := s.producers[p := Free], pcs := s.pcs[q := Awake(s.pcs[q])])
  {
    assert ProducerOk(c, s.producers[p]);
    WokenIs(s, s.producers[p].target);
    t := Apply(c, s, Notify(p));
  }

  lemma WokenIs(s: State, q: nat)
    requires q < |s.pcs|
    ensures Woken(s, q) == s.(pcs := s.pcs[q := Awake(s.pcs[q])])
  {
    assert s.pcs[q := s.pcs[q]] == s.pcs;
  }

  /** The thread that calls exit can take the pool from `s` to `t` by itself. */
  ghost predicate Exits(c: Config, s: State, run: seq<Action>, t: State)
  {
    Leads(Steps(c), s, run, t) && forall a :: a in run ==> a.ExitStep?
  }

  /** All queues are stopped, and nobody sleeps any more. */
  function AllStopped(s: State): State
  {
    s.(stopped := seq(|s.stopped|, _ => true), exit := Joining,
       pcs := seq(|s.pcs|, w requires 0 <= w < |s.pcs| => Awake(s.pcs[w])))
  }

  lemma ExitsBy(c: Config, s: State, m: State, t: State)
    requires Next(c, s, ExitStep, m) && Next(c, m, ExitStep, t)
    ensures Exits(c, s, [ExitStep, ExitStep], t)
  {
    assert Leads(Steps(c), s, [], s);
    Extend(Steps(c), s, [], s, ExitStep, m);
    Extend(Steps(c), s, [] + [ExitStep], m, ExitStep, t);
    assert [] + [ExitStep] + [ExitStep] == [ExitStep, ExitStep];
  }

  /** One queue is stopped and its owner notified. */
  lemma StopsOne(c: Config, s: State, i: nat) returns (t: State)
    requires Inv(c, s) && s.exit == StopAt(i)
    ensures Inv(c, t) && i < c.threads && Exits(c, s, [ExitStep, ExitStep], t)
    ensures t == s.(stopped := s.stopped[i := true], pcs := s.pcs[i := Awake(s.pcs[i])],
                    exit := if i + 1 < c.threads then StopAt(i + 1) else Joining)
  {
    var m := StopQueue(s, i);
    StepInv(c, s, ExitStep);
    WokenIs(m, i);
    t := AfterNotify(c, Woken(m, i), i);
    StepInv(c, m, ExitStep);
    ExitsBy(c, s, m, t);
  }

  lemma {:induction false} StopsRest(c: Config, s: State, i: nat) returns (run: seq<Action>)
    requires Inv(c, s) && s.exit == StopAt(i)
    requires forall w :: 0 <= w < i && w < c.threads ==> s.pcs[w] == Awake(s.pcs[w])
    ensures Exits(c, s, run, AllStopped(s))
    decreases c.threads - i
  {
    var t := StopsOne(c, s, i);
    run := [ExitStep, ExitStep];
    if i + 1 < c.threads {
      var rest := StopsRest(c, t, i + 1);
      SameStopped(s, i, t);
      Join(Steps(c), s, run, t, rest, AllStopped(t));
      run := run + rest;
    } else {
      assert t == AllStopped(s);
    }
  }

  lemma SameStopped(s: State, i: nat, t: State)
    requires i < |s.pcs| == |s.stopped|
    requires t == s.(stopped := s.stopped[i := true], pcs := s.pcs[i := Awake(s.pcs[i])], exit := t.exit)
    ensures AllStopped(t) == AllStopped(s)
  {
    assert AllStopped(t).pcs == AllStopped(s).pcs;
  }

  /** exit, undisturbed: it stores the policy asked for, stops every queue and wakes every sleeper, and waits for the
      workers. */
  lemma ExitStopsAll(c: Config, s: State, graceful: bool) returns (run: seq<Action>, t: State)
    requires Inv(c, s) && s.exit == Running
    ensures Leads(Steps(c), s, run, t) && run != [] && run[0] == ExitBegin(graceful)
    ensures forall a :: a in run[1..] ==> a.ExitStep?
    ensures t == AllStopped(s).(policy := graceful)
  {
    var m := s.(exit := StopAt(0), policy := graceful);
    StepInv(c, s, ExitBegin(graceful));
    var rest := StopsRest(c, m, 0);
    assert Leads(Steps(c), s, [], s);
    Extend(Steps(c), s, [], s, ExitBegin(graceful), m);
    Join(Steps(c), s, [] + [ExitBegin(graceful)], m, rest, AllStopped(m));
    run, t := [] + [ExitBegin(graceful)] + rest, AllStopped(m);
    assert run[1..] == rest;
  }

  lemma PolicyStep(c: Config, s: State, a: Action, t: State)
    requires Next(c, s, a, t)
    ensures if a.ExitBegin? then s.exit == Running && t.exit != Running && t.policy == a.graceful
            else t.policy == s.policy && (t.exit == Running <==> s.exit == Running)
  {
    if a.Work? {
      WorkKeepsExit(c, s, a.w, a.expired, t);
    }
  }

  lemma WorkKeepsExit(c: Config, s: State, w: nat, e: bool, t: State)
    requires Next(c, s, Work(w, e), t)
    ensures t.policy == s.policy && t.exit == s.exit
  {
  }

  /** What the exit requests of a run say of the state behind it. */
  ghost predicate PolicyAfter(s: State, run: seq<Action>)
  {
    && (s.policy <==> ExitBegin(false) !in run)
    && (s.exit == Running <==> ExitBegin(true) !in run && ExitBegin(false) !in run)
  }

  lemma PolicyOn(c: Config, s: State, run: seq<Action>, a: Action, t: State)
    requires Next(c, s, a, t) && PolicyAfter(s, run)
    ensures PolicyAfter(t, run + [a])
  {
    PolicyStep(c, s, a, t);
    assert a == ExitBegin(true) || a == ExitBegin(false) || !a.ExitBegin?;
  }

  /** In every run the pool's policy is graceful until an exit asks for the other, and is running until one begins. */
  lemma PolicyIsAsked(c: Config, s: State, run: seq<Action>, t: State)
    requires s.policy && s.exit == Running && Leads(Steps(c), s, run, t)
    ensures t.policy <==> ExitBegin(false) !in run
    ensures t.exit == Running <==> ExitBegin(true) !in run && ExitBegin(false) !in run
  {
    forall x, r, a, y | PolicyAfter(x, r) && Steps(c)(x, a, y) ensures PolicyAfter(y, r + [a]) {
      PolicyOn(c, x, r, a, y);
    }
    Tracks(Steps(c), (x, r) => PolicyAfter(x, r), s, [], run, t);
    assert [] + run == run;
  }

  ghost predicate AddedToStopped(s: State, t: State)
  {
    exists q :: 0 <= q < |s.queues| && q < |s.stopped| && q < |t.queues|
                && s.stopped[q] && |s.queues[q]| < |t.queues[q]|
  }

  /** Only a push adds to a queue, and it counts as late exactly when that queue is stopped. */
  lemma LateIff(c: Config, s: State, a: Action, t: State)
    requires Next(c, s, a, t)
    ensures t.late <==> s.late || AddedToStopped(s, t)
  {
    if a.Store? {
      assert ProducerOk(c, s.producers[a.p]);
    } else if a.Work? {
      WorkShrinks(c, s, a.w, a.expired, t);
    }
  }

  lemma WorkShrinks(c: Config, s: State, w: nat, e: bool, t: State)
    requires Next(c, s, Work(w, e), t)
    ensures |t.queues| == c.threads && t.late == s.late
    ensures forall q :: 0 <= q < c.threads ==> |t.queues[q]| <= |s.queues[q]|
  {
    assert PcOk(c, s.pcs[w]);
  }
}

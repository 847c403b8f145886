/**
 What the thread pool guarantees over whole runs, in any interleaving: no task is lost or executed
 twice, no wakeup is lost, an exit terminates, and exactly when a graceful exit executes everything.
 */
module PoolTheorems {
  import opened Bags
  import opened Words
  import opened PoolMachine
  import opened Runs

  /** Action `a` is possible in `s` and leads to `t`. */
  ghost predicate Next(c: Config, s: State, a: Action, t: State)
  {
    Typed(c, s) && Bounded(c, s) && Enabled(c, s, a) && t == Apply(c, s, a)
  }

  ghost function Steps(c: Config): (State, Action, State) -> bool
  {
    (s, a, t) => Next(c, s, a, t)
  }

  lemma RunInv(c: Config, s: State, run: seq<Action>, t: State)
    requires Inv(c, s) && Leads(Steps(c), s, run, t)
    ensures Inv(c, t)
  {
    forall x, a, y | Inv(c, x) && Steps(c)(x, a, y) ensures Inv(c, y) {
      StepInv(c, x, a);
    }
    Always(Steps(c), x => Inv(c, x), s, run, t);
  }

  /** A state that some interleaving of the threads of an initialised pool leads to. */
  ghost predicate Reachable(c: Config, s: State)
  {
    Configured(c) && exists producers: nat, index: nat, run ::
      index < TWO_32 && Leads(Steps(c), Init(c, producers, index), run, s)
  }

  lemma ReachableInv(c: Config, s: State)
    requires Reachable(c, s)
    ensures Inv(c, s)
  {
    var producers: nat, index: nat, run :| index < TWO_32 && Leads(Steps(c), Init(c, producers, index), run, s);
    InitInv(c, producers, index);
    RunInv(c, Init(c, producers, index), run, s);
  }

  /** Exactly once: a task is queued, held by a worker or executed exactly as often as it was accepted.
      So a task accepted once is in exactly one of these places, and never executed twice. */
  lemma ExactlyOnce(c: Config, s: State, task: Task)
    requires Reachable(c, s)
    ensures Bag(s.queues)[task] + Bag(s.hands)[task] + s.executed[task] == s.accepted[task]
    ensures |s.queues| == c.threads && forall q :: q in s.queues ==> |q| <= c.length
  {
    ReachableInv(c, s);
  }

  /** No lost wakeup: a worker asleep in the untimed wait has an empty running queue, unless a producer or
      the exiting thread has already changed the queue and is about to notify. */
  lemma NoLostWakeup(c: Config, s: State, w: nat)
    requires Reachable(c, s) && w < |s.pcs| && s.pcs[w] == IdleSleep
    ensures |s.queues| == |s.stopped| == |s.pcs|
    ensures c.threads == 1 && ((s.queues[w] == [] && !s.stopped[w]) || Pending(s, w))
  {
    ReachableInv(c, s);
    assert PcOk(c, s.pcs[w]);
  }

  /** Once every worker has finished, a pool that drains has executed everything it accepted, if the exit
      was graceful and no push landed in a queue that was already stopped. */
  lemma DrainedAtEnd(c: Config, s: State)
    requires Inv(c, s) && Drains(c) && AllDone(s) && s.policy && !s.late
    ensures s.executed == s.accepted && forall q :: 0 <= q < c.threads ==> s.queues[q] == []
  {
    BagEmpty(s.queues);
    BagEmpty(s.hands);
  }

  /** A graceful exit executes everything: in every interleaving that ends with all workers finished and
      without a push after a stop, the executed tasks are exactly the accepted ones. */
  ghost predicate Complete(c: Config)
  {
    forall s :: Reachable(c, s) && AllDone(s) && s.policy && !s.late ==> s.executed == s.accepted
  }

  /** That holds exactly for the configurations in which workers drain: with one worker, or with batches.
      Several workers that process single tasks can leave a task behind. */
  lemma GracefulExitCompleteIff(c: Config)
    requires Configured(c)
    ensures Complete(c) <==> c.batch > 1 || c.threads == 1
  {
    if Drains(c) {
      forall s | Reachable(c, s) && AllDone(s) && s.policy && !s.late ensures s.executed == s.accepted {
        ReachableInv(c, s);
        DrainedAtEnd(c, s);
      }
    } else {
      var s := TaskLeftBehind(c);
      assert s.executed != s.accepted;
    }
  }

  /** One more step behind a run. */
  lemma Then(c: Config, s: State, run: seq<Action>, t: State, a: Action, u: State)
    requires Leads(Steps(c), s, run, t) && Next(c, t, a, u)
    ensures Leads(Steps(c), s, run + [a], u)
  {
    Extend(Steps(c), s, run, t, a, u);
  }

  /** A worker that holds nothing takes a step on which it still takes nothing. */
  lemma Walk(c: Config, o: State, run: seq<Action>, s: State, w: nat, expired: bool, pc: Pc)
    returns (run': seq<Action>)
    requires Leads(Steps(c), o, run, s) && Typed(c, s) && Bounded(c, s) && w < c.threads
    requires !s.pcs[w].Exec? && !s.pcs[w].IdleSleep? && !s.pcs[w].Done? && !pc.Exec? && PcOk(c, pc)
    requires Worked(c, s, w, expired) == Goto(s, w, pc)
    ensures Leads(Steps(c), o, run', Goto(s, w, pc)) && Typed(c, Goto(s, w, pc)) && Bounded(c, Goto(s, w, pc))
  {
    Then(c, o, run, s, Work(w, expired), Goto(s, w, pc));
    run' := run + [Work(w, expired)];
  }

  /** Nothing queued, and the exit not begun. */
  ghost predicate Fresh(c: Config, s: State)
  {
    && Typed(c, s) && Bounded(c, s) && s.exit == Running && !s.late
    && (forall q :: 0 <= q < c.threads ==> s.queues[q] == [])
  }

  /** With nothing queued anywhere, every victim yields nothing. */
  lemma SkipVictim(c: Config, o: State, run: seq<Action>, s: State, w: nat, k: nat) returns (run': seq<Action>)
    requires Leads(Steps(c), o, run, s) && Fresh(c, s) && w < c.threads
    requires s.pcs[w] == StealRead(k) && k + 1 < c.threads
    ensures Leads(Steps(c), o, run', Goto(s, w, NextVictim(c, k))) && Fresh(c, Goto(s, w, NextVictim(c, k)))
  {
    if Threshold(c) > 0 {
      run' := Walk(c, o, run, s, w, false, NextVictim(c, k));
    } else {
      run' := Walk(c, o, run, s, w, false, StealPop(k));
      assert Goto(Goto(s, w, StealPop(k)), w, NextVictim(c, k)) == Goto(s, w, NextVictim(c, k));
      run' := Walk(c, o, run', Goto(s, w, StealPop(k)), w, false, NextVictim(c, k));
    }
  }

  /** A worker that finds nothing to steal and its timed wait expired comes to read the stop flag. */
  lemma {:induction false} ScanEmpty(c: Config, o: State, run: seq<Action>, s: State, w: nat, k: nat)
    returns (run': seq<Action>)
    requires Leads(Steps(c), o, run, s) && Fresh(c, s)
    requires w < c.threads && s.pcs[w] == StealRead(k) && k + 1 < c.threads
    ensures Leads(Steps(c), o, run', Goto(s, w, ReadStopped)) && Fresh(c, Goto(s, w, ReadStopped))
    decreases c.threads - k
  {
    var t := Goto(s, w, NextVictim(c, k));
    run' := SkipVictim(c, o, run, s, w, k);
    assert Goto(t, w, ReadStopped) == Goto(s, w, ReadStopped);
    if k + 2 < c.threads {
      run' := ScanEmpty(c, o, run', t, w, k + 1);
    } else {
      run' := Walk(c, o, run', t, w, true, ReadStopped);
    }
  }

  /** Where a worker can be when nothing has been submitted: about to read its stop flag, or, when it is
      the only one, about to wait. */
  function Resting(c: Config): Pc
  {
    if c.threads == 1 then IdleWait else ReadStopped
  }

  /** With nothing submitted, all workers from the `m`-th on come to rest there. */
  lemma {:induction false} AllScan(c: Config, o: State, run: seq<Action>, s: State, m: nat)
    returns (run': seq<Action>, t: State)
    requires Leads(Steps(c), o, run, s) && Fresh(c, s) && m <= c.threads
    requires forall w :: 0 <= w < c.threads ==> s.pcs[w] == if w < m then Resting(c) else Start(c)
    ensures Leads(Steps(c), o, run', t) && Fresh(c, t) && t == s.(pcs := t.pcs)
    ensures forall w :: 0 <= w < c.threads ==> t.pcs[w] == Resting(c)
    decreases c.threads - m
  {
    run', t := run, s;
    if m < c.threads && c.threads > 1 {
      var s1 := Goto(s, m, StealRead(0));
      run' := Walk(c, o, run, s, m, false, StealRead(0));
      run' := ScanEmpty(c, o, run', s1, m, 0);
      assert Goto(s1, m, ReadStopped) == Goto(s, m, ReadStopped);
      run', t := AllScan(c, o, run', Goto(s, m, ReadStopped), m + 1);
    }
  }

  /** A producer draws queue 0 and finds it roomy. */
  lemma DrawnAndChosen(c: Config, o: State, run: seq<Action>, s: State, sub: Submission, t: State)
    returns (run': seq<Action>)
    requires Leads(Steps(c), o, run, s) && Typed(c, s) && Bounded(c, s) && s.exit != Returned
    requires s.producers == [Free] && s.index == 0 && s.queues[0] == [] && sub.One?
    requires t == s.(index := 1, producers := [Chosen(sub, 0)])
    ensures Leads(Steps(c), o, run', t) && Typed(c, t) && Bounded(c, t)
  {
    var m := Produced(s, 0, Indexed(sub, 0)).(index := 1);
    Then(c, o, run, s, Submit(0, sub), m);
    run' := ChosenNext(c, o, run + [Submit(0, sub)], m, sub, t);
  }

  lemma ChosenNext(c: Config, o: State, run: seq<Action>, s: State, sub: Submission, t: State)
    returns (run': seq<Action>)
    requires Leads(Steps(c), o, run, s) && Typed(c, s) && Bounded(c, s) && s.exit != Returned
    requires s.producers == [Indexed(sub, 0)] && s.queues[0] == [] && sub.One?
    requires t == s.(producers := [Chosen(sub, 0)])
    ensures Leads(Steps(c), o, run', t) && Typed(c, t) && Bounded(c, t)
  {
    Then(c, o, run, s, Choose(0), t);
    run' := run + [Choose(0)];
  }

  /** A push of one task to the empty queue 0. */
  lemma StoredOne(c: Config, s: State, task: Task) returns (t: State)
    requires Typed(c, s) && Bounded(c, s) && s.exit != Returned
    requires s.producers == [Chosen(One(task), 0)] && s.queues[0] == []
    ensures Next(c, s, Store(0), t) && Typed(c, t) && Bounded(c, t) && t.producers == [Signalling(0)]
    ensures t.pcs == s.pcs && t.exit == s.exit && t.policy == s.policy && t.late == (s.late || s.stopped[0])
    ensures t.accepted == s.accepted + multiset{task} && t.executed == s.executed && t.stopped == s.stopped
  {
    t := Stored(c, s, 0, [task], 0);
  }

  /** Task 7 is pushed to queue 0. */
  lemma Pushed(c: Config, o: State, run: seq<Action>, s: State) returns (run': seq<Action>, t: State)
    requires Leads(Steps(c), o, run, s) && Typed(c, s) && Bounded(c, s) && s.exit != Returned
    requires s.producers == [Free] && s.index == 0 && s.queues[0] == []
    ensures Leads(Steps(c), o, run', t) && Typed(c, t) && Bounded(c, t) && t.producers == [Signalling(0)]
    ensures t.pcs == s.pcs && t.exit == s.exit && t.policy == s.policy && t.late == (s.late || s.stopped[0])
    ensures t.accepted == s.accepted + multiset{7} && t.executed == s.executed
  {
    var m := s.(index := 1, producers := [Chosen(One(7), 0)]);
    run' := DrawnAndChosen(c, o, run, s, One(7), m);
    t := StoredOne(c, m, 7);
    Then(c, o, run', m, Store(0), t);
    run' := run' + [Store(0)];
  }

  /** The exit begins, gracefully. */
  lemma Begun(c: Config, o: State, run: seq<Action>, s: State) returns (run': seq<Action>, t: State)
    requires Leads(Steps(c), o, run, s) && Typed(c, s) && Bounded(c, s) && s.exit == Running
    ensures Leads(Steps(c), o, run', t) && Typed(c, t) && Bounded(c, t)
    ensures t == s.(exit := StopAt(0), policy := true)
  {
    t := s.(exit := StopAt(0), policy := true);
    Then(c, o, run, s, ExitBegin(true), t);
    run' := run + [ExitBegin(true)];
  }

  /** The exiting thread stops and notifies queues `i` and up, no worker being asleep. */
  lemma {:induction false} StopAll(c: Config, o: State, run: seq<Action>, s: State, i: nat)
    returns (run': seq<Action>, t: State)
    requires Leads(Steps(c), o, run, s) && Typed(c, s) && Bounded(c, s) && i < c.threads && s.exit == StopAt(i)
    requires forall w :: 0 <= w < c.threads ==> s.pcs[w] == Resting(c)
    ensures Leads(Steps(c), o, run', t) && t == s.(stopped := t.stopped, exit := Joining)
    ensures Typed(c, t) && Bounded(c, t)
    decreases c.threads - i
  {
    run' := StopOne(c, o, run, s, i);
    t := StopQueue(s, i);
    run' := NotifyOne(c, o, run', t, i);
    t := AfterNotify(c, t, i);
    if i + 1 < c.threads {
      run', t := StopAll(c, o, run', t, i + 1);
    }
  }

  lemma StopOne(c: Config, o: State, run: seq<Action>, s: State, i: nat) returns (run': seq<Action>)
    requires Leads(Steps(c), o, run, s) && Typed(c, s) && Bounded(c, s) && i < c.threads && s.exit == StopAt(i)
    ensures Leads(Steps(c), o, run', StopQueue(s, i)) && Typed(c, StopQueue(s, i)) && Bounded(c, StopQueue(s, i))
  {
    Then(c, o, run, s, ExitStep, StopQueue(s, i));
    run' := run + [ExitStep];
  }

  lemma NotifyOne(c: Config, o: State, run: seq<Action>, s: State, i: nat) returns (run': seq<Action>)
    requires Leads(Steps(c), o, run, s) && Typed(c, s) && Bounded(c, s) && i < c.threads && s.exit == NotifyAt(i)
    requires !Asleep(s.pcs[i])
    ensures Leads(Steps(c), o, run', AfterNotify(c, s, i))
    ensures Typed(c, AfterNotify(c, s, i)) && Bounded(c, AfterNotify(c, s, i))
  {
    NotifiedShape(c, s, i);
    assert Woken(s, i) == s;
    Then(c, o, run, s, ExitStep, AfterNotify(c, s, i));
    run' := run + [ExitStep];
  }

  lemma NotifiedShape(c: Config, s: State, i: nat)
    requires Typed(c, s) && Bounded(c, s) && s.exit == NotifyAt(i)
    ensures Typed(c, AfterNotify(c, s, i)) && Bounded(c, AfterNotify(c, s, i))
  {
  }

  /** A resting worker whose queue is stopped leaves: at once where the code does not drain, and otherwise
      after it has found its queue empty. */
  lemma OneLeaves(c: Config, o: State, run: seq<Action>, s: State, w: nat) returns (run': seq<Action>)
    requires Leads(Steps(c), o, run, s) && Typed(c, s) && Bounded(c, s) && w < c.threads && s.policy
    requires s.pcs[w] == Resting(c) && s.stopped[w] && (Drains(c) ==> s.queues[w] == [])
    ensures Leads(Steps(c), o, run', Goto(s, w, Done)) && Typed(c, Goto(s, w, Done)) && Bounded(c, Goto(s, w, Done))
  {
    if Drains(c) {
      run' := Walk(c, o, run, s, w, false, DrainRead);
      run' := DrainsNothing(c, o, run', Goto(s, w, DrainRead), w);
      assert Goto(Goto(s, w, DrainRead), w, Done) == Goto(s, w, Done);
    } else {
      run' := Walk(c, o, run, s, w, false, Done);
    }
  }

  lemma DrainsNothing(c: Config, o: State, run: seq<Action>, s: State, w: nat) returns (run': seq<Action>)
    requires Leads(Steps(c), o, run, s) && Typed(c, s) && Bounded(c, s) && w < c.threads && s.policy
    requires s.pcs[w] == DrainRead && s.queues[w] == []
    ensures Leads(Steps(c), o, run', Goto(s, w, Done)) && Typed(c, Goto(s, w, Done)) && Bounded(c, Goto(s, w, Done))
  {
    run' := Walk(c, o, run, s, w, false, DrainPop);
    assert Goto(Goto(s, w, DrainPop), w, Done) == Goto(s, w, Done);
    run' := Walk(c, o, run', Goto(s, w, DrainPop), w, false, Done);
  }

  /** Every worker from the `m`-th on leaves. */
  lemma {:induction false} AllLeave(c: Config, o: State, run: seq<Action>, s: State, m: nat)
    returns (run': seq<Action>, t: State)
    requires Leads(Steps(c), o, run, s) && Typed(c, s) && Bounded(c, s) && m <= c.threads
    requires s.exit == Joining && s.policy && (Drains(c) ==> forall q :: 0 <= q < c.threads ==> s.queues[q] == [])
    requires forall w :: 0 <= w < c.threads ==> s.pcs[w] == if w < m then Done else Resting(c)
    ensures Leads(Steps(c), o, run', t) && Typed(c, t) && Bounded(c, t) && AllDone(t) && t == s.(pcs := t.pcs)
    decreases c.threads - m
  {
    run', t := run, s;
    if m < c.threads {
      assert s.stopped[m];
      run' := OneLeaves(c, o, run, s, m);
      run', t := AllLeave(c, o, run', Goto(s, m, Done), m + 1);
    }
  }

  /** An initialised pool whose workers have all come to rest. */
  lemma AllRest(c: Config) returns (run: seq<Action>, s: State)
    requires Configured(c)
    ensures Leads(Steps(c), Init(c, 1, 0), run, s) && Fresh(c, s)
    ensures s.producers == [Free] && s.index == 0 && s.accepted == multiset{} == s.executed
    ensures forall w :: 0 <= w < c.threads ==> s.pcs[w] == Resting(c)
  {
    InitInv(c, 1, 0);
    run, s := AllScan(c, Init(c, 1, 0), [], Init(c, 1, 0), 0);
  }

  /** An interleaving, for any number of workers that process single tasks, after which all of them have
      finished, the exit was graceful, nothing was pushed after a stop, and yet a task was never executed:
      it is pushed while every worker is between its timed wait and its stop flag. */
  lemma TaskLeftBehind(c: Config) returns (t: State)
    requires Configured(c) && !Drains(c)
    ensures Reachable(c, t) && AllDone(t) && t.policy && !t.late
    ensures t.accepted == multiset{7} && t.executed == multiset{}
  {
    var o := Init(c, 1, 0);
    var run, s := AllRest(c);
    run, s := Pushed(c, o, run, s);
    run, s := Begun(c, o, run, s);
    run, s := StopAll(c, o, run, s, 0);
    run, t := AllLeave(c, o, run, s, 0);
  }

  /** The hypothesis on late pushes is needed, whatever the configuration: here all workers have left
      before the server's IO loop, which runs on after the exit, pushes a task. */
  lemma LatePushIsLost(c: Config) returns (t: State)
    requires Configured(c)
    ensures Reachable(c, t) && AllDone(t) && t.policy && t.late
    ensures t.accepted == multiset{7} && t.executed == multiset{}
  {
    var o := Init(c, 1, 0);
    var run, s := AllRest(c);
    run, s := Begun(c, o, run, s);
    run, s := StopAll(c, o, run, s, 0);
    run, s := AllLeave(c, o, run, s, 0);
    run, t := Pushed(c, o, run, s);
  }
}

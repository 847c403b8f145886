/**
 Once every queue is stopped and nothing more is submitted, one number falls with every step of every
 thread, so an exit returns whatever the scheduler does.
 */
module PoolTermination {
  import opened Bags
  import opened PoolMachine
  import opened PoolTheorems
  import opened Runs
  import opened Words

  function Sum(xs: seq<nat>): nat
  {
    if xs == [] then 0 else xs[0] + Sum(xs[1..])
  }

  lemma {:induction false} SumUpdate(xs: seq<nat>, i: nat, x: nat)
    requires i < |xs|
    ensures Sum(xs[i := x]) + xs[i] == Sum(xs) + x
  {
    var ys := xs[i := x];
    if i == 0 {
      assert ys[1..] == xs[1..] && ys[0] == x;
    } else {
      SumUpdate(xs[1..], i - 1, x);
      assert ys[1..] == xs[1..][i - 1 := x] && ys[0] == xs[0];
    }
  }

  /** How many steps a worker at `pc` can take before it finishes, on empty stopped queues. */
  function PcRank(c: Config, pc: Pc): nat
  {
    match pc
    case Done => 0
    case DrainPop => 1
    case DrainRead => 2
    case ReadStopped => 3
    case IdleWait => 3
    case TimedWait => 4
    case IdleSleep => 4
    case TimedSleep => 5
    case StealPop(k) => if k < c.threads then 2 * (c.threads - k) + 4 else 4
    case StealRead(k) => if k < c.threads then 2 * (c.threads - k) + 5 else 5
    case OwnPop => 2 * c.threads + 6
    case Exec(back) => if back == DrainRead then 2 else 2 * c.threads + 6
  }

  function WorkerRank(c: Config, pc: Pc, hand: seq<Task>): nat
  {
    PcRank(c, pc) + |hand|
  }

  function WorkerRanks(c: Config, s: State): seq<nat>
    requires |s.pcs| == |s.hands|
  {
    seq(|s.pcs|, w requires 0 <= w < |s.pcs| => WorkerRank(c, s.pcs[w], s.hands[w]))
  }

  function ProducerRanks(s: State): seq<nat>
  {
    seq(|s.producers|, p requires 0 <= p < |s.producers| => if s.producers[p].Signalling? then 1 else 0)
  }

  function ExitRank(e: Exiting): nat
  {
    match e
    case Returned => 0
    case Joining => 1
    case _ => 2
  }

  /** `n` queued tasks weigh more than all the steps a worker can gain by taking them. */
  function Weight(c: Config, n: nat): nat
  {
    if n == 0 then 0 else Weight(c, n - 1) + 2 * c.threads + 8
  }

  lemma {:induction false} WeightLess(c: Config, n: nat, m: nat)
    requires m > 0
    ensures Weight(c, n + m) >= Weight(c, n) + 2 * c.threads + 7 + m
    decreases m
  {
    if m > 1 {
      WeightLess(c, n, m - 1);
    }
  }

  function Measure(c: Config, s: State): nat
    requires |s.pcs| == |s.hands|
  {
    Weight(c, |Bag(s.queues)|) + Sum(WorkerRanks(c, s)) + Sum(ProducerRanks(s)) + ExitRank(s.exit)
  }

  /** All queues are stopped, and no producer has a push ahead of it. */
  ghost predicate Quiet(s: State)
  {
    && (forall q :: 0 <= q < |s.stopped| ==> s.stopped[q])
    && (forall p :: 0 <= p < |s.producers| ==> s.producers[p].Free? || s.producers[p].Signalling?)
  }

  /** A step of worker `w` changes the sum of the ranks by what it changes that worker's. */
  lemma RanksChange(c: Config, s: State, w: nat, t: State)
    requires w < |s.pcs| == |s.hands| && t.producers == s.producers
    requires |t.pcs| == |t.hands| == |s.pcs| && t.pcs == s.pcs[w := t.pcs[w]] && t.hands == s.hands[w := t.hands[w]]
    ensures Sum(WorkerRanks(c, t)) + WorkerRank(c, s.pcs[w], s.hands[w])
              == Sum(WorkerRanks(c, s)) + WorkerRank(c, t.pcs[w], t.hands[w])
    ensures ProducerRanks(t) == ProducerRanks(s)
  {
    SumUpdate(WorkerRanks(c, s), w, WorkerRank(c, t.pcs[w], t.hands[w]));
    assert WorkerRanks(c, t) == WorkerRanks(c, s)[w := WorkerRank(c, t.pcs[w], t.hands[w])];
  }

  lemma GotoLess(c: Config, s: State, w: nat, pc: Pc)
    requires w < |s.pcs| == |s.hands| && PcRank(c, pc) < PcRank(c, s.pcs[w])
    ensures Measure(c, Goto(s, w, pc)) < Measure(c, s)
  {
    RanksChange(c, s, w, Goto(s, w, pc));
  }

  /** Taking tasks out of a queue costs more than executing them and starting over. */
  lemma TakeLess(c: Config, s: State, w: nat, q: nat, back: Pc)
    requires c.batch > 0 && w < |s.pcs| == |s.hands| && s.hands[w] == [] && q < |s.queues| && s.queues[q] != []
    ensures Measure(c, Take(c, s, w, q, back)) < Measure(c, s)
  {
    var t := Take(c, s, w, q, back);
    TakenFrom(c, s, w, q, back);
    WeightLess(c, |Bag(t.queues)|, |t.hands[w]|);
    RanksChange(c, s, w, t);
  }

  lemma TakenFrom(c: Config, s: State, w: nat, q: nat, back: Pc)
    requires c.batch > 0 && w < |s.pcs| == |s.hands| && q < |s.queues| && s.queues[q] != []
    ensures var t := Take(c, s, w, q, back);
            |t.hands[w]| > 0 && |Bag(s.queues)| == |Bag(t.queues)| + |t.hands[w]|
  {
    var n := Min(c.batch, |s.queues[q]|);
    assert s.queues[q] == s.queues[q][..n] + s.queues[q][n..];
    BagTake(s.queues, q, s.queues[q][..n], s.queues[q][n..]);
  }

  lemma ExecuteLess(c: Config, s: State, w: nat, back: Pc)
    requires Inv(c, s) && w < c.threads && s.pcs[w] == Exec(back)
    ensures Measure(c, Execute(s, w, back)) < Measure(c, s)
  {
    assert PcOk(c, s.pcs[w]);
    RanksChange(c, s, w, Execute(s, w, back));
  }

  lemma TakeOrLess(c: Config, s: State, w: nat, q: nat, back: Pc, otherwise: Pc, t: State)
    requires Inv(c, s) && w < c.threads && q < c.threads && !s.pcs[w].Exec?
    requires PcRank(c, otherwise) < PcRank(c, s.pcs[w])
    requires t == TakeOr(c, s, w, q, back, otherwise) && |t.pcs| == |t.hands|
    ensures Measure(c, t) < Measure(c, s)
  {
    if s.queues[q] == [] {
      GotoLess(c, s, w, otherwise);
    } else {
      TakeLess(c, s, w, q, back);
    }
  }

  lemma StealLess(c: Config, s: State, w: nat, k: nat)
    requires Inv(c, s) && w < c.threads && s.pcs[w] == StealPop(k)
    ensures k + 1 < c.threads && Measure(c, StealStep(c, s, w, k)) < Measure(c, s)
  {
    assert PcOk(c, s.pcs[w]);
    var v := Victim(c, w, s.starts[w], k);
    if s.queues[v] == [] {
      GotoLess(c, s, w, NextVictim(c, k));
    } else {
      TakeLess(c, s, w, v, OwnPop);
      var t := StealStep(c, s, w, k);
      assert t == Take(c, s, w, v, OwnPop).(starts := t.starts);
      assert WorkerRanks(c, t) == WorkerRanks(c, Take(c, s, w, v, OwnPop));
      assert ProducerRanks(t) == ProducerRanks(Take(c, s, w, v, OwnPop));
    }
  }

  /** Looking for work, on stopped queues, lowers the measure. */
  lemma SearchLess(c: Config, s: State, w: nat, expired: bool, t: State)
    requires Inv(c, s) && w < c.threads && t == Worked(c, s, w, expired) && |t.pcs| == |t.hands|
    requires s.pcs[w].OwnPop? || s.pcs[w].StealRead? || s.pcs[w].StealPop?
    ensures Measure(c, t) < Measure(c, s)
  {
    assert PcOk(c, s.pcs[w]);
    match s.pcs[w] {
      case OwnPop => TakeOrLess(c, s, w, w, OwnPop, StealRead(0), t);
      case StealRead(k) =>
        var longEnough := |s.queues[Victim(c, w, s.starts[w], k)]| >= Threshold(c);
        GotoLess(c, s, w, if longEnough then StealPop(k) else NextVictim(c, k));
      case StealPop(k) => StealLess(c, s, w, k);
      case _ =>
    }
  }

  /** So does waiting, which on a stopped queue never sleeps. */
  lemma WaitLess(c: Config, s: State, w: nat, expired: bool, t: State)
    requires Inv(c, s) && w < c.threads && s.stopped[w] && t == Worked(c, s, w, expired) && |t.pcs| == |t.hands|
    requires s.pcs[w].TimedWait? || s.pcs[w].TimedSleep? || s.pcs[w].ReadStopped? || s.pcs[w].IdleWait?
    ensures Measure(c, t) < Measure(c, s)
  {
    match s.pcs[w] {
      case TimedWait => TakeOrLess(c, s, w, w, OwnPop, ReadStopped, t);
      case TimedSleep => TakeOrLess(c, s, w, w, OwnPop, ReadStopped, t);
      case ReadStopped => GotoLess(c, s, w, if c.batch == 1 then Done else DrainRead);
      case IdleWait => TakeOrLess(c, s, w, w, IdleWait, DrainRead, t);
      case _ =>
    }
  }

  /** So does draining and executing. */
  lemma DrainLess(c: Config, s: State, w: nat, expired: bool, t: State)
    requires Inv(c, s) && w < c.threads && t == Worked(c, s, w, expired) && |t.pcs| == |t.hands|
    requires s.pcs[w].DrainRead? || s.pcs[w].DrainPop? || s.pcs[w].Exec?
    ensures Measure(c, t) < Measure(c, s)
  {
    match s.pcs[w] {
      case DrainRead => GotoLess(c, s, w, if s.policy then DrainPop else Done);
      case DrainPop => TakeOrLess(c, s, w, w, DrainRead, Done, t);
      case Exec(back) => ExecuteLess(c, s, w, back);
      case _ =>
    }
  }

  /** Every step a worker can take on stopped queues lowers the measure. */
  lemma WorkLess(c: Config, s: State, w: nat, expired: bool, t: State)
    requires Inv(c, s) && Quiet(s) && w < c.threads && s.pcs[w] != IdleSleep && s.pcs[w] != Done
    requires t == Worked(c, s, w, expired) && |t.pcs| == |t.hands|
    ensures Measure(c, t) < Measure(c, s)
  {
    if s.pcs[w].OwnPop? || s.pcs[w].StealRead? || s.pcs[w].StealPop? {
      SearchLess(c, s, w, expired, t);
    } else if s.pcs[w].DrainRead? || s.pcs[w].DrainPop? || s.pcs[w].Exec? {
      DrainLess(c, s, w, expired, t);
    } else {
      WaitLess(c, s, w, expired, t);
    }
  }

  lemma WokenLess(c: Config, s: State, q: nat)
    requires Typed(c, s) && q < c.threads
    ensures Measure(c, Woken(s, q)) <= Measure(c, s) - if Asleep(s.pcs[q]) then 1 else 0
  {
    if s.pcs[q] == IdleSleep {
      GotoLess(c, s, q, IdleWait);
    } else if s.pcs[q] == TimedSleep {
      GotoLess(c, s, q, TimedWait);
    }
  }

  lemma NotifyLess(c: Config, s: State, p: nat)
    requires |s.pcs| == |s.hands| && p < |s.producers| && s.producers[p].Signalling?
    ensures Measure(c, Produced(s, p, Free)) < Measure(c, s)
  {
    var t := Produced(s, p, Free);
    SumUpdate(ProducerRanks(s), p, 0);
    assert ProducerRanks(t) == ProducerRanks(s)[p := 0];
    assert WorkerRanks(c, t) == WorkerRanks(c, s);
  }

  lemma ExitLess(c: Config, s: State, e: Exiting)
    requires |s.pcs| == |s.hands| && ExitRank(e) < ExitRank(s.exit)
    ensures Measure(c, s.(exit := e)) < Measure(c, s)
  {
    assert WorkerRanks(c, s.(exit := e)) == WorkerRanks(c, s);
    assert ProducerRanks(s.(exit := e)) == ProducerRanks(s);
  }

  /** A step that touches neither the flags, nor the producers, nor the policy. */
  predicate SameFlags(s: State, t: State)
  {
    t.stopped == s.stopped && t.producers == s.producers && t.late == s.late && t.policy == s.policy
  }

  lemma SearchFrame(c: Config, s: State, w: nat, expired: bool, t: State)
    requires Typed(c, s) && Bounded(c, s) && w < c.threads && t == Worked(c, s, w, expired)
    requires s.pcs[w].OwnPop? || s.pcs[w].StealRead? || s.pcs[w].StealPop?
    ensures SameFlags(s, t)
  {
  }

  lemma WaitFrame(c: Config, s: State, w: nat, expired: bool, t: State)
    requires Typed(c, s) && Bounded(c, s) && w < c.threads && t == Worked(c, s, w, expired)
    requires s.pcs[w].TimedWait? || s.pcs[w].TimedSleep? || s.pcs[w].ReadStopped? || s.pcs[w].IdleWait?
    ensures SameFlags(s, t)
  {
  }

  lemma WorkFrame(c: Config, s: State, w: nat, expired: bool, t: State)
    requires Typed(c, s) && Bounded(c, s) && w < c.threads && t == Worked(c, s, w, expired)
    ensures SameFlags(s, t)
  {
    if s.pcs[w].OwnPop? || s.pcs[w].StealRead? || s.pcs[w].StealPop? {
      SearchFrame(c, s, w, expired, t);
    } else if s.pcs[w].TimedWait? || s.pcs[w].TimedSleep? || s.pcs[w].ReadStopped? || s.pcs[w].IdleWait? {
      WaitFrame(c, s, w, expired, t);
    }
  }

  lemma WorkQuiet(c: Config, s: State, w: nat, expired: bool, t: State)
    requires Inv(c, s) && Quiet(s) && Next(c, s, Work(w, expired), t) && Typed(c, t)
    ensures Measure(c, t) < Measure(c, s) && Quiet(t) && t.late == s.late && t.policy == s.policy
  {
    WorkLess(c, s, w, expired, t);
    WorkFrame(c, s, w, expired, t);
  }

  lemma SpuriousQuiet(c: Config, s: State, w: nat, t: State)
    requires Inv(c, s) && Quiet(s) && Next(c, s, Spurious(w), t) && Typed(c, t)
    ensures Measure(c, t) < Measure(c, s) && Quiet(t) && t.late == s.late && t.policy == s.policy
  {
    WokenLess(c, s, w);
  }

  /** Waking moves at most one worker. */
  lemma WokenFrame(s: State, q: nat)
    requires q < |s.pcs|
    ensures Woken(s, q) == s.(pcs := Woken(s, q).pcs) && |Woken(s, q).pcs| == |s.pcs|
  {
  }

  lemma NotifyQuiet(c: Config, s: State, p: nat, t: State)
    requires Inv(c, s) && Quiet(s) && Next(c, s, Notify(p), t) && Typed(c, t)
    ensures Measure(c, t) < Measure(c, s) && Quiet(t) && t.late == s.late && t.policy == s.policy
  {
    assert ProducerOk(c, s.producers[p]);
    var q := s.producers[p].target;
    WokenLess(c, s, q);
    WokenFrame(s, q);
    ProducedQuiet(c, s, Woken(s, q), p, t);
  }

  lemma ProducedQuiet(c: Config, s: State, m: State, p: nat, t: State)
    requires |m.pcs| == |m.hands| == |s.hands| == |s.pcs| && Quiet(s) && Measure(c, m) <= Measure(c, s)
    requires m == s.(pcs := m.pcs) && p < |s.producers| && s.producers[p].Signalling? && t == Produced(m, p, Free)
    ensures Measure(c, t) < Measure(c, s) && Quiet(t) && t.late == s.late && t.policy == s.policy
  {
    NotifyLess(c, m, p);
  }

  lemma LastStopped(c: Config, s: State)
    requires Typed(c, s) && Bounded(c, s) && Quiet(s)
    ensures s.exit == NotifyAt(c.threads - 1) || s.exit == Joining || s.exit == Returned
  {
    assert s.stopped[c.threads - 1];
  }

  lemma NotifiedQuiet(c: Config, s: State, i: nat, t: State)
    requires Typed(c, s) && Quiet(s) && i < c.threads && ExitRank(s.exit) == 2
    requires i + 1 == c.threads && t == AfterNotify(c, Woken(s, i), i) && |t.pcs| == |t.hands|
    ensures Measure(c, t) < Measure(c, s) && Quiet(t) && t.late == s.late && t.policy == s.policy
  {
    WokenLess(c, s, i);
    ExitLess(c, Woken(s, i), Joining);
  }

  lemma ExitQuiet(c: Config, s: State, t: State)
    requires Inv(c, s) && Quiet(s) && Next(c, s, ExitStep, t) && Typed(c, t)
    ensures Measure(c, t) < Measure(c, s) && Quiet(t) && t.late == s.late && t.policy == s.policy
  {
    LastStopped(c, s);
    if s.exit.NotifyAt? {
      NotifiedQuiet(c, s, s.exit.i, t);
    } else {
      ExitLess(c, s, Returned);
    }
  }

  /** On a quiet pool nothing is left to do but to work, wake, notify and join. */
  lemma QuietActions(c: Config, s: State, a: Action)
    requires Inv(c, s) && Quiet(s) && Enabled(c, s, a) && !a.Submit?
    ensures a.Work? || a.Spurious? || a.Notify? || a.ExitStep?
  {
    LastStopped(c, s);
  }

  /** Every step of every thread but a new submission lowers the measure, and keeps the pool quiet. */
  lemma QuietStep(c: Config, s: State, a: Action, t: State)
    requires Inv(c, s) && Quiet(s) && Next(c, s, a, t) && Typed(c, t) && !a.Submit?
    ensures Measure(c, t) < Measure(c, s) && Quiet(t) && t.late == s.late && t.policy == s.policy
  {
    QuietActions(c, s, a);
    if a.Work? {
      WorkQuiet(c, s, a.w, a.expired, t);
    } else if a.Spurious? {
      SpuriousQuiet(c, s, a.w, t);
    } else if a.Notify? {
      NotifyQuiet(c, s, a.p, t);
    } else {
      ExitQuiet(c, s, t);
    }
  }

  /** Hence runs are bounded: no schedule, fair or not, goes on for more than `Measure` steps. */
  lemma {:induction false} QuietRun(c: Config, s: State, run: seq<Action>, t: State)
    requires Inv(c, s) && Quiet(s) && Leads(Steps(c), s, run, t)
    requires forall a :: a in run ==> !a.Submit?
    ensures Inv(c, t) && Quiet(t) && t.late == s.late && t.policy == s.policy
    ensures |run| + Measure(c, t) <= Measure(c, s)
    decreases |run|
  {
    if run != [] {
      var m :| Steps(c)(s, run[0], m) && Leads(Steps(c), m, run[1..], t);
      assert run[0] in run;
      StepInv(c, s, run[0]);
      QuietStep(c, s, run[0], m);
      QuietRun(c, m, run[1..], t);
    }
  }

  /** And no thread is stuck: until exit has returned, some step other than a spurious wakeup is possible. */
  lemma NeverStuck(c: Config, s: State) returns (a: Action)
    requires Inv(c, s) && Quiet(s) && s.exit != Returned
    ensures Enabled(c, s, a) && !a.Submit? && !a.Spurious?
  {
    LastStopped(c, s);
    if s.exit != Joining || AllDone(s) {
      a := ExitStep;
    } else if p :| 0 <= p < |s.producers| && s.producers[p].Signalling? {
      a := Notify(p);
    } else {
      var w :| 0 <= w < |s.pcs| && s.pcs[w] != Done;
      assert !Pending(s, w) && s.stopped[w];
      a := Work(w, false);
    }
  }

  /** No thread can take a step; producers may submit anew and sleepers may wake without cause. */
  ghost predicate AtRest(c: Config, s: State)
  {
    forall a :: Enabled(c, s, a) ==> a.Submit? || a.Spurious?
  }

  /** Such a state can always be reached: from any quiet state the threads, left alone, come to rest. */
  lemma {:induction false} ComesToRest(c: Config, s: State) returns (run: seq<Action>, t: State)
    requires Inv(c, s) && Quiet(s)
    ensures Leads(Steps(c), s, run, t) && AtRest(c, t) && forall a :: a in run ==> !a.Submit?
    decreases Measure(c, s)
  {
    if AtRest(c, s) {
      run, t := [], s;
    } else {
      var a :| Enabled(c, s, a) && !a.Submit? && !a.Spurious?;
      var m := Apply(c, s, a);
      StepInv(c, s, a);
      QuietStep(c, s, a, m);
      var rest;
      rest, t := ComesToRest(c, m);
      run := [a] + rest;
      assert run[1..] == rest && Steps(c)(s, run[0], m);
    }
  }

  /** A graceful exit, once all queues are stopped and submissions have ceased, returns after a bounded
      number of steps in whatever order the threads take them: a run that has come to rest has ended with
      the workers joined, and where the code drains it has executed exactly what was accepted. */
  lemma ExitReturns(c: Config, s: State, run: seq<Action>, t: State)
    requires Reachable(c, s) && Quiet(s) && Leads(Steps(c), s, run, t)
    requires AtRest(c, t) && forall a :: a in run ==> !a.Submit?
    ensures |s.pcs| == |s.hands| && |run| <= Measure(c, s)
    ensures t.exit == Returned && AllDone(t)
    ensures Drains(c) && s.policy && !s.late ==> t.executed == t.accepted
  {
    ReachableInv(c, s);
    QuietRun(c, s, run, t);
    if t.exit != Returned {
      var a := NeverStuck(c, t);
      assert false;
    }
    if Drains(c) && s.policy && !s.late {
      DrainedAtEnd(c, t);
    }
  }
}

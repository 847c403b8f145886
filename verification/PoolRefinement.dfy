/**
 What a thread of PoolMachine does while no other interferes is what the methods of ThreadPools do: the contracts
 of Append, AppendBulk, PopFrom, Steal, ExecuteTasks and Drain hold of the machine's steps.
 */
module PoolRefinement {
  import opened PoolMachine
  import opened PoolTheorems
  import opened Runs
  import opened ThreadPools
  import opened Words

  /** Only worker `w` takes steps. */
  predicate Alone(run: seq<Action>, w: nat)
  {
    forall a :: a in run ==> a.Work? && a.w == w
  }

  /** Worker `w` alone can take the pool from `s` to `t`. */
  ghost predicate Goes(c: Config, w: nat, s: State, t: State)
  {
    exists run :: Leads(Steps(c), s, run, t) && Alone(run, w)
  }

  lemma GoesNowhere(c: Config, w: nat, s: State)
    ensures Goes(c, w, s, s)
  {
    assert Leads(Steps(c), s, [], s) && Alone([], w);
  }

  lemma GoesOn(c: Config, w: nat, s: State, m: State, t: State)
    requires Goes(c, w, s, m) && Goes(c, w, m, t)
    ensures Goes(c, w, s, t)
  {
    var run :| Leads(Steps(c), s, run, m) && Alone(run, w);
    var more :| Leads(Steps(c), m, more, t) && Alone(more, w);
    Join(Steps(c), s, run, m, more, t);
    assert Alone(run + more, w);
  }

  lemma GoesBy(c: Config, w: nat, s: State, expired: bool, t: State)
    requires Next(c, s, Work(w, expired), t)
    ensures Goes(c, w, s, t)
  {
    var a := Work(w, expired);
    assert Leads(Steps(c), s, [], s) && Steps(c)(s, a, t);
    Extend(Steps(c), s, [], s, a, t);
    assert Alone([] + [a], w);
  }

  lemma GoesOneStep(c: Config, w: nat, s: State, expired: bool, t: State)
    requires Inv(c, s) && w < c.threads && s.pcs[w] != IdleSleep && s.pcs[w] != Done && t == Worked(c, s, w, expired)
    ensures Inv(c, t) && Goes(c, w, s, t)
  {
    StepInv(c, s, Work(w, expired));
    GoesBy(c, w, s, expired, t);
  }

  /** append, emplace and append_bulk: a producer that draws, chooses and pushes without interference, in any state
      in which it may submit, does what ThreadPools.Append and AppendBulk promise. */
  lemma SubmissionIsPlaced(c: Config, s: State, p: nat, sub: Submission) returns (d: State, e: State, t: State, n: nat)
    requires Inv(c, s) && Enabled(c, s, Submit(p, sub))
    ensures Next(c, s, Submit(p, sub), d) && Next(c, d, Choose(p), e) && Next(c, e, Store(p), t)
    ensures t.index == Add32(s.index, 1) && e.producers[p].Chosen?
    ensures Placed(c, s.queues, t.queues, sub, Drawn(c, s.index, 0), e.producers[p].target, n)
    ensures t.accepted == s.accepted + multiset(sub.Tasks()[..n])
    ensures t.producers == s.producers[p := if n > 0 then Signalling(e.producers[p].target) else Free]
    ensures t.pcs == s.pcs && t.hands == s.hands && t.stopped == s.stopped && t.executed == s.executed
  {
    d := Apply(c, s, Submit(p, sub));
    StepInv(c, s, Submit(p, sub));
    e := Apply(c, d, Choose(p));
    StepInv(c, d, Choose(p));
    t := Apply(c, e, Store(p));
    n := Min(|sub.Tasks()|, c.length - |s.queues[e.producers[p].target]|);
  }

  /** popBulk: what a worker takes is what ThreadPools.PopFrom promises. */
  lemma TakeIsProgress(c: Config, s: State, w: nat, q: nat, back: Pc)
    requires w < |s.pcs| == |s.hands| && q < |s.queues|
    ensures var t := Take(c, s, w, q, back);
            Progress(s.queues, t.queues, q, t.hands[w]) && |t.hands[w]| == Min(c.batch, |s.queues[q]|)
  {
  }

  /** What a search of worker `w` that began in `s` ends with, in `t`: it holds a batch of the `j`-th victim, or it
      has passed over all of them and is about to wait.  Nothing else has changed. */
  ghost predicate Searched(c: Config, w: nat, s: State, j: nat, t: State)
  {
    && w < |s.starts| && w < |t.hands| == |t.starts| == |t.pcs| && |s.hands| == |s.pcs| == |s.starts| == |t.hands|
    && Stolen(c, s.queues, t.queues, w, s.starts[w], j, t.hands[w], t.starts[w])
    && t == s.(queues := t.queues, hands := s.hands[w := t.hands[w]], starts := s.starts[w := t.starts[w]],
               pcs := s.pcs[w := if t.hands[w] == [] then TimedWait else Exec(OwnPop)])
  }

  /** Victim `k` yields nothing: the worker goes on to the next one, in one step or in two. */
  lemma VictimSpared(c: Config, s: State, w: nat, k: nat) returns (m: State)
    requires Inv(c, s) && w < c.threads && s.pcs[w] == StealRead(k) && k + 1 < c.threads
    requires Spared(c, s.queues, w, s.starts[w], k)
    ensures m == Goto(s, w, NextVictim(c, k)) && Inv(c, m) && Goes(c, w, s, m)
  {
    m := Goto(s, w, NextVictim(c, k));
    if |s.queues[Victim(c, w, s.starts[w], k)]| >= Threshold(c) {
      var l := Goto(s, w, StealPop(k));
      GoesOneStep(c, w, s, false, l);
      GoesOneStep(c, w, l, false, m);
      GoesOn(c, w, s, l, m);
    } else {
      GoesOneStep(c, w, s, false, m);
    }
  }

  /** Victim `k` is long enough: the worker takes a batch and remembers where. */
  lemma VictimRobbed(c: Config, s: State, w: nat, k: nat) returns (t: State)
    requires Inv(c, s) && w < c.threads && s.pcs[w] == StealRead(k) && k + 1 < c.threads
    requires PassedOver(c, s.queues, w, s.starts[w], k) && !Spared(c, s.queues, w, s.starts[w], k)
    ensures Goes(c, w, s, t) && Searched(c, w, s, k, t)
  {
    var l := Goto(s, w, StealPop(k));
    GoesOneStep(c, w, s, false, l);
    t := StealStep(c, l, w, k);
    GoesOneStep(c, w, l, false, t);
    GoesOn(c, w, s, l, t);
    RobbedIsStolen(c, s, w, k, l, t);
  }

  lemma RobbedIsStolen(c: Config, s: State, w: nat, k: nat, l: State, t: State)
    requires Typed(c, s) && Typed(c, l) && w < c.threads && k + 1 < c.threads && l == Goto(s, w, StealPop(k))
    requires PassedOver(c, s.queues, w, s.starts[w], k) && !Spared(c, s.queues, w, s.starts[w], k)
    requires t == StealStep(c, l, w, k)
    ensures Searched(c, w, s, k, t)
  {
    var v, now := Victim(c, w, s.starts[w], k), Rem(Add32(s.starts[w], k), c.threads - 1);
    TakeIsProgress(c, l.(starts := l.starts[w := now]), w, v, OwnPop);
    StolenAt(c, s.queues, t.queues, w, s.starts[w], k, t.hands[w], now, v);
  }

  /** steal: a worker that looks at its victims one after the other without interference does what
      ThreadPools.Steal promises; `j` is the victim it took from. */
  lemma {:induction false} SearchIsStolen(c: Config, s: State, w: nat, k: nat) returns (t: State, j: nat)
    requires Inv(c, s) && w < c.threads && s.pcs[w] == StealRead(k) && k + 1 < c.threads
    requires PassedOver(c, s.queues, w, s.starts[w], k)
    ensures Goes(c, w, s, t) && Searched(c, w, s, j, t)
    decreases c.threads - k
  {
    if !Spared(c, s.queues, w, s.starts[w], k) {
      t := VictimRobbed(c, s, w, k);
      j := k;
    } else {
      var m := VictimSpared(c, s, w, k);
      OneMorePassed(c, s.queues, w, s.starts[w], k, Victim(c, w, s.starts[w], k));
      if k + 2 < c.threads {
        t, j := SearchIsStolen(c, m, w, k + 1);
        GoesOn(c, w, s, m, t);
      } else {
        t, j := m, k + 1;
        NothingFound(c, s, w, m);
      }
    }
  }

  lemma NothingFound(c: Config, s: State, w: nat, m: State)
    requires Inv(c, s) && w < c.threads && s.pcs[w].StealRead? && m == Goto(s, w, TimedWait)
    requires 1 < c.threads && PassedOver(c, s.queues, w, s.starts[w], c.threads - 1)
    ensures Searched(c, w, s, c.threads - 1, m)
  {
    assert s.hands[w] == [];
    NothingStolen(c, s.queues, w, s.starts[w]);
  }

  /** The state in which worker `w` has executed all tasks in its hand and goes on at `back`. */
  function Executed(s: State, w: nat, back: Pc): State
    requires w < |s.pcs| == |s.hands|
  {
    s.(executed := s.executed + multiset(s.hands[w]), hands := s.hands[w := []], pcs := s.pcs[w := back])
  }

  lemma ExecutedNext(s: State, w: nat, back: Pc)
    requires w < |s.pcs| == |s.hands| && s.hands[w] != [] && s.pcs[w] == Exec(back)
    ensures var m := Execute(s, w, back);
            Executed(s, w, back) == if |s.hands[w]| == 1 then m else Executed(m, w, back)
  {
    var h := s.hands[w];
    assert h == [h[0]] + h[1..];
    assert s.executed + multiset{h[0]} + multiset(h[1..]) == s.executed + multiset(h);
    assert s.hands[w := h[1..]][w := []] == s.hands[w := []];
    assert |h| == 1 ==> h[1..] == [];
  }

  /** execute_tasks: a worker that holds tasks executes all of them, and nothing else changes. */
  lemma {:induction false} ExecutesAll(c: Config, s: State, w: nat, back: Pc)
    requires Inv(c, s) && w < c.threads && s.pcs[w] == Exec(back)
    ensures Goes(c, w, s, Executed(s, w, back)) && Inv(c, Executed(s, w, back))
    decreases |s.hands[w]|
  {
    assert s.hands[w] != [];
    var m := Execute(s, w, back);
    GoesOneStep(c, w, s, false, m);
    ExecutedNext(s, w, back);
    if |s.hands[w]| > 1 {
      ExecutesAll(c, m, w, back);
      GoesOn(c, w, s, m, Executed(m, w, back));
    }
  }

  /** The state in which worker `w` is done, having emptied and executed its queue if the policy says so. */
  function DrainedBy(s: State, w: nat): State
    requires w < |s.pcs| == |s.queues|
  {
    s.(queues := s.queues[w := if s.policy then [] else s.queues[w]],
       executed := s.executed + if s.policy then multiset(s.queues[w]) else multiset{}, pcs := s.pcs[w := Done])
  }

  /** Worker `w` has taken a batch of its own queue and executed it. */
  function Batched(c: Config, s: State, w: nat): State
    requires w < |s.pcs| == |s.queues|
  {
    var n := Min(c.batch, |s.queues[w]|);
    s.(queues := s.queues[w := s.queues[w][n..]], executed := s.executed + multiset(s.queues[w][..n]),
       pcs := s.pcs[w := DrainRead])
  }

  lemma TakenThenExecuted(c: Config, s: State, w: nat)
    requires w < |s.pcs| == |s.queues| == |s.hands| && s.hands[w] == []
    ensures Executed(Take(c, s, w, w, DrainRead), w, DrainRead) == Batched(c, s, w)
  {
    var n := Min(c.batch, |s.queues[w]|);
    assert s.hands[w := s.queues[w][..n]][w := []] == s.hands;
    assert s.pcs[w := Exec(DrainRead)][w := DrainRead] == s.pcs[w := DrainRead];
  }

  lemma DrainsBatch(c: Config, s: State, w: nat)
    requires Inv(c, s) && w < c.threads && s.pcs[w] == DrainPop && s.queues[w] != []
    ensures Goes(c, w, s, Batched(c, s, w)) && Inv(c, Batched(c, s, w))
  {
    var l := Take(c, s, w, w, DrainRead);
    GoesOneStep(c, w, s, false, l);
    ExecutesAll(c, l, w, DrainRead);
    TakenThenExecuted(c, s, w);
    GoesOn(c, w, s, l, Batched(c, s, w));
  }

  /** Nothing to drain. */
  lemma DrainsEmpty(c: Config, s: State, w: nat)
    requires Inv(c, s) && w < c.threads && s.pcs[w] == DrainRead && (s.policy ==> s.queues[w] == [])
    ensures Goes(c, w, s, DrainedBy(s, w))
  {
    var l := Goto(s, w, if s.policy then DrainPop else Done);
    GoesOneStep(c, w, s, false, l);
    if s.policy {
      GoesOneStep(c, w, l, false, Goto(l, w, Done));
      GoesOn(c, w, s, l, Goto(l, w, Done));
      EmptyDrained(s, w);
    } else {
      EmptyDrained(s, w);
    }
  }

  lemma EmptyDrained(s: State, w: nat)
    requires w < |s.pcs| == |s.queues| && (s.policy ==> s.queues[w] == [])
    ensures DrainedBy(s, w) == Goto(s, w, Done) == Goto(Goto(s, w, DrainPop), w, Done)
  {
    assert s.queues[w := s.queues[w]] == s.queues;
    assert s.pcs[w := DrainPop][w := Done] == s.pcs[w := Done];
  }

  lemma DrainsFirst(c: Config, s: State, w: nat) returns (m: State)
    requires Inv(c, s) && w < c.threads && s.pcs[w] == DrainRead && s.policy && s.queues[w] != []
    ensures m == Batched(c, s, w) && Goes(c, w, s, m) && Inv(c, m)
  {
    var l := Goto(s, w, DrainPop);
    GoesOneStep(c, w, s, false, l);
    DrainsBatch(c, l, w);
    m := Batched(c, l, w);
    GoesOn(c, w, s, l, m);
    SameBatch(c, s, w);
  }

  lemma SameBatch(c: Config, s: State, w: nat)
    requires w < |s.pcs| == |s.queues|
    ensures Batched(c, Goto(s, w, DrainPop), w) == Batched(c, s, w)
  {
    assert s.pcs[w := DrainPop][w := DrainRead] == s.pcs[w := DrainRead];
  }

  /** The loop behind the main loop: a worker that gets to it and is not disturbed does what ThreadPools.Drain
      promises, and is done. */
  lemma {:induction false} DrainsAlone(c: Config, s: State, w: nat)
    requires Inv(c, s) && w < c.threads && s.pcs[w] == DrainRead
    ensures Goes(c, w, s, DrainedBy(s, w))
    decreases |s.queues[w]|
  {
    if s.policy && s.queues[w] != [] {
      var m := DrainsFirst(c, s, w);
      DrainsAlone(c, m, w);
      DrainedLater(c, s, w);
      GoesOn(c, w, s, m, DrainedBy(s, w));
    } else {
      DrainsEmpty(c, s, w);
    }
  }

  lemma DrainedLater(c: Config, s: State, w: nat)
    requires w < |s.pcs| == |s.queues| && s.policy
    ensures DrainedBy(Batched(c, s, w), w) == DrainedBy(s, w)
  {
    var n, q := Min(c.batch, |s.queues[w]|), s.queues[w];
    assert q == q[..n] + q[n..];
    assert s.executed + multiset(q[..n]) + multiset(q[n..]) == s.executed + multiset(q);
    assert s.queues[w := q[n..]][w := []] == s.queues[w := []];
    assert s.pcs[w := DrainRead][w := Done] == s.pcs[w := Done];
  }
}

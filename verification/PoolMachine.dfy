/**
 ThreadPool: producers, workers and the exiting thread as one state machine.  Every critical section
 of a queue's mutex, every unlocked read of `size` or `isStopped`, every notification and every task
 execution is a step of its own, and steps of different threads interleave in any order.
 */
module PoolMachine {
  import opened Bags
  import opened Words
  import opened BlockQueue

  type Task = nat

  /** The arguments of init: worker threads, capacity of each queue, tasks a worker takes at once. */
  datatype Config = Config(threads: nat, length: nat, batch: nat)

  /** What init accepts. */
  predicate Configured(c: Config)
  {
    0 < c.threads < TWO_32 && 0 < c.batch <= c.length < TWO_32
  }

  /** The size from which a worker steals from another queue. */
  function Threshold(c: Config): nat
    requires Configured(c)
  {
    Min(Rem(Times(c.batch, c.threads - 1), TWO_32), c.length)
  }

  /** A batch for each of the other workers, in 32 bits, and no more than a queue can hold. */
  lemma ThresholdIs(c: Config)
    requires Configured(c)
    ensures Threshold(c) == Min((c.batch * (c.threads - 1)) % TWO_32, c.length)
  {
    TimesIsProduct(c.batch, c.threads - 1);
    RemIsMod(Times(c.batch, c.threads - 1), TWO_32);
  }

  /** Whether a worker empties its queue once more after it has seen the stop flag.  process_single
      with several workers does not: it returns straight away. */
  predicate Drains(c: Config)
  {
    c.batch > 1 || c.threads == 1
  }

  /** Where a worker is. */
  datatype Pc =
    | OwnPop            // about to popBulk its own queue
    | StealRead(k: nat) // about to read the size of its k-th victim
    | StealPop(k: nat)  // about to popBulk that victim
    | TimedWait         // in the timed wait_popBulk, about to look at its predicate
    | TimedSleep        // asleep in it
    | ReadStopped       // about to read isStopped
    | IdleWait          // sole worker: in the untimed wait_popBulk, about to look at its predicate
    | IdleSleep         // asleep in it, until it is notified
    | DrainRead         // about to read the shutdown policy
    | DrainPop          // about to popBulk its own queue for the last time, unless that succeeds
    | Exec(back: Pc)    // executing the tasks in its hand, then going back
    | Done

  /** What a producer submits: one task with push or emplace, or several with pushBulk. */
  datatype Submission = One(task: Task) | Bulk(tasks: seq<Task>)
  {
    function Tasks(): seq<Task> { if One? then [task] else tasks }
  }

  /** Where a producer is. */
  datatype Producer =
    | Free
    | Indexed(sub: Submission, at: nat)   // has drawn a queue index
    | Chosen(sub: Submission, target: nat) // has read that queue's size and settled on a queue
    | Signalling(target: nat)             // has pushed and released the mutex, not yet notified

  /** Where the thread that calls exit is. */
  datatype Exiting = Running | StopAt(i: nat) | NotifyAt(i: nat) | Joining | Returned

  datatype State = State(
    queues: seq<seq<Task>>,
    stopped: seq<bool>,
    pcs: seq<Pc>,
    hands: seq<seq<Task>>,    // tasks a worker has taken out and not yet executed
    starts: seq<nat>,         // Stealer.index
    producers: seq<Producer>,
    exit: Exiting,
    policy: bool,             // shutdownPolicy
    index: nat,               // round-robin counter
    accepted: multiset<Task>, // every task a push has taken
    executed: multiset<Task>, // every task a worker has executed
    late: bool)               // some push landed in a queue that was already stopped

  /** `Work`: one step of a worker (`expired`: its timed wait is over).  `Spurious`: a sleeper wakes
      without being notified.  The others are the steps of producer `p` and of the exiting thread. */
  datatype Action =
    | Work(w: nat, expired: bool) | Spurious(w: nat)
    | Submit(p: nat, sub: Submission) | Choose(p: nat) | Store(p: nat) | Notify(p: nat)
    | ExitBegin(graceful: bool) | ExitStep

  function Start(c: Config): Pc
  {
    if c.threads == 1 then IdleWait else OwnPop
  }

  /** The state after init.  The round-robin counter is never initialised, so it starts anywhere. */
  function Init(c: Config, producers: nat, index: nat): State
  {
    State(seq(c.threads, _ => []), seq(c.threads, _ => false), seq(c.threads, _ => Start(c)),
          seq(c.threads, _ => []), seq(c.threads, _ => 0), seq(producers, _ => Free),
          Running, true, index, multiset{}, multiset{}, false)
  }

  /** The queue of worker `w`'s `k`-th victim when its search starts at `start`. */
  function Victim(c: Config, w: nat, start: nat, k: nat): (q: nat)
    requires 1 < c.threads && start < TWO_32 && k < TWO_32
    ensures q < c.threads && q != w
  {
    var now := Rem(Add32(start, k), c.threads - 1);
    if now < w then now else now + 1
  }

  /** Searching from `start`, worker `w` comes by queue `q`. */
  ghost predicate Finds(c: Config, w: nat, start: nat, q: nat)
    requires 1 < c.threads <= TWO_32 && start < TWO_32
  {
    exists k: nat :: k + 1 < c.threads && Victim(c, w, start, k) == q
  }

  /** Wherever it starts, every worker's search comes by the queues of all the others. */
  ghost predicate SearchCovers(c: Config)
    requires Configured(c) && 1 < c.threads
  {
    forall w: nat, start: nat, q: nat {:trigger Finds(c, w, start, q)} ::
      w < c.threads && start + 1 < c.threads && q < c.threads && q != w ==> Finds(c, w, start, q)
  }

  lemma FindsOther(c: Config, w: nat, start: nat, q: nat)
    requires Configured(c) && 1 < c.threads <= TWO_31 + 1
    requires w < c.threads && start + 1 < c.threads && q < c.threads && q != w
    ensures Finds(c, w, start, q)
  {
    var total, now := c.threads - 1, if q < w then q else q - 1;
    var k := if start <= now then now - start else now + total - start;
    RemIsMod(start + k, total);
    if start <= now {
      ModSmall(now, total);
    } else {
      ModOnce(now + total, total);
    }
    assert Victim(c, w, start, k) == q;
  }

  /** The search covers all other queues exactly as long as the sum of two positions fits in 32 bits. */
  lemma SearchCoversIff(c: Config)
    requires Configured(c) && 1 < c.threads
    ensures SearchCovers(c) <==> c.threads <= TWO_31 + 1
  {
    if c.threads <= TWO_31 + 1 {
      forall w: nat, start: nat, q: nat | w < c.threads && start + 1 < c.threads && q < c.threads && q != w
        ensures Finds(c, w, start, q)
      {
        FindsOther(c, w, start, q);
      }
    } else {
      NeverFound(c);
    }
  }

  /** With more threads, a search by the last worker from the last position never comes by the queue before its own. */
  lemma NeverFound(c: Config)
    requires Configured(c) && TWO_31 + 1 < c.threads
    ensures !Finds(c, c.threads - 1, c.threads - 2, c.threads - 3)
  {
    if Finds(c, c.threads - 1, c.threads - 2, c.threads - 3) {
      var k: nat :| k + 1 < c.threads && Victim(c, c.threads - 1, c.threads - 2, k) == c.threads - 3;
      PassesOver(c, k);
    }
  }

  lemma PassesOver(c: Config, k: nat)
    requires Configured(c) && TWO_31 + 1 < c.threads && k + 1 < c.threads
    ensures Victim(c, c.threads - 1, c.threads - 2, k) != c.threads - 3
  {
    var total := c.threads - 1;
    RemIsMod(Add32(total - 1, k), total);
    if k == 0 {
      ModSmall(total - 1, total);
    } else if total - 1 + k < TWO_32 {
      ModOnce(total - 1 + k, total);
    } else {
      ModSmall(total - 1 + k - TWO_32, total);
    }
  }

  /** The victims are the other queues in their order, from the `start`-th of them round and round. */
  lemma VictimIs(c: Config, w: nat, start: nat, k: nat)
    requires 1 < c.threads && start < TWO_32 && k < TWO_32
    ensures var q, now := Victim(c, w, start, k), ((start + k) % TWO_32) % (c.threads - 1);
            now == if q < w then q else q - 1
  {
    Add32IsMod(start, k);
    RemIsMod(Add32(start, k), c.threads - 1);
  }

  /** The next search of a worker begins with the victim that it last took from. */
  lemma BeginsWithLast(c: Config, w: nat, start: nat, k: nat)
    requires 1 < c.threads < TWO_32 && start < TWO_32 && k < TWO_32
    ensures Victim(c, w, Rem(Add32(start, k), c.threads - 1), 0) == Victim(c, w, start, k)
  {
  }

  /** The queue that the `i`-th draw from now on yields, when the counter stands at `index`. */
  function Drawn(c: Config, index: nat, i: nat): (q: nat)
    requires Configured(c) && index < TWO_32 && i < TWO_32
    ensures q < c.threads
  {
    Rem(Add32(index, i), c.threads)
  }

  /** The draws are the counter's successive values, modulo the number of queues. */
  lemma DrawnIs(c: Config, index: nat, i: nat)
    requires Configured(c) && index < TWO_32 && i < TWO_32
    ensures Drawn(c, index, i) == ((index + i) % TWO_32) % c.threads
  {
    Add32IsMod(index, i);
    RemIsMod(Add32(index, i), c.threads);
  }

  /** As many draws as there are queues never yield the same queue twice. */
  ghost predicate FairDraws(c: Config, index: nat)
    requires Configured(c) && index < TWO_32
  {
    forall i, j {:trigger Drawn(c, index, i), Drawn(c, index, j)} ::
      0 <= i < j < c.threads ==> Drawn(c, index, i) != Drawn(c, index, j)
  }

  /** The round robin gives every queue its turn, except when the counter wraps and the number of queues does
      not divide 2^32. */
  lemma RoundRobinFairIff(c: Config, index: nat)
    requires Configured(c) && index < TWO_32
    ensures FairDraws(c, index) <==> index + c.threads <= TWO_32 || TWO_32 % c.threads == 0
  {
    RemIsMod(TWO_32, c.threads);
    if index + c.threads <= TWO_32 || Rem(TWO_32, c.threads) == 0 {
      forall i, j | 0 <= i < j < c.threads ensures Drawn(c, index, i) != Drawn(c, index, j) {
        DrawnIsSum(c, index, i);
        DrawnIsSum(c, index, j);
        RemDistinct(index + i, index + j, c.threads);
      }
    } else {
      var i, j := DrawnTwice(c, index);
    }
  }

  lemma DrawnIsSum(c: Config, index: nat, i: nat)
    requires Configured(c) && index < TWO_32 && i < c.threads
    requires index + c.threads <= TWO_32 || Rem(TWO_32, c.threads) == 0
    ensures Drawn(c, index, i) == Rem(index + i, c.threads)
  {
    if index + i >= TWO_32 {
      RemShift(index + i, TWO_32, c.threads);
    }
  }

  lemma DrawnTwice(c: Config, index: nat) returns (i: nat, j: nat)
    requires Configured(c) && index < TWO_32 < index + c.threads && Rem(TWO_32, c.threads) != 0
    ensures i < j < c.threads && Drawn(c, index, i) == Drawn(c, index, j)
  {
    var m, d := TWO_32 - index, Rem(TWO_32, c.threads);
    if m <= d {
      i, j := 0, d;
      RemLess(TWO_32, m, c.threads);
    } else {
      i, j := m - d, m;
      RemLess(TWO_32, d, c.threads);
    }
  }

  /** A pc that the code can reach with this configuration. */
  predicate PcOk(c: Config, pc: Pc)
  {
    match pc
    case OwnPop | TimedWait | TimedSleep | ReadStopped => c.threads > 1
    case StealRead(k) => k + 1 < c.threads
    case StealPop(k) => k + 1 < c.threads
    case IdleWait | IdleSleep => c.threads == 1
    case Exec(back) => back == Start(c) || back == DrainRead
    case DrainRead | DrainPop | Done => true
  }

  predicate ProducerOk(c: Config, p: Producer)
  {
    match p
    case Free => true
    case Indexed(sub, at) => at < c.threads && |sub.Tasks()| <= c.length
    case Chosen(sub, target) => target < c.threads && |sub.Tasks()| <= c.length
    case Signalling(target) => target < c.threads
  }

  predicate ExitOk(c: Config, e: Exiting)
  {
    match e
    case StopAt(i) => i < c.threads
    case NotifyAt(i) => i < c.threads
    case _ => true
  }

  /** Whether the exiting thread has already stopped queue `q`. */
  predicate Passed(e: Exiting, q: nat)
  {
    match e
    case Running => false
    case StopAt(i) => q < i
    case NotifyAt(i) => q <= i
    case Joining | Returned => true
  }

  ghost predicate Typed(c: Config, s: State)
  {
    && Configured(c)
    && |s.queues| == |s.stopped| == |s.pcs| == |s.hands| == |s.starts| == c.threads
    && s.index < TWO_32 && ExitOk(c, s.exit) && (s.exit == Running ==> s.policy)
    && (forall w :: 0 <= w < c.threads ==> PcOk(c, s.pcs[w]))
    && (forall w :: 0 <= w < c.threads ==> s.starts[w] < TWO_32 && (c.threads > 1 ==> s.starts[w] < c.threads - 1))
    && (forall p :: 0 <= p < |s.producers| ==> ProducerOk(c, s.producers[p]))
  }

  ghost predicate Bounded(c: Config, s: State)
    requires Typed(c, s)
  {
    && (forall q :: 0 <= q < c.threads ==> |s.queues[q]| <= c.length)
    && (forall w :: 0 <= w < c.threads ==> |s.hands[w]| <= c.batch && (s.hands[w] == [] <==> !s.pcs[w].Exec?))
    && (forall q :: 0 <= q < c.threads ==> (s.stopped[q] <==> Passed(s.exit, q)))
  }

  /** Every task that was accepted is in exactly one place: a queue, a hand, or the executed log. */
  ghost predicate Conserved(s: State)
  {
    s.accepted == Bag(s.queues) + Bag(s.hands) + s.executed
  }

  /** Whether a worker has left its main loop because its queue was stopped. */
  predicate Draining(pc: Pc)
  {
    pc == DrainRead || pc == DrainPop || pc == Exec(DrainRead) || pc == Done
  }

  /** A worker leaves its main loop only when its queue is stopped; and where the code drains, a worker
      that has finished after a graceful exit left nothing behind that was pushed before the stop. */
  ghost predicate Drained(c: Config, s: State)
    requires Typed(c, s)
  {
    && (forall w :: 0 <= w < c.threads && Draining(s.pcs[w]) ==> s.stopped[w])
    && (Drains(c) && s.policy && !s.late ==>
          forall w :: 0 <= w < c.threads && s.pcs[w] == Done ==> s.queues[w] == [])
  }

  /** Somebody has changed queue `q` under its mutex and has yet to notify. */
  ghost predicate Pending(s: State, q: nat)
  {
    s.exit == NotifyAt(q) || exists p :: 0 <= p < |s.producers| && s.producers[p] == Signalling(q)
  }

  /** No lost wakeup: a worker sleeps only while its queue is empty and running, or a notification is due. */
  ghost predicate Wakeful(c: Config, s: State)
    requires Typed(c, s)
  {
    forall w :: 0 <= w < c.threads && (s.pcs[w] == IdleSleep || s.pcs[w] == TimedSleep) ==>
      (s.queues[w] == [] && !s.stopped[w]) || Pending(s, w)
  }

  predicate AllDone(s: State)
  {
    forall w :: 0 <= w < |s.pcs| ==> s.pcs[w] == Done
  }

  /** exit returns only after all workers have been joined. */
  predicate Joined(s: State)
  {
    s.exit == Returned ==> AllDone(s)
  }

  ghost predicate Inv(c: Config, s: State)
  {
    Typed(c, s) && Bounded(c, s) && Conserved(s) && Drained(c, s) && Wakeful(c, s) && Joined(s)
  }

  function Goto(s: State, w: nat, pc: Pc): State
    requires w < |s.pcs|
  {
    s.(pcs := s.pcs[w := pc])
  }

  /** Worker `w` moves up to a batch of queue `q` into its hand and goes on to execute it. */
  function Take(c: Config, s: State, w: nat, q: nat, back: Pc): State
    requires w < |s.pcs| == |s.hands| && q < |s.queues|
  {
    var n := Min(c.batch, |s.queues[q]|);
    s.(queues := s.queues[q := s.queues[q][n..]], hands := s.hands[w := s.queues[q][..n]],
       pcs := s.pcs[w := Exec(back)])
  }

  /** popBulk: on an empty queue the worker goes to `otherwise`. */
  function TakeOr(c: Config, s: State, w: nat, q: nat, back: Pc, otherwise: Pc): State
    requires w < |s.pcs| == |s.hands| && q < |s.queues|
  {
    if s.queues[q] == [] then Goto(s, w, otherwise) else Take(c, s, w, q, back)
  }

  /** What a worker does after victim `k` yielded nothing. */
  function NextVictim(c: Config, k: nat): Pc
  {
    if k + 2 < c.threads then StealRead(k + 1) else TimedWait
  }

  /** Worker `w` looks at the predicate of its timed wait. */
  function LookTimed(c: Config, s: State, w: nat, expired: bool): State
    requires w < |s.pcs| == |s.hands| == |s.queues| == |s.stopped|
  {
    if s.queues[w] == [] && !s.stopped[w] && !expired then Goto(s, w, TimedSleep)
    else TakeOr(c, s, w, w, OwnPop, ReadStopped)
  }

  /** Worker `w` executes the first task in its hand. */
  function Execute(s: State, w: nat, back: Pc): State
    requires w < |s.pcs| == |s.hands| && s.hands[w] != []
  {
    var h := s.hands[w];
    s.(executed := s.executed + multiset{h[0]}, hands := s.hands[w := h[1..]],
       pcs := if |h| == 1 then s.pcs[w := back] else s.pcs)
  }

  function StealStep(c: Config, s: State, w: nat, k: nat): State
    requires Typed(c, s) && w < c.threads && k + 1 < c.threads
  {
    var v := Victim(c, w, s.starts[w], k);
    if s.queues[v] == [] then Goto(s, w, NextVictim(c, k))
    else Take(c, s.(starts := s.starts[w := Rem(Add32(s.starts[w], k), c.threads - 1)]), w, v, OwnPop)
  }

  /** One step of worker `w`. */
  function Worked(c: Config, s: State, w: nat, expired: bool): State
    requires Typed(c, s) && Bounded(c, s) && w < c.threads
  {
    match s.pcs[w]
    case OwnPop => TakeOr(c, s, w, w, OwnPop, StealRead(0))
    case StealRead(k) =>
      if |s.queues[Victim(c, w, s.starts[w], k)]| >= Threshold(c) then Goto(s, w, StealPop(k))
      else Goto(s, w, NextVictim(c, k))
    case StealPop(k) => StealStep(c, s, w, k)
    case TimedWait => LookTimed(c, s, w, expired)
    case TimedSleep => LookTimed(c, s, w, true)
    case ReadStopped =>
      Goto(s, w, if !s.stopped[w] then OwnPop else if c.batch == 1 then Done else DrainRead)
    case IdleWait =>
      if s.queues[w] == [] && !s.stopped[w] then Goto(s, w, IdleSleep)
      else TakeOr(c, s, w, w, IdleWait, DrainRead)
    case DrainRead => Goto(s, w, if s.policy then DrainPop else Done)
    case DrainPop => TakeOr(c, s, w, w, DrainRead, Done)
    case Exec(back) => Execute(s, w, back)
    case IdleSleep => s
    case Done => s
  }

  /** A notification of queue `q`: only its owner ever waits on it, so waking one is waking all. */
  function Woken(s: State, q: nat): State
    requires q < |s.pcs|
  {
    if s.pcs[q] == IdleSleep then Goto(s, q, IdleWait)
    else if s.pcs[q] == TimedSleep then Goto(s, q, TimedWait)
    else s
  }

  function Produced(s: State, p: nat, at: Producer): State
    requires p < |s.producers|
  {
    s.(producers := s.producers[p := at])
  }

  /** What a producer asks of the queue it has drawn, which holds `size` tasks. */
  predicate Roomy(c: Config, size: nat, sub: Submission)
    requires Configured(c) && size <= c.length && |sub.Tasks()| <= c.length
  {
    if sub.One? then size < c.length else Add32(size, |sub.tasks| / 2) <= c.length
  }

  /** The queue a producer settles on after reading that the one it drew, `at`, holds `size` tasks. */
  function Target(c: Config, size: nat, sub: Submission, at: nat): (t: nat)
    requires Configured(c) && size <= c.length && at < c.threads && |sub.Tasks()| <= c.length
    ensures t < c.threads
  {
    if Roomy(c, size, sub) then at else Rem(Add32(at, c.threads / 2), c.threads)
  }

  /** A producer stays with the queue it drew exactly when that would take the task, or half of the tasks; or
      when it is the only one, or so long that the 32-bit sum wraps. */
  lemma TargetMovesIff(c: Config, size: nat, sub: Submission, at: nat)
    requires Configured(c) && size <= c.length && at < c.threads && |sub.Tasks()| <= c.length
    ensures var count := |sub.Tasks()|;
            Target(c, size, sub, at) == at <==>
            || c.threads == 1 || size + count / 2 >= TWO_32
            || Min(count, c.length - size) >= if sub.One? then 1 else count / 2
    ensures Target(c, size, sub, at) != at ==>
              Target(c, size, sub, at) == ((at + c.threads / 2) % TWO_32) % c.threads
  {
    HalfWayRound(c, at);
    Add32IsMod(at, c.threads / 2);
    RemIsMod(Add32(at, c.threads / 2), c.threads);
  }

  lemma HalfWayRound(c: Config, at: nat)
    requires Configured(c) && at < c.threads
    ensures Rem(Add32(at, c.threads / 2), c.threads) == at <==> c.threads == 1
  {
    var x, n := Add32(at, c.threads / 2), c.threads;
    RemIsMod(x, n);
    if x < n {
      ModSmall(x, n);
    } else {
      ModOnce(x, n);
    }
  }

  /** The push itself, under the mutex of queue `t`. */
  function Stored(c: Config, s: State, p: nat, xs: seq<Task>, t: nat): State
    requires Typed(c, s) && Bounded(c, s) && p < |s.producers| && t < c.threads
  {
    var n := Min(|xs|, c.length - |s.queues[t]|);
    s.(queues := s.queues[t := PushUpTo(s.queues[t], xs, c.length)],
       accepted := s.accepted + multiset(xs[..n]),
       late := s.late || (n > 0 && s.stopped[t]),
       producers := s.producers[p := if n > 0 then Signalling(t) else Free])
  }

  predicate Enabled(c: Config, s: State, a: Action)
  {
    match a
    case Work(w, _) => w < |s.pcs| && s.pcs[w] != IdleSleep && s.pcs[w] != Done
    case Spurious(w) => w < |s.pcs| && (s.pcs[w] == IdleSleep || s.pcs[w] == TimedSleep)
    case Submit(p, sub) =>
      s.exit != Returned && p < |s.producers| && s.producers[p] == Free && |sub.Tasks()| <= c.length
    case Choose(p) => s.exit != Returned && p < |s.producers| && s.producers[p].Indexed?
    case Store(p) => s.exit != Returned && p < |s.producers| && s.producers[p].Chosen?
    case Notify(p) => p < |s.producers| && s.producers[p].Signalling?
    case ExitBegin(_) => s.exit == Running
    case ExitStep => s.exit.StopAt? || s.exit.NotifyAt? || (s.exit == Joining && AllDone(s))
  }

  /** stopWait on queue `i`: the flag goes up under the mutex. */
  function StopQueue(s: State, i: nat): State
    requires i < |s.stopped|
  {
    s.(stopped := s.stopped[i := true], exit := NotifyAt(i))
  }

  /** The end of stopWait on queue `i`, whose waiters have been notified. */
  function AfterNotify(c: Config, s: State, i: nat): State
  {
    s.(exit := if i + 1 < c.threads then StopAt(i + 1) else Joining)
  }

  /** One step of the thread that calls exit. */
  function Exited(c: Config, s: State): State
    requires Typed(c, s)
  {
    match s.exit
    case StopAt(i) => StopQueue(s, i)
    case NotifyAt(i) => AfterNotify(c, Woken(s, i), i)
    case Joining => s.(exit := Returned)
    case _ => s
  }

  function Apply(c: Config, s: State, a: Action): State
    requires Typed(c, s) && Bounded(c, s) && Enabled(c, s, a)
  {
    match a
    case Work(w, expired) => Worked(c, s, w, expired)
    case Spurious(w) => Woken(s, w)
    case Submit(p, sub) =>
      Produced(s, p, Indexed(sub, Drawn(c, s.index, 0))).(index := Add32(s.index, 1))
    case Choose(p) =>
      var i := s.producers[p];
      Produced(s, p, Chosen(i.sub, Target(c, |s.queues[i.at]|, i.sub, i.at)))
    case Store(p) => Stored(c, s, p, s.producers[p].sub.Tasks(), s.producers[p].target)
    case Notify(p) => Produced(Woken(s, s.producers[p].target), p, Free)
    case ExitBegin(graceful) => s.(exit := StopAt(0), policy := graceful)
    case ExitStep => Exited(c, s)
  }

  lemma InitInv(c: Config, producers: nat, index: nat)
    requires Configured(c) && index < TWO_32
    ensures Inv(c, Init(c, producers, index))
    ensures var s := Init(c, producers, index);
            && s.exit == Running && s.policy && !s.late && s.accepted == s.executed == multiset{} && s.index == index
            && (forall p :: 0 <= p < |s.producers| ==> s.producers[p] == Free)
            && forall w :: 0 <= w < c.threads ==>
                 && s.queues[w] == [] && !s.stopped[w] && s.hands[w] == [] && s.starts[w] == 0
                 && s.pcs[w] == if c.threads == 1 then IdleWait else OwnPop
  {
    var s := Init(c, producers, index);
    BagEmpty(s.queues);
    BagEmpty(s.hands);
  }

  predicate Asleep(pc: Pc)
  {
    pc == IdleSleep || pc == TimedSleep
  }

  /** A worker that holds nothing moves to `pc`. */
  lemma GotoInv(c: Config, s: State, w: nat, pc: Pc)
    requires Inv(c, s) && w < c.threads && !s.pcs[w].Exec? && s.pcs[w] != Done && !pc.Exec? && PcOk(c, pc)
    requires Draining(pc) ==> s.stopped[w]
    requires pc == Done && Drains(c) && s.policy && !s.late ==> s.queues[w] == []
    requires Asleep(pc) ==> s.queues[w] == [] && !s.stopped[w]
    ensures Inv(c, Goto(s, w, pc))
  {
    var t := Goto(s, w, pc);
    forall v | 0 <= v < c.threads && Asleep(t.pcs[v])
      ensures (t.queues[v] == [] && !t.stopped[v]) || Pending(t, v)
    {
      if v != w && Pending(s, v) {
        assert Pending(t, v);
      }
    }
  }

  lemma TakeConserved(c: Config, s: State, w: nat, q: nat, back: Pc)
    requires Conserved(s) && w < |s.pcs| == |s.hands| && q < |s.queues| && s.hands[w] == []
    ensures Conserved(Take(c, s, w, q, back))
    ensures Bag(s.queues) == Bag(Take(c, s, w, q, back).queues) + multiset(Take(c, s, w, q, back).hands[w])
  {
    var n := Min(c.batch, |s.queues[q]|);
    var xs, rest := s.queues[q][..n], s.queues[q][n..];
    assert s.queues[q] == xs + rest;
    BagTake(s.queues, q, xs, rest);
    assert s.hands[w] + xs == xs;
    BagPut(s.hands, w, xs);
    Regroup(Bag(s.queues[q := rest]), multiset(xs), Bag(s.hands), s.executed);
  }

  lemma Regroup(a: multiset<Task>, x: multiset<Task>, b: multiset<Task>, e: multiset<Task>)
    ensures a + x + b + e == a + (b + x) + e && a + (b + x) + e == a + b + (e + x)
  {
  }

  lemma TakeWakeful(c: Config, s: State, w: nat, q: nat, back: Pc)
    requires Typed(c, s) && Wakeful(c, s) && w < c.threads && q < c.threads && s.queues[q] != []
    requires Typed(c, Take(c, s, w, q, back))
    ensures Wakeful(c, Take(c, s, w, q, back))
  {
    var t := Take(c, s, w, q, back);
    forall v | 0 <= v < c.threads && Asleep(t.pcs[v])
      ensures (t.queues[v] == [] && !t.stopped[v]) || Pending(t, v)
    {
      if Pending(s, v) {
        assert Pending(t, v);
      }
    }
  }

  lemma TakeTyped(c: Config, s: State, w: nat, q: nat, back: Pc)
    requires Typed(c, s) && Bounded(c, s) && w < c.threads && q < c.threads && s.queues[q] != []
    requires back == Start(c) || back == DrainRead
    ensures Typed(c, Take(c, s, w, q, back)) && Bounded(c, Take(c, s, w, q, back))
  {
  }

  lemma TakeDrained(c: Config, s: State, w: nat, q: nat, back: Pc)
    requires Typed(c, s) && Drained(c, s) && Joined(s) && w < c.threads && q < c.threads && s.queues[q] != []
    requires s.pcs[w] != Done && (back == Start(c) || (back == DrainRead && s.stopped[w]))
    requires Typed(c, Take(c, s, w, q, back))
    ensures Drained(c, Take(c, s, w, q, back)) && Joined(Take(c, s, w, q, back))
  {
  }

  /** A worker that holds nothing takes from a queue that holds something. */
  lemma TakeInv(c: Config, s: State, w: nat, q: nat, back: Pc)
    requires Inv(c, s) && w < c.threads && q < c.threads
    requires !s.pcs[w].Exec? && s.pcs[w] != Done && s.queues[q] != []
    requires back == Start(c) || (back == DrainRead && s.stopped[w])
    ensures Inv(c, Take(c, s, w, q, back))
  {
    TakeTyped(c, s, w, q, back);
    TakeConserved(c, s, w, q, back);
    TakeDrained(c, s, w, q, back);
    TakeWakeful(c, s, w, q, back);
  }

  lemma ExecuteConserved(s: State, w: nat, back: Pc)
    requires Conserved(s) && w < |s.pcs| == |s.hands| && s.hands[w] != []
    ensures Conserved(Execute(s, w, back))
  {
    var h := s.hands[w];
    assert h == [h[0]] + h[1..];
    BagTake(s.hands, w, [h[0]], h[1..]);
    Regroup(Bag(s.queues), multiset{h[0]}, Bag(s.hands[w := h[1..]]), s.executed);
  }

  lemma ExecuteWakeful(c: Config, s: State, w: nat, back: Pc)
    requires Typed(c, s) && Wakeful(c, s) && w < c.threads && s.hands[w] != []
    requires back == Start(c) || back == DrainRead
    ensures Typed(c, Execute(s, w, back)) && Wakeful(c, Execute(s, w, back))
  {
    var t := Execute(s, w, back);
    forall v | 0 <= v < c.threads && Asleep(t.pcs[v])
      ensures (t.queues[v] == [] && !t.stopped[v]) || Pending(t, v)
    {
      if Pending(s, v) {
        assert Pending(t, v);
      }
    }
  }

  lemma ExecuteBounded(c: Config, s: State, w: nat, back: Pc)
    requires Typed(c, s) && Bounded(c, s) && w < c.threads && s.pcs[w] == Exec(back)
    requires Typed(c, Execute(s, w, back))
    ensures Bounded(c, Execute(s, w, back))
  {
    assert PcOk(c, s.pcs[w]);
  }

  lemma ExecuteDrained(c: Config, s: State, w: nat, back: Pc)
    requires Typed(c, s) && Drained(c, s) && Joined(s) && w < c.threads && s.pcs[w] == Exec(back) && s.hands[w] != []
    requires Typed(c, Execute(s, w, back))
    ensures Drained(c, Execute(s, w, back)) && Joined(Execute(s, w, back))
  {
    assert PcOk(c, s.pcs[w]);
  }

  lemma ExecuteInv(c: Config, s: State, w: nat, back: Pc)
    requires Inv(c, s) && w < c.threads && s.pcs[w] == Exec(back)
    ensures Inv(c, Execute(s, w, back))
  {
    assert PcOk(c, s.pcs[w]);
    ExecuteConserved(s, w, back);
    ExecuteWakeful(c, s, w, back);
    ExecuteBounded(c, s, w, back);
    ExecuteDrained(c, s, w, back);
  }

  lemma TakeOrInv(c: Config, s: State, w: nat, q: nat, back: Pc, otherwise: Pc)
    requires Inv(c, s) && w < c.threads && q < c.threads && !s.pcs[w].Exec? && s.pcs[w] != Done
    requires back == Start(c) || (back == DrainRead && s.stopped[w])
    requires !otherwise.Exec? && !Asleep(otherwise) && PcOk(c, otherwise)
    requires s.queues[q] == [] && Draining(otherwise) ==> s.stopped[w]
    requires otherwise == Done ==> q == w
    ensures Inv(c, TakeOr(c, s, w, q, back, otherwise))
  {
    if s.queues[q] == [] {
      GotoInv(c, s, w, otherwise);
    } else {
      TakeInv(c, s, w, q, back);
    }
  }

  lemma LookTimedInv(c: Config, s: State, w: nat, expired: bool)
    requires Inv(c, s) && w < c.threads && (s.pcs[w] == TimedWait || s.pcs[w] == TimedSleep)
    ensures Inv(c, LookTimed(c, s, w, expired))
  {
    assert PcOk(c, s.pcs[w]);
    if s.queues[w] == [] && !s.stopped[w] && !expired {
      GotoInv(c, s, w, TimedSleep);
    } else {
      TakeOrInv(c, s, w, w, OwnPop, ReadStopped);
    }
  }

  lemma StealStepInv(c: Config, s: State, w: nat, k: nat)
    requires Inv(c, s) && w < c.threads && s.pcs[w] == StealPop(k)
    ensures k + 1 < c.threads && Inv(c, StealStep(c, s, w, k))
  {
    assert PcOk(c, s.pcs[w]);
    var v := Victim(c, w, s.starts[w], k);
    if s.queues[v] == [] {
      GotoInv(c, s, w, NextVictim(c, k));
    } else {
      StartsInv(c, s, w, Rem(Add32(s.starts[w], k), c.threads - 1));
      TakeInv(c, s.(starts := s.starts[w := Rem(Add32(s.starts[w], k), c.threads - 1)]), w, v, OwnPop);
    }
  }

  lemma StartsInv(c: Config, s: State, w: nat, x: nat)
    requires Inv(c, s) && w < c.threads && 1 < c.threads && x < c.threads - 1
    ensures Inv(c, s.(starts := s.starts[w := x]))
  {
    var t := s.(starts := s.starts[w := x]);
    assert forall v :: Pending(s, v) ==> Pending(t, v);
  }

  /** Looking for work keeps the invariant. */
  lemma SearchInv(c: Config, s: State, w: nat, expired: bool, t: State)
    requires Inv(c, s) && w < c.threads && t == Worked(c, s, w, expired)
    requires s.pcs[w].OwnPop? || s.pcs[w].StealRead? || s.pcs[w].StealPop?
    ensures Inv(c, t)
  {
    assert PcOk(c, s.pcs[w]);
    match s.pcs[w] {
      case OwnPop => TakeOrInv(c, s, w, w, OwnPop, StealRead(0));
      case StealRead(k) =>
        var longEnough := |s.queues[Victim(c, w, s.starts[w], k)]| >= Threshold(c);
        GotoInv(c, s, w, if longEnough then StealPop(k) else NextVictim(c, k));
      case StealPop(k) => StealStepInv(c, s, w, k);
      case _ =>
    }
  }

  /** Waiting keeps the invariant. */
  lemma WaitInv(c: Config, s: State, w: nat, expired: bool, t: State)
    requires Inv(c, s) && w < c.threads && t == Worked(c, s, w, expired)
    requires s.pcs[w].TimedWait? || s.pcs[w].TimedSleep? || s.pcs[w].ReadStopped? || s.pcs[w].IdleWait?
    ensures Inv(c, t)
  {
    assert PcOk(c, s.pcs[w]);
    match s.pcs[w] {
      case TimedWait => LookTimedInv(c, s, w, expired);
      case TimedSleep => LookTimedInv(c, s, w, true);
      case ReadStopped =>
        GotoInv(c, s, w, if !s.stopped[w] then OwnPop else if c.batch == 1 then Done else DrainRead);
      case IdleWait =>
        if s.queues[w] == [] && !s.stopped[w] {
          GotoInv(c, s, w, IdleSleep);
        } else {
          TakeOrInv(c, s, w, w, IdleWait, DrainRead);
        }
      case _ =>
    }
  }

  /** Reading the shutdown policy keeps the invariant. */
  lemma PolicyInv(c: Config, s: State, w: nat)
    requires Inv(c, s) && w < c.threads && s.pcs[w] == DrainRead
    ensures Inv(c, Goto(s, w, if s.policy then DrainPop else Done))
  {
    GotoInv(c, s, w, if s.policy then DrainPop else Done);
  }

  /** The last pops keep the invariant. */
  lemma DrainInv(c: Config, s: State, w: nat)
    requires Inv(c, s) && w < c.threads && s.pcs[w] == DrainPop
    ensures Inv(c, TakeOr(c, s, w, w, DrainRead, Done))
  {
    assert s.stopped[w];
    TakeOrInv(c, s, w, w, DrainRead, Done);
  }

  /** Every step of every worker keeps the invariant. */
  lemma WorkInv(c: Config, s: State, w: nat, expired: bool, t: State)
    requires Inv(c, s) && w < c.threads && s.pcs[w] != IdleSleep && s.pcs[w] != Done
    requires t == Worked(c, s, w, expired)
    ensures Inv(c, t)
  {
    if s.pcs[w].OwnPop? || s.pcs[w].StealRead? || s.pcs[w].StealPop? {
      SearchInv(c, s, w, expired, t);
    } else if s.pcs[w].DrainRead? {
      PolicyInv(c, s, w);
    } else if s.pcs[w].DrainPop? {
      DrainInv(c, s, w);
    } else if s.pcs[w].Exec? {
      ExecuteInv(c, s, w, s.pcs[w].back);
    } else {
      WaitInv(c, s, w, expired, t);
    }
  }

  /** A notification, or a spurious wakeup, of queue `q`. */
  lemma WokenInv(c: Config, s: State, q: nat)
    requires Inv(c, s) && q < c.threads
    ensures Inv(c, Woken(s, q)) && !Asleep(Woken(s, q).pcs[q])
    ensures Woken(s, q).exit == s.exit && Woken(s, q).producers == s.producers && Woken(s, q).index == s.index
  {
    assert PcOk(c, s.pcs[q]);
    if s.pcs[q] == IdleSleep {
      GotoInv(c, s, q, IdleWait);
    } else if s.pcs[q] == TimedSleep {
      GotoInv(c, s, q, TimedWait);
    }
  }

  /** A producer moves on without touching a queue; a notification it owed has reached its queue. */
  lemma ProducedInv(c: Config, s: State, p: nat, at: Producer)
    requires Inv(c, s) && p < |s.producers| && ProducerOk(c, at)
    requires s.producers[p].Signalling? ==> s.producers[p].target < c.threads && !Asleep(s.pcs[s.producers[p].target])
    ensures Inv(c, Produced(s, p, at))
  {
    var t := Produced(s, p, at);
    forall v | 0 <= v < c.threads && Asleep(t.pcs[v])
      ensures (t.queues[v] == [] && !t.stopped[v]) || Pending(t, v)
    {
      if Pending(s, v) && s.exit != NotifyAt(v) {
        var r :| 0 <= r < |s.producers| && s.producers[r] == Signalling(v);
        assert t.producers[r] == Signalling(v);
      }
    }
  }

  lemma StoredConserved(c: Config, s: State, p: nat, xs: seq<Task>, t: nat)
    requires Typed(c, s) && Bounded(c, s) && p < |s.producers| && t < c.threads
    requires Conserved(s)
    ensures Conserved(Stored(c, s, p, xs, t))
  {
    var ys := xs[..Min(|xs|, c.length - |s.queues[t]|)];
    BagPut(s.queues, t, ys);
    AddFirst(Bag(s.queues), Bag(s.hands), s.executed, multiset(ys));
  }

  lemma AddFirst(a: multiset<Task>, b: multiset<Task>, e: multiset<Task>, x: multiset<Task>)
    ensures a + b + e + x == a + x + b + e
  {
  }

  lemma StoredInv(c: Config, s: State, p: nat, xs: seq<Task>, t: nat)
    requires Inv(c, s) && p < |s.producers| && t < c.threads && s.producers[p].Chosen?
    ensures Inv(c, Stored(c, s, p, xs, t))
  {
    StoredConserved(c, s, p, xs, t);
    var u := Stored(c, s, p, xs, t);
    forall v | 0 <= v < c.threads && Asleep(u.pcs[v])
      ensures (u.queues[v] == [] && !u.stopped[v]) || Pending(u, v)
    {
      if v == t && u.queues[t] != s.queues[t] {
        assert u.producers[p] == Signalling(v);
      } else if Pending(s, v) && s.exit != NotifyAt(v) {
        var r :| 0 <= r < |s.producers| && s.producers[r] == Signalling(v);
        assert u.producers[r] == Signalling(v);
      }
    }
    StoredDrained(c, s, p, xs, t);
  }

  lemma StoredDrained(c: Config, s: State, p: nat, xs: seq<Task>, t: nat)
    requires Typed(c, s) && Bounded(c, s) && Drained(c, s) && p < |s.producers| && t < c.threads
    ensures Typed(c, Stored(c, s, p, xs, t)) && Drained(c, Stored(c, s, p, xs, t))
  {
    var u := Stored(c, s, p, xs, t);
    if |u.queues[t]| == |s.queues[t]| {
      assert u.queues[t] == s.queues[t];
    }
  }

  /** The exiting thread moves on from a notification, which has reached queue `i`. */
  lemma NotifiedInv(c: Config, s: State, i: nat)
    requires Inv(c, s) && s.exit == NotifyAt(i) && !Asleep(s.pcs[i])
    ensures Inv(c, AfterNotify(c, s, i))
  {
    var t := AfterNotify(c, s, i);
    forall v | 0 <= v < c.threads && v != i && Pending(s, v) ensures Pending(t, v) {
      var r :| 0 <= r < |s.producers| && s.producers[r] == Signalling(v);
      assert t.producers[r] == Signalling(v);
    }
  }

  lemma StopInv(c: Config, s: State, i: nat)
    requires Inv(c, s) && s.exit == StopAt(i)
    ensures Inv(c, StopQueue(s, i))
  {
    var t := StopQueue(s, i);
    forall v | Pending(s, v) ensures Pending(t, v) {
      var r :| 0 <= r < |s.producers| && s.producers[r] == Signalling(v);
      assert t.producers[r] == Signalling(v);
    }
  }

  lemma ReturnInv(c: Config, s: State)
    requires Inv(c, s) && s.exit == Joining && AllDone(s)
    ensures Inv(c, s.(exit := Returned))
  {
    var t := s.(exit := Returned);
    assert forall v :: Pending(s, v) ==> Pending(t, v);
  }

  /** The exiting thread stops a queue, notifies, or has joined all workers. */
  lemma ExitInv(c: Config, s: State, t: State)
    requires Inv(c, s) && Enabled(c, s, ExitStep) && t == Exited(c, s)
    ensures Inv(c, t)
  {
    if s.exit.StopAt? {
      StopInv(c, s, s.exit.i);
    } else if s.exit.NotifyAt? {
      WokenInv(c, s, s.exit.i);
      NotifiedInv(c, Woken(s, s.exit.i), s.exit.i);
    } else {
      ReturnInv(c, s);
    }
  }

  lemma ExitBeginInv(c: Config, s: State, graceful: bool)
    requires Inv(c, s) && s.exit == Running
    ensures Inv(c, s.(exit := StopAt(0), policy := graceful))
  {
    var t := s.(exit := StopAt(0), policy := graceful);
    assert forall v :: Pending(s, v) ==> Pending(t, v);
  }

  /** Every step of every thread keeps the invariant. */
  lemma StepInv(c: Config, s: State, a: Action)
    requires Inv(c, s) && Enabled(c, s, a)
    ensures Inv(c, Apply(c, s, a))
  {
    match a {
      case Work(w, expired) => WorkInv(c, s, w, expired, Worked(c, s, w, expired));
      case Spurious(w) => WokenInv(c, s, w);
      case Submit(p, sub) =>
        ProducedInv(c, s, p, Indexed(sub, Drawn(c, s.index, 0)));
        IndexInv(c, Produced(s, p, Indexed(sub, Drawn(c, s.index, 0))), Add32(s.index, 1));
      case Choose(p) =>
        assert ProducerOk(c, s.producers[p]);
        var i := s.producers[p];
        ProducedInv(c, s, p, Chosen(i.sub, Target(c, |s.queues[i.at]|, i.sub, i.at)));
      case Store(p) =>
        assert ProducerOk(c, s.producers[p]);
        StoredInv(c, s, p, s.producers[p].sub.Tasks(), s.producers[p].target);
      case Notify(p) =>
        assert ProducerOk(c, s.producers[p]);
        WokenInv(c, s, s.producers[p].target);
        ProducedInv(c, Woken(s, s.producers[p].target), p, Free);
      case ExitBegin(graceful) => ExitBeginInv(c, s, graceful);
      case ExitStep => ExitInv(c, s, Exited(c, s));
    }
  }

  lemma IndexInv(c: Config, s: State, i: nat)
    requires Inv(c, s) && i < TWO_32
    ensures Inv(c, s.(index := i))
  {
    var t := s.(index := i);
    assert forall v :: Pending(s, v) ==> Pending(t, v);
  }
}

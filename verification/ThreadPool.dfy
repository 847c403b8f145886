/**
 ThreadPool: the object itself, with the loops its threads run.  Each method here is what one thread
 does while no other interferes; PoolMachine interleaves the same steps, and PoolRefinement shows that they are.
 */
module ThreadPools {
  import opened BlockQueue
  import opened PoolMachine
  import opened Words

  /** An allocated queue of the configured length that holds `h`. */
  ghost predicate QueueOk(q: TPBlockQueue<Task>, h: seq<Task>, length: nat)
    reads q, q.slots, q.next
  {
    q.Valid() && q.memoryBlock && q.maxSize == length && q.Contents() == h
  }

  /** Two queues share no memory. */
  ghost predicate Separate(q: TPBlockQueue<Task>, r: TPBlockQueue<Task>)
    reads q, r
  {
    q != r && q.slots != r.slots
  }

  /** Separate queues, `queues[i]` holding `held[i]`, all of their memory in `repr`. */
  ghost predicate Built(queues: seq<TPBlockQueue<Task>>, held: seq<seq<Task>>, length: nat, repr: set<object>)
    reads repr
  {
    && |queues| == |held|
    && (forall i :: 0 <= i < |queues| ==> queues[i] in repr && queues[i].slots in repr && queues[i].next in repr)
    && (forall i :: 0 <= i < |queues| ==> QueueOk(queues[i], held[i], length))
    && (forall i, j :: 0 <= i < |queues| && 0 <= j < |queues| && i != j ==> Separate(queues[i], queues[j]))
  }

  class ThreadPool {
    const c: Config
    const queues: seq<TPBlockQueue<Task>>
    var index: nat                        // the round-robin counter
    ghost const Repr: set<object>         // the queues and their memory
    ghost var held: seq<seq<Task>>        // what the queues hold
    ghost var executed: seq<Task>         // every task executed, in order

    ghost predicate Valid()
      reads this, Repr
    {
      Configured(c) && index < TWO_32 && |queues| == c.threads && this !in Repr && Built(queues, held, c.length, Repr)
    }

    constructor (c: Config, queues: seq<TPBlockQueue<Task>>, index: nat, ghost held: seq<seq<Task>>,
                 ghost repr: set<object>)
      requires Configured(c) && index < TWO_32 && |queues| == c.threads && Built(queues, held, c.length, repr)
      ensures Valid() && this.c == c && this.queues == queues && this.held == held && Repr == repr && executed == []
    {
      this.c, this.queues, this.index, this.held, Repr, executed := c, queues, index, held, repr, [];
    }

    /** init: null exactly for impossible numbers, or when memory or the machine's core count is not to be had.  The
        counter is never set, so it stands anywhere. */
    static method Init(os: Machine, queueLength: nat, threadNum: nat, batchSize: nat) returns (pool: ThreadPool?)
      requires queueLength < TWO_32 && threadNum < TWO_32
      modifies os
      ensures pool != null <==> 0 < batchSize <= queueLength && 0 < threadNum && os.refusals == old(os.refusals)
      ensures pool != null ==> fresh(pool) && fresh(pool.Repr) && pool.Valid()
      ensures pool != null ==> pool.c == Config(threadNum, queueLength, batchSize) && pool.executed == []
      ensures pool != null ==> forall i :: 0 <= i < threadNum ==> pool.held[i] == [] && !pool.queues[i].isStopped
    {
      if batchSize == 0 || threadNum == 0 || batchSize > queueLength {
        return null;
      }
      var granted := os.Grant();
      if !granted {
        return null;
      }
      var queues, held, repr, made := NewQueues(os, queueLength, threadNum);
      if !made {
        return null;
      }
      var cores := os.Grant();
      if !cores {
        return null;
      }
      var counter: int := *;
      var index: nat := if 0 <= counter < TWO_32 then counter else 0;
      pool := new ThreadPool(Config(threadNum, queueLength, batchSize), queues, index, held, repr);
    }

    static method NewQueues(os: Machine, queueLength: nat, threadNum: nat)
      returns (queues: seq<TPBlockQueue<Task>>, ghost held: seq<seq<Task>>, ghost repr: set<object>, ok: bool)
      requires 0 < queueLength
      modifies os
      ensures ok <==> os.refusals == old(os.refusals)
      ensures old(os.refusals) <= os.refusals && fresh(repr) && os !in repr
      ensures ok ==> |queues| == threadNum && Built(queues, held, queueLength, repr)
      ensures ok ==> forall j :: 0 <= j < threadNum ==> held[j] == [] && !queues[j].isStopped
    {
      queues, held, repr := [], [], {};
      for i := 0 to threadNum
        invariant |queues| == i && fresh(repr) && os !in repr && Built(queues, held, queueLength, repr)
        invariant forall j :: 0 <= j < i ==> held[j] == [] && !queues[j].isStopped
        invariant os.refusals == old(os.refusals)
      {
        var q, made := NewQueue(os, queueLength);
        if !made {
          ok := false;
          return;
        }
        BuiltOneMore(queues, held, queueLength, repr, q);
        queues, held, repr := queues + [q], held + [[]], repr + {q, q.next, q.slots};
      }
      ok := true;
    }

    static method NewQueue(os: Machine, capacity: nat) returns (q: TPBlockQueue<Task>, ok: bool)
      requires 0 < capacity
      modifies os
      ensures fresh(q) && (ok <==> os.refusals == old(os.refusals)) && old(os.refusals) <= os.refusals
      ensures ok ==> QueueOk(q, [], capacity) && fresh(q.next) && fresh(q.slots) && !q.isStopped
    {
      q := new TPBlockQueue<Task>();
      ok := q.Init(os, capacity);
    }

    /** `x % n`, as every choice of a queue computes it. */
    static method Remainder(x: nat, n: nat) returns (r: nat)
      requires 0 < n
      ensures r == Rem(x, n) < n
    {
      r := x % n;
      RemIsMod(x, n);
    }

    /** fetch_add on the counter, modulo the number of threads: the next draw of the round robin. */
    method NextIndex() returns (i: nat)
      requires Valid()
      modifies this`index
      ensures Valid() && i == Drawn(c, old(index), 0) && index == Add32(old(index), 1)
    {
      i := Remainder(index, c.threads);
      index := Add32(index, 1);
    }

    /** push, pushBulk and popBulk on one queue, in terms of what it holds. */
    static method PushOne(q: TPBlockQueue<Task>, ghost h: seq<Task>, length: nat, x: Task) returns (ok: bool)
      requires QueueOk(q, h, length)
      modifies q, q.slots
      ensures |h| <= length && ok == (|h| < length) && QueueOk(q, PushUpTo(h, [x], length), length)
      ensures q.slots == old(q.slots) && q.next == old(q.next)
    {
      var pushed, _ := q.Push(x);
      ok := pushed;
    }

    static method PushMany(q: TPBlockQueue<Task>, ghost h: seq<Task>, length: nat, xs: seq<Task>) returns (n: nat)
      requires QueueOk(q, h, length)
      modifies q, q.slots
      ensures |h| <= length && n == Min(|xs|, length - |h|) && QueueOk(q, PushUpTo(h, xs, length), length)
      ensures q.slots == old(q.slots) && q.next == old(q.next)
    {
      var pushed, _ := q.PushBulk(xs);
      n := pushed;
    }

    static method PopMany(q: TPBlockQueue<Task>, ghost h: seq<Task>, length: nat, count: nat)
      returns (xs: seq<Task>, ghost rest: seq<Task>)
      requires QueueOk(q, h, length)
      modifies q, q.slots
      ensures h == xs + rest && |xs| == Min(count, |h|) && QueueOk(q, rest, length)
      ensures q.slots == old(q.slots) && q.next == old(q.next)
    {
      xs := q.PopBulk(count);
      rest := q.Contents();
    }

    /** Nothing but queue `i` and its slots has changed. */
    twostate predicate OnlyQueue(i: nat)
      requires i < |queues|
      reads this, Repr, queues
    {
      held == old(held) && unchanged(Repr - {queues[i], old(queues[i].slots)})
    }

    /** A call that changes queue `i` alone leaves all the others as they were. */
    twostate lemma OthersKept(i: nat)
      requires i < |queues| && old(Built(queues, held, c.length, Repr)) && OnlyQueue(i)
      ensures forall j :: 0 <= j < |queues| && j != i ==>
                queues[j].slots == old(queues[j].slots) && queues[j].next == old(queues[j].next)
                && QueueOk(queues[j], held[j], c.length)
    {
      forall j | 0 <= j < |queues| && j != i
        ensures queues[j].slots == old(queues[j].slots) && queues[j].next == old(queues[j].next)
                && QueueOk(queues[j], held[j], c.length)
      {
        assert old(QueueOk(queues[j], held[j], c.length)) && old(Separate(queues[i], queues[j]));
        assert unchanged(queues[j]) && unchanged(queues[j].slots) && unchanged(queues[j].next);
      }
    }

    /** So the pool is as it was but for what queue `i` holds. */
    twostate lemma BuiltAfter(i: nat)
      requires i < |queues| && old(Built(queues, held, c.length, Repr)) && OnlyQueue(i)
      requires queues[i].slots == old(queues[i].slots) && queues[i].next == old(queues[i].next)
      requires queues[i].Valid() && QueueOk(queues[i], queues[i].Contents(), c.length)
      ensures Built(queues, held[i := queues[i].Contents()], c.length, Repr)
    {
      OthersKept(i);
      forall j, k | 0 <= j < |queues| && 0 <= k < |queues| && j != k ensures Separate(queues[j], queues[k]) {
        assert old(Separate(queues[j], queues[k]));
      }
    }

    /** A push to queue `i`, as the whole pool sees it. */
    method PushTo(i: nat, x: Task) returns (ok: bool)
      requires Valid() && i < c.threads
      modifies this`held, Repr
      ensures Valid() && |old(held)[i]| <= c.length && ok == (|old(held)[i]| < c.length)
      ensures held == old(held)[i := PushUpTo(old(held)[i], [x], c.length)]
    {
      ghost var h := PushUpTo(held[i], [x], c.length);
      ok := PushOne(queues[i], held[i], c.length, x);
      BuiltAfter(i);
      held := held[i := h];
    }

    /** A bulk push to queue `i`, as the whole pool sees it. */
    method PushBulkTo(i: nat, xs: seq<Task>) returns (n: nat)
      requires Valid() && i < c.threads
      modifies this`held, Repr
      ensures Valid() && |old(held)[i]| <= c.length && n == Min(|xs|, c.length - |old(held)[i]|)
      ensures held == old(held)[i := PushUpTo(old(held)[i], xs, c.length)]
    {
      ghost var h := PushUpTo(held[i], xs, c.length);
      n := PushMany(queues[i], held[i], c.length, xs);
      BuiltAfter(i);
      held := held[i := h];
    }

    /** popBulk on queue `i`, as the whole pool sees it. */
    method PopFrom(i: nat) returns (xs: seq<Task>)
      requires Valid() && i < c.threads
      modifies this`held, Repr
      ensures Valid() && Progress(old(held), held, i, xs) && |xs| == Min(c.batch, |old(held)[i]|)
    {
      ghost var rest;
      xs, rest := PopMany(queues[i], held[i], c.length, c.batch);
      BuiltAfter(i);
      held := held[i := rest];
    }

    /** The unlocked read of a queue's size. */
    method SizeOf(i: nat) returns (n: nat)
      requires Valid() && i < c.threads
      ensures n == |held[i]| <= c.length
    {
      assert QueueOk(queues[i], held[i], c.length);
      n := queues[i].size;
    }

    /** How every submission settles on a queue: the one drawn, or the one half way round when that is full,
        or when half of a batch would not fit there. */
    method Choose(at: nat, sub: Submission) returns (t: nat)
      requires Valid() && at < c.threads && |sub.Tasks()| <= c.length
      ensures |held[at]| <= c.length && t == Target(c, |held[at]|, sub, at)
    {
      var size := SizeOf(at);
      var half := c.threads / 2;
      t := at;
      if !Roomy(c, size, sub) {
        t := Remainder(Add32(at, half), c.threads);
      }
    }

    /** append and emplace; `at` is the queue drawn and `t` the one chosen. */
    method Append(x: Task) returns (ok: bool, at: nat, t: nat)
      requires Valid()
      modifies this`index, this`held, Repr
      ensures Valid() && index == Add32(old(index), 1) && at == Drawn(c, old(index), 0)
      ensures Placed(c, old(held), held, One(x), at, t, if ok then 1 else 0)
    {
      assert One(x).Tasks() == [x];
      at := NextIndex();
      t := Choose(at, One(x));
      ok := PushTo(t, x);
    }

    /** append_bulk; `at` is the queue drawn and `t` the one chosen. */
    method AppendBulk(tasks: seq<Task>) returns (n: nat, at: nat, t: nat)
      requires Valid() && |tasks| <= c.length
      modifies this`index, this`held, Repr
      ensures Valid() && index == Add32(old(index), 1) && at == Drawn(c, old(index), 0)
      ensures Placed(c, old(held), held, Bulk(tasks), at, t, n)
    {
      assert Bulk(tasks).Tasks() == tasks;
      at := NextIndex();
      t := Choose(at, Bulk(tasks));
      n := PushBulkTo(t, tasks);
    }

    /** Takes a batch from queue `v` if that looks long enough. */
    method TryVictim(v: nat) returns (xs: seq<Task>)
      requires Valid() && v < c.threads
      modifies this`held, Repr
      ensures Valid() && (xs == [] <==> Short(c, old(held)[v])) && (xs == [] ==> held == old(held))
      ensures xs != [] ==> Progress(old(held), held, v, xs) && |xs| == Min(c.batch, |old(held)[v]|)
    {
      ghost var h := held;
      var size := SizeOf(v);
      xs := [];
      if held[v] != [] {
        ThresholdIsRich(c, held[v]);
      }
      if size >= Threshold(c) {
        xs := PopFrom(v);
        ProgressEnd(h, held, v, xs);
      }
    }

    /** One round of the loop of steal: the `i`-th victim, and where to remember it. */
    method TryNext(w: nat, start: nat, i: nat) returns (xs: seq<Task>, now: nat)
      requires Valid() && w < c.threads && start < TWO_32 && i + 1 < c.threads
      requires PassedOver(c, held, w, start, i)
      modifies this`held, Repr
      ensures Valid()
      ensures if xs == [] then held == old(held) && PassedOver(c, held, w, start, i + 1)
              else Stolen(c, old(held), held, w, start, i, xs, now)
    {
      ghost var config, h := c, held;
      var v := Victim(c, w, start, i);
      now := Remainder(Add32(start, i), c.threads - 1);
      xs := TryVictim(v);
      assert c == config;
      if xs == [] {
        OneMorePassed(config, h, w, start, i, v);
      } else {
        StolenAt(config, h, held, w, start, i, xs, now, v);
      }
    }

    /** Stealer.steal: takes a batch from the first victim that is long enough, and remembers where; `k`
        says which that was, or is the number of victims when there was none. */
    method Steal(w: nat, start: nat) returns (xs: seq<Task>, start': nat, ghost k: nat)
      requires Valid() && w < c.threads && start < TWO_32
      modifies this`held, Repr
      ensures Valid() && Stolen(c, old(held), held, w, start, k, xs, start')
      ensures Exhaustive(c, old(held), w, start, xs)
    {
      ghost var h := held;
      xs, start', k := Search(w, start);
      StolenIsExhaustive(c, h, held, w, start, k, xs, start');
    }

    /** The loop of steal. */
    method Search(w: nat, start: nat) returns (xs: seq<Task>, start': nat, ghost k: nat)
      requires Valid() && w < c.threads && start < TWO_32
      modifies this`held, Repr
      ensures Valid() && Stolen(c, old(held), held, w, start, k, xs, start')
    {
      ghost var h := held;
      var total := c.threads - 1;
      xs, start', k := [], start, 0;
      var i := 0;
      while i < total
        invariant Valid() && i == k <= total && held == h && xs == [] && start' == start
        invariant PassedOver(c, h, w, start, k)
      {
        var now;
        xs, now := TryNext(w, start, i);
        if |xs| > 0 {
          start' := now;
          return;
        }
        i, k := i + 1, k + 1;
      }
      NothingStolen(c, h, w, start);
    }

    /** execute_tasks: every task of a batch once, in order. */
    method ExecuteTasks(tasks: seq<Task>)
      modifies this`executed
      ensures executed == old(executed) + tasks
    {
      for i := 0 to |tasks|
        invariant executed == old(executed) + tasks[..i]
      {
        executed := executed + [tasks[i]];
      }
    }

    /** Takes a batch out of queue `w` and executes it; an empty batch means an empty queue. */
    method ServeBatch(w: nat) returns (tasks: seq<Task>)
      requires Valid() && w < c.threads
      modifies this`held, this`executed, Repr
      ensures Valid() && Progress(old(held), held, w, tasks) && (tasks == [] ==> held[w] == [])
      ensures executed == old(executed) + tasks
    {
      tasks := PopFrom(w);
      ExecuteTasks(tasks);
    }

    /** The loop behind the main loop of a worker: after a graceful exit its queue is emptied in batches,
        and every task in it executed, in order. */
    method Drain(w: nat, safeExit: bool)
      requires Valid() && w < c.threads
      modifies this`held, this`executed, Repr
      ensures Valid() && held == old(held)[w := if safeExit then [] else old(held)[w]]
      ensures executed == old(executed) + if safeExit then old(held)[w] else []
    {
      ghost var h, e := held, executed;
      ghost var done := [];
      while safeExit
        invariant Valid() && Progress(h, held, w, done) && executed == e + done
        invariant safeExit || done == []
        decreases |held[w]|
      {
        ghost var mid := held;
        var tasks := ServeBatch(w);
        if tasks == [] {
          break;
        }
        ProgressOn(h, mid, held, w, done, tasks);
        ConcatAssoc(e, done, tasks);
        done := done + tasks;
      }
      ProgressEnd(h, held, w, done);
    }
  }

  /** A queue whose memory is none of the others' joins them. */
  lemma BuiltOneMore(queues: seq<TPBlockQueue<Task>>, held: seq<seq<Task>>, length: nat, repr: set<object>,
                     q: TPBlockQueue<Task>)
    requires Built(queues, held, length, repr) && QueueOk(q, [], length)
    requires q !in repr && q.slots !in repr && q.next !in repr
    ensures Built(queues + [q], held + [[]], length, repr + {q, q.next, q.slots})
  {
  }

  /** A queue worth stealing from: one that is full, or holds a batch for each of the other workers, that number
      being computed in 32 bits. */
  predicate Rich(c: Config, q: seq<Task>)
    requires Configured(c)
  {
    q != [] && (c.length <= |q| || Rem(Times(c.batch, c.threads - 1), TWO_32) <= |q|)
  }

  predicate Short(c: Config, q: seq<Task>)
    requires Configured(c)
  {
    !Rich(c, q)
  }

  lemma ThresholdIsRich(c: Config, q: seq<Task>)
    requires Configured(c) && q != []
    ensures Rich(c, q) <==> Threshold(c) <= |q|
  {
  }

  lemma ShortIs(c: Config, q: seq<Task>)
    requires Configured(c) && Times(c.batch, c.threads - 1) < TWO_32
    ensures Short(c, q) <==> q == [] || (|q| < c.length && |q| < Times(c.batch, c.threads - 1))
  {
  }

  /** In plain numbers, while that product fits: a worker passes over a victim exactly when it is empty, or is not full
      and holds fewer than `batch` tasks for each of the other workers. */
  lemma PassedOverIff(c: Config, h: seq<seq<Task>>, w: nat, start: nat, k: nat)
    requires Configured(c) && |h| == c.threads && start < TWO_32 && k + 1 < c.threads
    requires c.batch * (c.threads - 1) < TWO_32
    ensures var q := h[Victim(c, w, start, k)];
            Spared(c, h, w, start, k) <==> q == [] || (|q| < c.length && |q| < c.batch * (c.threads - 1))
  {
    TimesIsProduct(c.batch, c.threads - 1);
    ShortIs(c, h[Victim(c, w, start, k)]);
  }

  /** Worker `w`, searching from `start`, finds its `k`-th victim short. */
  predicate Spared(c: Config, h: seq<seq<Task>>, w: nat, start: nat, k: nat)
    requires Configured(c) && |h| == c.threads && start < TWO_32 && k + 1 < c.threads
  {
    Short(c, h[Victim(c, w, start, k)])
  }

  /** The first `k` victims of a search are all short. */
  ghost predicate PassedOver(c: Config, h: seq<seq<Task>>, w: nat, start: nat, k: nat)
    requires Configured(c) && |h| == c.threads && start < TWO_32 && k < c.threads
  {
    forall j :: 0 <= j < k ==> Spared(c, h, w, start, j)
  }

  /** The `k`-th victim was long enough, and a batch was taken from it and its place remembered. */
  ghost predicate TookAt(c: Config, h: seq<seq<Task>>, g: seq<seq<Task>>, w: nat, start: nat, k: nat,
                         xs: seq<Task>, start': nat)
    requires Configured(c) && |h| == c.threads && start < TWO_32 && k + 1 < c.threads
  {
    var v := Victim(c, w, start, k);
    && !Spared(c, h, w, start, k) && start' == Rem(Add32(start, k), c.threads - 1)
    && |xs| == Min(c.batch, |h[v]|) && Progress(h, g, v, xs)
  }

  /** A search from `start` passed over `k` victims; if that left one, it took a batch from that one. */
  ghost predicate Stolen(c: Config, h: seq<seq<Task>>, g: seq<seq<Task>>, w: nat, start: nat, k: nat,
                         xs: seq<Task>, start': nat)
  {
    && Configured(c) && |h| == c.threads && start < TWO_32 && k < c.threads && PassedOver(c, h, w, start, k)
    && if k + 1 < c.threads then TookAt(c, h, g, w, start, k, xs, start') else xs == [] && g == h && start' == start
  }

  lemma OneMorePassed(c: Config, h: seq<seq<Task>>, w: nat, start: nat, k: nat, v: nat)
    requires Configured(c) && |h| == c.threads && start < TWO_32 && k + 1 < c.threads
    requires v == Victim(c, w, start, k) && PassedOver(c, h, w, start, k) && Short(c, h[v])
    ensures PassedOver(c, h, w, start, k + 1)
  {
  }

  lemma StolenAt(c: Config, h: seq<seq<Task>>, g: seq<seq<Task>>, w: nat, start: nat, k: nat,
                 xs: seq<Task>, start': nat, v: nat)
    requires Configured(c) && |h| == c.threads && start < TWO_32 && k + 1 < c.threads
    requires PassedOver(c, h, w, start, k) && start' == Rem(Add32(start, k), c.threads - 1)
    requires v == Victim(c, w, start, k) && !Short(c, h[v])
    requires |xs| == Min(c.batch, |h[v]|) && Progress(h, g, v, xs)
    ensures Stolen(c, h, g, w, start, k, xs, start')
  {
  }

  lemma NothingStolen(c: Config, h: seq<seq<Task>>, w: nat, start: nat)
    requires Configured(c) && |h| == c.threads && start < TWO_32 && PassedOver(c, h, w, start, c.threads - 1)
    ensures Stolen(c, h, h, w, start, c.threads - 1, [], start)
  {
  }

  /** No queue but that of worker `w` is worth stealing from. */
  ghost predicate OthersShort(c: Config, h: seq<seq<Task>>, w: nat)
    requires Configured(c)
  {
    forall q :: 0 <= q < |h| && q != w ==> Short(c, h[q])
  }

  /** When the search has passed over every victim, no other queue is long enough. */
  lemma AllPassedOver(c: Config, h: seq<seq<Task>>, w: nat, start: nat)
    requires Configured(c) && |h| == c.threads && w < c.threads && start < c.threads - 1 <= TWO_31
    requires PassedOver(c, h, w, start, c.threads - 1)
    ensures OthersShort(c, h, w)
  {
    forall q | 0 <= q < c.threads && q != w ensures Short(c, h[q]) {
      FindsOther(c, w, start, q);
      var k: nat :| k + 1 < c.threads && Victim(c, w, start, k) == q;
      assert Spared(c, h, w, start, k);
    }
  }

  /** The same in plain numbers: every other queue is empty, or is not full and holds fewer than `batch` tasks for each
      of the other workers. */
  ghost predicate OthersPoor(c: Config, h: seq<seq<Task>>, w: nat)
    requires Configured(c)
  {
    forall q :: 0 <= q < |h| && q != w ==>
      h[q] == [] || (|h[q]| < c.length && |h[q]| < c.batch * (c.threads - 1))
  }

  lemma ShortIsPoor(c: Config, h: seq<seq<Task>>, w: nat)
    requires Configured(c) && c.batch * (c.threads - 1) < TWO_32
    ensures OthersShort(c, h, w) <==> OthersPoor(c, h, w)
  {
    TimesIsProduct(c.batch, c.threads - 1);
    forall q | 0 <= q < |h|
      ensures Short(c, h[q]) <==> h[q] == [] || (|h[q]| < c.length && |h[q]| < c.batch * (c.threads - 1))
    {
      ShortIs(c, h[q]);
    }
  }

  /** A search comes away with nothing exactly when no other queue is worth it. */
  lemma StolenIff(c: Config, h: seq<seq<Task>>, g: seq<seq<Task>>, w: nat, start: nat, k: nat,
                  xs: seq<Task>, start': nat)
    requires Stolen(c, h, g, w, start, k, xs, start') && w < c.threads && start < c.threads - 1 <= TWO_31
    ensures xs == [] <==> OthersShort(c, h, w)
  {
    if k + 1 == c.threads {
      AllPassedOver(c, h, w, start);
    } else {
      assert !Short(c, h[Victim(c, w, start, k)]);
    }
  }

  /** Unless a 32-bit number wraps, a search that started at one of the victims comes away with nothing if and only if
      every other queue is too poor. */
  ghost predicate Exhaustive(c: Config, h: seq<seq<Task>>, w: nat, start: nat, xs: seq<Task>)
    requires Configured(c)
  {
    start < c.threads - 1 <= TWO_31 && c.batch * (c.threads - 1) < TWO_32 ==> (xs == [] <==> OthersPoor(c, h, w))
  }

  lemma StolenIsExhaustive(c: Config, h: seq<seq<Task>>, g: seq<seq<Task>>, w: nat, start: nat, k: nat,
                           xs: seq<Task>, start': nat)
    requires Stolen(c, h, g, w, start, k, xs, start') && w < c.threads
    ensures Exhaustive(c, h, w, start, xs)
  {
    if start < c.threads - 1 <= TWO_31 && c.batch * (c.threads - 1) < TWO_32 {
      StolenIff(c, h, g, w, start, k, xs, start');
      ShortIsPoor(c, h, w);
    }
  }

  /** A submission drawn for queue `at` went to queue `t` alone, which took the first `n` of its tasks: all that fit. */
  predicate Placed(c: Config, h: seq<seq<Task>>, g: seq<seq<Task>>, sub: Submission, at: nat, t: nat, n: nat)
  {
    && Configured(c) && at < c.threads == |h| && |sub.Tasks()| <= c.length && |h[at]| <= c.length
    && t == Target(c, |h[at]|, sub, at) && |h[t]| <= c.length && n == Min(|sub.Tasks()|, c.length - |h[t]|)
    && g == h[t := PushUpTo(h[t], sub.Tasks(), c.length)]
  }

  /** From `h` to `g`, exactly `done` has left the front of queue `w`. */
  ghost predicate Progress(h: seq<seq<Task>>, g: seq<seq<Task>>, w: nat, done: seq<Task>)
  {
    w < |h| == |g| && h[w] == done + g[w] && g == h[w := g[w]]
  }

  lemma ProgressOn(h: seq<seq<Task>>, m: seq<seq<Task>>, g: seq<seq<Task>>, w: nat, done: seq<Task>, more: seq<Task>)
    requires Progress(h, m, w, done) && Progress(m, g, w, more)
    ensures Progress(h, g, w, done + more)
  {
    ConcatAssoc(done, more, g[w]);
  }

  lemma ProgressEnd(h: seq<seq<Task>>, g: seq<seq<Task>>, w: nat, done: seq<Task>)
    requires Progress(h, g, w, done)
    ensures g[w] == [] ==> done == h[w] && g == h[w := []]
    ensures done == [] ==> g == h == h[w := h[w]]
  {
    assert done + [] == done;
    assert [] + g[w] == g[w];
  }
}

/**
 UtilTaskTcp: what an IO loop keeps between epoll and the thread pool.  Tasks of one round of events
 are collected in a ring and submitted in batches; what the pool refuses is re-enabled in epoll.
 */
module BatchRing {
  import opened Words
  import opened Ring

  datatype Proc = ReadProc | WriteProc

  /** A task: which connection, and which of the two callbacks. */
  datatype SockTask = SockTask(ctx: nat, proc: Proc)

  function Ctxs(ts: seq<SockTask>): (cs: seq<nat>)
    ensures |cs| == |ts|
  {
    seq(|ts|, i requires 0 <= i < |ts| => ts[i].ctx)
  }

  /** One call of the thread pool: append_bulk or append, what it was given, and how many of that it took. */
  datatype Offer = Offer(bulk: bool, tasks: seq<SockTask>, taken: nat)

  /** The thread pool and epoll as an IO loop sees them.  The pool takes any prefix of what it is given. */
  class Outside {
    ghost var submitted: seq<SockTask>   // tasks the pool has taken, in order
    ghost var reenabled: seq<nat>        // connections handed to renableProc, in order
    ghost var offers: seq<Offer>         // append and append_bulk calls, in order

    constructor ()
      ensures submitted == [] && reenabled == [] && offers == []
    {
      submitted, reenabled, offers := [], [], [];
    }

    method Append(t: SockTask) returns (ok: bool)
      modifies this
      ensures submitted == old(submitted) + (if ok then [t] else []) && reenabled == old(reenabled)
      ensures offers == old(offers) + [Offer(false, [t], if ok then 1 else 0)]
    {
      ok := *;
      offers := offers + [Offer(false, [t], if ok then 1 else 0)];
      submitted := submitted + if ok then [t] else [];
    }

    method AppendBulk(ts: seq<SockTask>) returns (n: nat)
      modifies this
      ensures n <= |ts| && submitted == old(submitted) + ts[..n] && reenabled == old(reenabled)
      ensures offers == old(offers) + [Offer(true, ts, n)]
    {
      var accepted: int := *;
      n := if 0 <= accepted <= |ts| then accepted else 0;
      offers := offers + [Offer(true, ts, n)];
      submitted := submitted + ts[..n];
    }

    method Renable(ctx: nat)
      modifies this
      ensures reenabled == old(reenabled) + [ctx] && submitted == old(submitted) && offers == old(offers)
    {
      reenabled := reenabled + [ctx];
    }
  }

  /** What becomes of the tasks of one commit. */
  datatype Outcome<T> = Outcome(submitted: seq<T>, reenabled: seq<T>, lost: seq<T>)

  /** `p` is submitted in two pieces, `p[..first]` and the rest, and the pool has taken `taken` tasks in
      all.  When it takes less than the whole first piece, the second is neither submitted nor re-enabled. */
  function Committed<T>(p: seq<T>, first: nat, taken: nat): Outcome<T>
    requires taken <= |p| && first <= |p|
  {
    if taken < first then Outcome(p[..taken], p[taken..first], p[first..])
    else Outcome(p[..taken], p[taken..], [])
  }

  /** A submission of `ts`, of which the pool takes `taken`. */
  function OneOffer(ts: seq<SockTask>, taken: nat): Offer
  {
    Offer(|ts| != 1, ts, taken)
  }

  /** What a commit of `p` offers to the pool, which takes `taken` tasks in all: the first piece, and the rest exactly
      when there is one and the first piece was taken whole. */
  function Offered(p: seq<SockTask>, first: nat, taken: nat): seq<Offer>
    requires taken <= |p| && first <= |p|
  {
    if p == [] then []
    else if first <= taken && first < |p| then [OneOffer(p[..first], first), OneOffer(p[first..], taken - first)]
    else [OneOffer(p[..first], taken)]
  }

  /** The three parts make up the batch, in order; nothing is lost unless the ring had wrapped and the
      pool ran short before the end of the first piece, and then exactly the wrapped tail is. */
  lemma CommitLosesIff<T>(p: seq<T>, first: nat, taken: nat)
    requires taken <= |p| && first <= |p|
    ensures var o := Committed(p, first, taken);
            && o.submitted + o.reenabled + o.lost == p
            && (o.lost != [] <==> taken < first < |p|)
            && (o.lost != [] ==> o.lost == p[first..])
  {
  }

  lemma OneMoreCtx(log: seq<nat>, p: seq<SockTask>, i: nat, j: nat)
    requires i <= j < |p|
    ensures log + Ctxs(p[i..j]) + [p[j].ctx] == log + Ctxs(p[i..j + 1])
  {
    assert Ctxs(p[i..j]) + [p[j].ctx] == Ctxs(p[i..j + 1]);
  }

  /** Whatever the pool answers, a commit in these two pieces loses nothing. */
  ghost predicate LosesNothing<T>(p: seq<T>, first: nat)
    requires first <= |p|
  {
    forall taken: nat {:trigger Committed(p, first, taken)} :: taken <= |p| ==> Committed(p, first, taken).lost == []
  }

  /** That is so exactly when the batch, which starts at `back` on a ring of `n` slots, does not run past the end
      of the ring: what an IO loop could check before the call. */
  lemma LosesNothingIff<T>(p: seq<T>, back: nat, n: nat)
    requires back < n && |p| <= n
    ensures LosesNothing(p, Min(|p|, n - back)) <==> back + |p| <= n
  {
    if back + |p| > n {
      assert Committed(p, n - back, 0).lost == p[n - back..];
    }
  }

  /** The pool's log went from `log` to `log1`, and epoll's from `again` to `again1`, as `o` says. */
  ghost predicate Logged(o: Outcome<SockTask>, log: seq<SockTask>, log1: seq<SockTask>,
                         again: seq<nat>, again1: seq<nat>)
  {
    log1 == log + o.submitted && again1 == again + Ctxs(o.reenabled)
  }

  /** When the first piece goes through whole, the rest is committed as a batch of its own. */
  lemma SecondPiece<T>(p: seq<T>, first: nat, taken: nat)
    requires first <= taken <= |p|
    ensures var o := Committed(p[first..], |p| - first, taken - first);
            Committed(p, first, taken) == Outcome(p[..first] + o.submitted, o.reenabled, [])
  {
    SlicesJoin(p, first, taken - first);
  }

  lemma SlicesJoin<T>(p: seq<T>, i: nat, k: nat)
    requires i + k <= |p|
    ensures p[..i] + p[i..][..k] == p[..i + k] && p[i..][k..] == p[i + k..]
  {
  }

  lemma SecondLogged(p: seq<SockTask>, first: nat, taken: nat, log: seq<SockTask>, log1: seq<SockTask>,
                     again: seq<nat>, again1: seq<nat>)
    requires first + taken <= |p|
    requires Logged(Committed(p[first..], |p| - first, taken), log + p[..first], log1, again, again1)
    ensures Logged(Committed(p, first, first + taken), log, log1, again, again1)
  {
    SecondPiece(p, first, first + taken);
    Concat(log, p[..first], Committed(p[first..], |p| - first, taken).submitted);
  }

  lemma SecondOffered(p: seq<SockTask>, first: nat, taken: nat, calls: seq<Offer>)
    requires 0 < first && first + taken <= |p|
    ensures calls + [OneOffer(p[..first], first)] + Offered(p[first..], |p| - first, taken)
            == calls + Offered(p, first, first + taken)
  {
    if first < |p| {
      assert p[first..][..|p| - first] == p[first..];
    }
  }

  lemma Concat(a: seq<SockTask>, b: seq<SockTask>, c: seq<SockTask>)
    ensures a + b + c == a + (b + c)
  {
  }

  /** UtilTaskTcp_Single: every task is submitted at once. */
  class UtilTaskTcp_Single {
    var flag: bool
    const pool: Outside

    constructor (pool: Outside)
      ensures this.pool == pool && flag
    {
      this.pool := pool;
      flag := true;
    }

    /** Each task is submitted, or re-enabled and the flag cleared.  With the flag already cleared the
        connection is re-enabled first and still submitted. */
    method Append(t: SockTask) returns (ok: bool)
      modifies this`flag, pool
      ensures flag == (old(flag) && ok)
      ensures pool.offers == old(pool.offers) + [Offer(false, [t], if ok then 1 else 0)]
      ensures pool.submitted == old(pool.submitted) + if ok then [t] else []
      ensures pool.reenabled == old(pool.reenabled) + (if old(flag) then [] else [t.ctx]) + (if ok then [] else [t.ctx])
    {
      if !flag {
        pool.Renable(t.ctx);
      }
      ok := pool.Append(t);
      if !ok {
        flag := false;
        pool.Renable(t.ctx);
      }
    }

    method Reset()
      modifies this`flag
      ensures flag
    {
      flag := true;
    }
  }

  /** UtilTaskTcp_Multipe: tasks are collected in a ring and submitted when it is full, or on reset. */
  class UtilTaskTcp_Multipe {
    var flag: bool
    var back: nat
    var front: nat
    var size: nat
    const tasks: array<SockTask>   // THREADPOOL_BATCH_SIZE_SUBMIT slots
    const pool: Outside

    ghost predicate Valid()
      reads this
    {
      && 0 < tasks.Length < TWO_31
      && back < tasks.Length && size <= tasks.Length && front == Step(back, size, tasks.Length)
    }

    /** The buffered tasks, oldest first. */
    ghost function Pending(): (p: seq<SockTask>)
      reads this, tasks
      requires Valid()
      ensures |p| == size
    {
      Held(tasks[..], back, size)
    }

    /** The length of the piece in front of the end of the ring. */
    ghost function First(): nat
      reads this
      requires Valid()
    {
      Min(size, tasks.Length - back)
    }

    constructor (limit: nat, pool: Outside)
      requires 0 < limit < TWO_31
      ensures Valid() && fresh(tasks) && tasks.Length == limit && this.pool == pool && flag && Pending() == []
    {
      this.pool := pool;
      tasks := new SockTask[limit](_ => SockTask(0, ReadProc));
      flag, back, front, size := true, 0, 0, 0;
    }

    /** Buffers a task, and submits the batch when that fills it.  A buffered task is never overwritten,
        for the ring is never full between calls.  With the flag cleared the connection is re-enabled
        and buffered all the same. */
    method Append(t: SockTask) returns (ghost taken: nat, ghost first: nat)
      requires Valid() && size < tasks.Length
      modifies this`flag, this`back, this`front, this`size, tasks, pool
      ensures Valid() && size < tasks.Length
      ensures first == if old(size) + 1 < tasks.Length then 0 else tasks.Length - old(back)
      ensures var p := old(Pending()) + [t];
              var twice := if old(flag) then [] else [t.ctx];
              if |p| < tasks.Length then
                && Pending() == p && flag == old(flag)
                && pool.submitted == old(pool.submitted) && pool.reenabled == old(pool.reenabled) + twice
                && pool.offers == old(pool.offers)
              else
                && Pending() == [] && taken <= |p| && first <= |p|
                && flag == (old(flag) && taken == |p|) && pool.offers == old(pool.offers) + Offered(p, first, taken)
                && pool.submitted == old(pool.submitted) + Committed(p, first, taken).submitted
                && pool.reenabled == old(pool.reenabled) + twice + Ctxs(Committed(p, first, taken).reenabled)
    {
      taken, first := 0, 0;
      if !flag {
        pool.Renable(t.ctx);
      }
      Buffer(t);
      if size == tasks.Length {
        first := First();
        taken := Commit();
      }
    }

    /** Stores a task in the slot behind the last buffered one. */
    method Buffer(t: SockTask)
      requires Valid() && size < tasks.Length
      modifies this`front, this`size, tasks
      ensures Valid() && Pending() == old(Pending()) + [t]
    {
      HeldAppend(tasks[..], back, size, [t]);
      ghost var before := tasks[..];
      tasks[front] := t;
      assert tasks[..] == Overwrite(before, front, [t]);
      front := Advance32(front, 1, tasks.Length);
      size := size + 1;
    }

    /** Submits the piece of the ring in front of its end. */
    method SubmitFirst(num: nat) returns (submitted: nat)
      requires Valid() && 0 < num == First()
      modifies pool
      ensures submitted <= num && pool.offers == old(pool.offers) + [OneOffer(Pending()[..num], submitted)]
      ensures pool.submitted == old(pool.submitted) + Pending()[..submitted] && pool.reenabled == old(pool.reenabled)
    {
      HeldInOne(tasks[..], back, size, num);
      if num == 1 {
        var ok := pool.Append(tasks[back]);
        submitted := if ok then 1 else 0;
        assert tasks[..][back..back + 1] == [tasks[back]];
      } else {
        submitted := pool.AppendBulk(tasks[back..back + num]);
      }
      HeldInOne(tasks[..], back, size, submitted);
      assert tasks[..][back..back + num][..submitted] == tasks[..][back..back + submitted];
    }

    /** Re-enables the connection of the `k`-th buffered task. */
    method RenableAt(k: nat)
      requires Valid() && k < size
      modifies pool
      ensures pool.reenabled == old(pool.reenabled) + [Pending()[k].ctx]
      ensures pool.submitted == old(pool.submitted) && pool.offers == old(pool.offers)
    {
      var index := Advance32(back, k, tasks.Length);
      assert tasks[index] == Pending()[k];
      pool.Renable(tasks[index].ctx);
    }

    /** Re-enables what the pool refused of the first piece. */
    method Rollback(submitted: nat, num: nat)
      requires Valid() && submitted <= num == First()
      modifies pool
      ensures pool.reenabled == old(pool.reenabled) + Ctxs(Pending()[submitted..num])
      ensures pool.submitted == old(pool.submitted) && pool.offers == old(pool.offers)
    {
      var remaining := num - submitted;
      ghost var p, log := Pending(), pool.reenabled;
      for i := 0 to remaining
        invariant Valid() && Pending() == p && pool.reenabled == log + Ctxs(p[submitted..submitted + i])
        invariant pool.submitted == old(pool.submitted) && pool.offers == old(pool.offers)
      {
        OneMoreCtx(log, p, submitted, submitted + i);
        RenableAt(submitted + i);
      }
    }

    /** The pool ran short within the first piece: the rest of that is re-enabled, and the ring is emptied. */
    method GiveUp(submitted: nat, num: nat)
      requires Valid() && submitted < num == First()
      modifies this`flag, this`back, this`size, pool
      ensures Valid() && size == 0 && back == front && Pending() == [] && !flag
      ensures pool.reenabled == old(pool.reenabled) + Ctxs(Committed(old(Pending()), num, submitted).reenabled)
      ensures pool.submitted == old(pool.submitted) && pool.offers == old(pool.offers)
    {
      Rollback(submitted, num);
      back := front;
      size := 0;
      flag := false;
    }

    /** Submits all buffered tasks: offers the first piece to the pool, and then the rest unless the pool has not taken
        the whole of that; `taken` is the sum of its answers.  It always leaves the ring empty; the flag stays
        set exactly when the pool has taken everything. */
    method Commit() returns (ghost taken: nat)
      requires Valid()
      modifies this`flag, this`back, this`size, pool
      ensures Valid() && size == 0 && back == front && Pending() == []
      ensures taken <= |old(Pending())| && flag == (old(flag) && taken == |old(Pending())|)
      ensures pool.offers == old(pool.offers) + Offered(old(Pending()), old(First()), taken)
      ensures Logged(Committed(old(Pending()), old(First()), taken),
                     old(pool.submitted), pool.submitted, old(pool.reenabled), pool.reenabled)
      decreases size, 1
    {
      taken := 0;
      if size == 0 {
        return;
      }
      ghost var log, calls := pool.submitted, pool.offers;
      var distance := tasks.Length - back;
      var num := if distance > size then size else distance;
      var submitted := SubmitFirst(num);
      taken := submitted;
      if submitted != num {
        GiveUp(submitted, num);
      } else {
        taken := GoOn(num, log, calls);
      }
    }

    /** The pool has taken the whole first piece: the rest, if the ring had wrapped, is committed next. */
    method GoOn(num: nat, ghost log: seq<SockTask>, ghost calls: seq<Offer>) returns (ghost taken: nat)
      requires Valid() && 0 < num == First() && pool.submitted == log + Pending()[..num]
      requires pool.offers == calls + [OneOffer(Pending()[..num], num)]
      modifies this`flag, this`back, this`size, pool
      ensures Valid() && size == 0 && back == front && Pending() == []
      ensures num <= taken <= |old(Pending())| && flag == (old(flag) && taken == |old(Pending())|)
      ensures pool.offers == calls + Offered(old(Pending()), num, taken)
      ensures Logged(Committed(old(Pending()), num, taken), log, pool.submitted, old(pool.reenabled), pool.reenabled)
      decreases size, 0
    {
      ghost var p, more := Pending(), 0;
      Consume(num);
      if size > 0 {
        more := Commit();
      }
      taken := num + more;
      SecondLogged(p, num, more, log, pool.submitted, old(pool.reenabled), pool.reenabled);
      SecondOffered(p, num, more, calls);
    }

    /** Moves past the first piece. */
    method Consume(num: nat)
      requires Valid() && num == First()
      modifies this`back, this`size
      ensures Valid() && Pending() == old(Pending())[num..] && size == old(size) - num && front == old(front)
      ensures First() == size && (size > 0 ==> back == 0)
      ensures size == 0 ==> back == front
    {
      HeldDrop(tasks[..], back, size, num);
      size := size - num;
      back := Advance32(back, num, tasks.Length);
    }

    /** The end of a round of events: whatever is buffered is submitted, and the flag is set again. */
    method Reset() returns (ghost taken: nat)
      requires Valid()
      modifies this`flag, this`back, this`size, pool
      ensures Valid() && flag && Pending() == [] && taken <= |old(Pending())|
      ensures pool.offers == old(pool.offers) + Offered(old(Pending()), old(First()), taken)
      ensures pool.submitted == old(pool.submitted) + Committed(old(Pending()), old(First()), taken).submitted
      ensures pool.reenabled == old(pool.reenabled) + Ctxs(Committed(old(Pending()), old(First()), taken).reenabled)
    {
      taken := Commit();
      flag := true;
    }
  }
}

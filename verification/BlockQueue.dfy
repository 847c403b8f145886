/**
 TPBlockQueue: a bounded FIFO over a circular list of preallocated nodes.  A slot of the block is
 either dead memory or holds a live object; constructing over a live object, or destroying dead
 memory, is ruled out by preconditions.  Every method below is one critical section of the mutex.
 */
module BlockQueue {
  import opened Words

  datatype Slot<T> = Dead | Live(value: T)

  /** What is done to the condition variable after the mutex is released. */
  datatype Notify = NotifyNone | NotifyOne | NotifyAll

  datatype Option<T> = None | Some(value: T)

  /** The links of the circular list that init builds. */
  predicate Circular(next: seq<nat>)
  {
    next != [] && forall i :: 0 <= i < |next| ==> next[i] == if i + 1 < |next| then i + 1 else 0
  }

  /** The node reached from `p` by following `k` links. */
  function Follow(next: seq<nat>, p: nat, k: nat): nat
    requires Circular(next) && p < |next|
    decreases k
  {
    if k == 0 then p else Follow(next, next[p], k - 1)
  }

  lemma {:induction false} FollowIsStep(next: seq<nat>, p: nat, k: nat)
    requires Circular(next) && p < |next| && k <= |next|
    ensures Follow(next, p, k) == Step(p, k, |next|)
    decreases k
  {
    if k > 0 {
      FollowIsStep(next, next[p], k - 1);
    }
  }

  /** The size init asks malloc for when the nodes need `bytes`: computed in 32 bits, rounded up to 64. */
  function BlockBytes(bytes: nat): nat
  {
    (bytes % TWO_32 + 63) % TWO_32 / 64 * 64
  }

  /** The block is large enough for its nodes exactly up to 2^32 - 64 bytes. */
  lemma BlockFitsIff(bytes: nat)
    ensures bytes <= BlockBytes(bytes) <==> bytes <= TWO_32 - 64
  {
    if bytes <= TWO_32 - 64 {
      assert BlockBytes(bytes) == (bytes + 63) / 64 * 64;
    } else if bytes < TWO_32 {
      assert BlockBytes(bytes) == (bytes + 63 - TWO_32) / 64 * 64 == 0;
    } else {
      assert BlockBytes(bytes) < TWO_32;
    }
  }

  /** Exactly the `size` slots from `head` on hold live objects. */
  ghost predicate Occupied<T>(s: seq<Slot<T>>, head: nat, size: nat)
  {
    && head < |s| && size <= |s|
    && (forall i :: 0 <= i < size ==> s[Step(head, i, |s|)].Live?)
    && (forall i :: size <= i < |s| ==> s[Step(head, i, |s|)].Dead?)
  }

  /** The live objects, oldest first. */
  ghost function Values<T>(s: seq<Slot<T>>, head: nat, size: nat): (v: seq<T>)
    requires Occupied(s, head, size)
    ensures |v| == size
  {
    seq(size, i requires 0 <= i < size => s[Step(head, i, |s|)].value)
  }

  /** The live objects are `values`, from slot `head` on. */
  ghost predicate Queued<T>(s: seq<Slot<T>>, head: nat, values: seq<T>)
  {
    Occupied(s, head, |values|) && Values(s, head, |values|) == values
  }

  /** Constructing in the slot behind the last live object appends. */
  lemma ConstructAppends<T>(s: seq<Slot<T>>, head: nat, size: nat, x: T)
    requires Occupied(s, head, size) && size < |s|
    ensures var at := Step(head, size, |s|);
            && s[at].Dead? && Occupied(s[at := Live(x)], head, size + 1)
            && Values(s[at := Live(x)], head, size + 1) == Values(s, head, size) + [x]
  {
  }

  /** Destroying the oldest live object drops it. */
  lemma DestroyDrops<T>(s: seq<Slot<T>>, head: nat, size: nat)
    requires Occupied(s, head, size) && size > 0
    ensures s[head].Live? && s[head].value == Values(s, head, size)[0]
    ensures Occupied(s[head := Dead], Step(head, 1, |s|), size - 1)
    ensures Values(s[head := Dead], Step(head, 1, |s|), size - 1) == Values(s, head, size)[1..]
  {
    assert s[Step(head, 0, |s|)].Live?;
    var t := s[head := Dead];
    forall i | 0 <= i < |s|
      ensures Step(Step(head, 1, |s|), i, |s|) == if i + 1 < |s| then Step(head, i + 1, |s|) else head
    {
    }
  }

  /** As much of `xs` as fits goes to the back of a queue of `capacity` elements. */
  function PushUpTo<T>(q: seq<T>, xs: seq<T>, capacity: nat): seq<T>
    requires |q| <= capacity
  {
    q + xs[..Min(|xs|, capacity - |q|)]
  }

  lemma ConcatAssoc<T>(a: seq<T>, b: seq<T>, c: seq<T>)
    ensures a + b + c == a + (b + c)
  {
  }

  lemma Took<T>(gone: seq<T>, xs: seq<T>, rest: seq<T>)
    requires rest != []
    ensures xs + rest == xs + [rest[0]] + rest[1..]
    ensures gone + xs + [rest[0]] == gone + (xs + [rest[0]])
  {
  }

  lemma NoneYet<T>(all: seq<T>, log: seq<T>, xs: seq<T>)
    ensures all == all + xs[..0] && log == log + xs[..0]
  {
  }

  lemma OneMore<T>(all: seq<T>, xs: seq<T>, i: nat)
    requires i < |xs|
    ensures all + xs[..i] + [xs[i]] == all + xs[..i + 1]
  {
  }

  lemma NoneTaken<T>(gone: seq<T>, all: seq<T>)
    ensures gone == gone + [] && all == [] + all
  {
  }

  lemma AllTaken<T>(all: seq<T>, xs: seq<T>, rest: seq<T>)
    requires all == xs + rest && |rest| == 0
    ensures xs == all
  {
  }

  lemma PushesOne<T>(gone: seq<T>, q: seq<T>, x: T, capacity: nat)
    requires |q| < capacity
    ensures PushUpTo(q, [x], capacity) == q + [x] && gone + q + [x] == gone + (q + [x])
  {
  }

  /** What a queue and a pool ask of the machine and may be refused: memory, and the number of cores. */
  class Machine {
    ghost var refusals: nat

    constructor ()
      ensures refusals == 0
    {
      refusals := 0;
    }

    method Grant() returns (ok: bool)
      modifies this
      ensures refusals == old(refusals) + if ok then 0 else 1
    {
      ok := *;
      refusals := refusals + if ok then 0 else 1;
    }
  }

  class TPBlockQueue<T> {
    var memoryBlock: bool          // whether the block is allocated
    var next: array<nat>           // node[i].next
    var slots: array<Slot<T>>      // node[i].data
    var isStopped: bool
    var size: nat
    var maxSize: nat
    var dataListHead: nat
    var dataListTail: nat
    ghost var built: seq<T>        // every element ever constructed in a slot, in order
    ghost var gone: seq<T>         // every element ever destroyed, in order

    /** The nodes form the circle init built, the tail is the head advanced by `size` links, and every
        element that was constructed either has been destroyed, once and in order, or is still queued. */
    ghost predicate Valid()
      reads this, next, slots
    {
      if memoryBlock then
        && next.Length == slots.Length == maxSize && Circular(next[..])
        && Occupied(slots[..], dataListHead, size)
        && dataListTail == Step(dataListHead, size, maxSize)
        && built == gone + Contents()
      else built == gone
    }

    ghost function Contents(): seq<T>
      reads this, slots
      requires memoryBlock ==> Occupied(slots[..], dataListHead, size)
    {
      if memoryBlock then Values(slots[..], dataListHead, size) else []
    }

    /** The tail is where following `size` links from the head leads. */
    lemma TailFollowsHead()
      requires Valid() && memoryBlock
      ensures Follow(next[..], dataListHead, size) == dataListTail
      ensures size < maxSize ==> slots[dataListTail].Dead?
      ensures size > 0 ==> slots[dataListHead].Live?
    {
      FollowIsStep(next[..], dataListHead, size);
      if size < maxSize {
        assert slots[..][Step(dataListHead, size, maxSize)].Dead?;
      }
      if size > 0 {
        assert slots[..][Step(dataListHead, 0, maxSize)].Live?;
      }
    }

    constructor ()
      ensures Valid() && !memoryBlock && !isStopped && built == []
    {
      memoryBlock, isStopped, built, gone := false, false, [], [];
      next, slots := new nat[0], new Slot<T>[0];
    }

    /** Builds the circle; false exactly when there already is a block, the capacity is zero, or malloc fails. */
    method Init(os: Machine, capacity: nat) returns (ok: bool)
      requires Valid()
      modifies this, os
      ensures ok <==> !old(memoryBlock) && capacity > 0 && os.refusals == old(os.refusals)
      ensures old(os.refusals) <= os.refusals
      ensures Valid() && built == old(built) && gone == old(gone) && isStopped == old(isStopped)
      ensures ok ==> !old(memoryBlock) && memoryBlock && maxSize == capacity > 0 && Contents() == []
      ensures ok ==> fresh(next) && fresh(slots)
      ensures !ok ==> memoryBlock == old(memoryBlock) && next == old(next) && slots == old(slots)
                      && Contents() == old(Contents())
    {
      if memoryBlock || capacity == 0 {
        return false;
      }
      var granted := os.Grant();
      if !granted {
        return false;
      }
      SetUp(capacity);
      ok := true;
    }

    /** The part of init behind malloc. */
    method SetUp(capacity: nat)
      requires Valid() && !memoryBlock && capacity > 0
      modifies this
      ensures Valid() && built == old(built) && gone == old(gone) && isStopped == old(isStopped)
      ensures memoryBlock && maxSize == capacity && Contents() == [] && fresh(next) && fresh(slots)
    {
      next, slots := BuildNodes(capacity);
      size, maxSize, dataListHead, dataListTail := 0, capacity, 0, 0;
      memoryBlock := true;
    }

    /** The nodes of a fresh block: raw memory, linked into a circle. */
    static method BuildNodes(capacity: nat) returns (next: array<nat>, slots: array<Slot<T>>)
      requires capacity > 0
      ensures fresh(next) && fresh(slots) && next.Length == slots.Length == capacity
      ensures Circular(next[..]) && forall i :: 0 <= i < capacity ==> slots[i].Dead?
    {
      next := new nat[capacity];
      slots := new Slot<T>[capacity](_ => Dead);
      for i := 0 to capacity - 1
        invariant forall j :: 0 <= j < i ==> next[j] == j + 1
        invariant forall j :: 0 <= j < capacity ==> slots[j].Dead?
      {
        next[i] := i + 1;
      }
      next[capacity - 1] := 0;
    }

    /** Constructs an element in place: the slot must be dead. */
    method Construct(at: nat, x: T)
      requires at < slots.Length && slots[at].Dead?
      modifies slots, this`built
      ensures slots[..] == old(slots[..])[at := Live(x)] && built == old(built) + [x]
    {
      slots[at] := Live(x);
      built := built + [x];
    }

    /** Moves an element out of its slot and destroys what is left: the slot must be live. */
    method Destroy(at: nat) returns (x: T)
      requires at < slots.Length && slots[at].Live?
      modifies slots, this`gone
      ensures slots[..] == old(slots[..])[at := Dead] && x == old(slots[at].value) && gone == old(gone) + [x]
    {
      x := slots[at].value;
      slots[at] := Dead;
      gone := gone + [x];
    }

    /** One round of every loop that takes elements out: empties the slot at `at`, the oldest of the live
        ones, and follows the link to the next. */
    method TakeAt(at: nat, ghost values: seq<T>) returns (x: T, after: nat)
      requires next.Length == slots.Length && Circular(next[..]) && values != [] && Queued(slots[..], at, values)
      modifies slots, this`gone
      ensures x == values[0] && gone == old(gone) + [x] && after == Step(at, 1, slots.Length)
      ensures Queued(slots[..], after, values[1..])
    {
      DestroyDrops(slots[..], at, |values|);
      x := Destroy(at);
      after := next[at];
    }

    /** One round of every loop that puts elements in: constructs in the slot `at` behind the live ones
        from `head` on, and follows the link to the next. */
    method PutAt(at: nat, x: T, ghost head: nat, ghost values: seq<T>) returns (after: nat)
      requires next.Length == slots.Length && Circular(next[..]) && Queued(slots[..], head, values)
      requires |values| < slots.Length && at == Step(head, |values|, slots.Length)
      modifies slots, this`built
      ensures built == old(built) + [x] && after == Step(head, |values| + 1, slots.Length)
      ensures Queued(slots[..], head, values + [x])
    {
      ConstructAppends(slots[..], head, |values|, x);
      Construct(at, x);
      after := next[at];
    }

    /** push and emplace: appends one element unless the queue is full, then wakes one waiter. */
    method Push(x: T) returns (ok: bool, wake: Notify)
      requires Valid() && memoryBlock
      modifies this`size, this`dataListTail, this`built, slots
      ensures Valid() && ok == (|old(Contents())| < maxSize)
      ensures Contents() == PushUpTo(old(Contents()), [x], maxSize)
      ensures wake == if ok then NotifyOne else NotifyNone
      ensures built == old(built) + if ok then [x] else []
    {
      if size == maxSize {
        return false, NotifyNone;
      }
      PushesOne(gone, Contents(), x, maxSize);
      var after := PutAt(dataListTail, x, dataListHead, Contents());
      size := size + 1;
      dataListTail := after;
      return true, NotifyOne;
    }

    /** Appends as many of `elements` as fit; wakes one waiter for one element, all for more. */
    method PushBulk(elements: seq<T>) returns (n: nat, wake: Notify)
      requires Valid() && memoryBlock
      modifies this`size, this`dataListTail, this`built, slots
      ensures Valid() && n == Min(|elements|, maxSize - |old(Contents())|)
      ensures Contents() == PushUpTo(old(Contents()), elements, maxSize)
      ensures wake == if n == 0 then NotifyNone else if n == 1 then NotifyOne else NotifyAll
      ensures built == old(built) + elements[..n]
    {
      if |elements| == 0 {
        return 0, NotifyNone;
      }
      var available := maxSize - size;
      if available == 0 {
        return 0, NotifyNone;
      }
      n := Min(|elements|, available);
      Append(elements[..n]);
      wake := if n == 1 then NotifyOne else NotifyAll;
    }

    /** Appends elements that fit. */
    method Append(elements: seq<T>)
      requires Valid() && memoryBlock && size + |elements| <= maxSize
      modifies this`size, this`dataListTail, this`built, slots
      ensures Valid() && Contents() == old(Contents()) + elements && built == old(built) + elements
    {
      ConcatAssoc(gone, Contents(), elements);
      FillTail(elements);
      size := size + |elements|;
    }

    /** The constructing loop of pushBulk; the size is still the old one. */
    method FillTail(elements: seq<T>)
      requires Valid() && memoryBlock && size + |elements| <= maxSize
      modifies this`dataListTail, this`built, slots
      ensures Occupied(slots[..], dataListHead, size + |elements|)
      ensures dataListTail == Step(dataListHead, size + |elements|, maxSize)
      ensures Values(slots[..], dataListHead, size + |elements|) == old(Contents()) + elements
      ensures built == old(built) + elements
    {
      ghost var all, log := Contents(), built;
      ghost var now := all;
      NoneYet(all, log, elements);
      for i := 0 to |elements|
        invariant |now| == size + i && Queued(slots[..], dataListHead, now)
        invariant dataListTail == Step(dataListHead, |now|, maxSize)
        invariant now == all + elements[..i] && built == log + elements[..i]
      {
        OneMore(all, elements, i);
        OneMore(log, elements, i);
        dataListTail := PutAt(dataListTail, elements[i], dataListHead, now);
        now := now + [elements[i]];
      }
      assert elements[..|elements|] == elements;
    }

    /** Takes the oldest element, if there is one. */
    method Pop() returns (r: Option<T>)
      requires Valid() && memoryBlock
      modifies this`size, this`dataListHead, this`gone, slots
      ensures Valid() && (r == None <==> old(Contents()) == [])
      ensures r == None ==> Contents() == [] && gone == old(gone)
      ensures r != None ==> old(Contents()) == [r.value] + Contents() && gone == old(gone) + [r.value]
    {
      if size == 0 {
        return None;
      }
      var xs := DrainHead(1);
      assert xs == [xs[0]];
      r := Some(xs[0]);
    }

    /** The extracting loop of every pop, and the size update that goes with it. */
    method DrainHead(n: nat) returns (xs: seq<T>)
      requires Valid() && memoryBlock && n <= size
      modifies this`size, this`dataListHead, this`gone, slots
      ensures Valid() && |xs| == n && old(Contents()) == xs + Contents() && gone == old(gone) + xs
    {
      xs := TakeOut(n);
      size := size - n;
    }

    /** The extracting loop itself; the size is still the old one. */
    method TakeOut(n: nat) returns (xs: seq<T>)
      requires Valid() && memoryBlock && n <= size
      modifies this`dataListHead, this`gone, slots
      ensures |xs| == n && gone == old(gone) + xs && Occupied(slots[..], dataListHead, size - n)
      ensures dataListTail == Step(dataListHead, size - n, maxSize)
      ensures old(Contents()) == xs + Values(slots[..], dataListHead, size - n)
      ensures built == gone + Values(slots[..], dataListHead, size - n)
    {
      ghost var g, all := gone, Contents();
      ghost var rest := all;
      xs := [];
      NoneTaken(g, all);
      for i := 0 to n
        invariant |xs| == i && |rest| == size - i && gone == g + xs && all == xs + rest
        invariant Queued(slots[..], dataListHead, rest) && dataListTail == Step(dataListHead, |rest|, maxSize)
      {
        Took(g, xs, rest);
        var x;
        x, dataListHead := TakeAt(dataListHead, rest);
        rest := rest[1..];
        xs := xs + [x];
      }
      ConcatAssoc(g, xs, rest);
    }

    /** Takes up to `count` of the oldest elements, without waiting. */
    method PopBulk(count: nat) returns (xs: seq<T>)
      requires Valid() && memoryBlock
      modifies this`size, this`dataListHead, this`gone, slots
      ensures Valid() && |xs| == Min(count, |old(Contents())|)
      ensures old(Contents()) == xs + Contents() && gone == old(gone) + xs
    {
      if count == 0 || size == 0 {
        NoneTaken(gone, Contents());
        return [];
      }
      xs := DrainHead(Min(count, size));
    }

    /** One look at the wait predicate of the untimed wait_popBulk, under the mutex: it sleeps on exactly
        while the queue is empty and not stopped, and returns nothing only on an empty stopped queue. */
    method WaitPopBulk(count: nat) returns (asleep: bool, xs: seq<T>)
      requires Valid() && memoryBlock
      modifies this`size, this`dataListHead, this`gone, slots
      ensures Valid() && (asleep <==> count > 0 && old(Contents()) == [] && !isStopped)
      ensures |xs| == Min(count, |old(Contents())|)
      ensures old(Contents()) == xs + Contents() && gone == old(gone) + xs
    {
      asleep, xs := false, [];
      if count == 0 {
        return;
      }
      if size == 0 && !isStopped {
        return true, [];
      }
      if size == 0 {
        return;
      }
      xs := DrainHead(Min(count, size));
    }

    /** The timed form.  It gives up only when the predicate is still false at the deadline, so an element
        pushed before that is taken even when the time is over. */
    method WaitPopBulkFor(count: nat, expired: bool) returns (asleep: bool, xs: seq<T>)
      requires Valid() && memoryBlock
      modifies this`size, this`dataListHead, this`gone, slots
      ensures Valid() && (asleep <==> count > 0 && old(Contents()) == [] && !isStopped && !expired)
      ensures |xs| == Min(count, |old(Contents())|)
      ensures old(Contents()) == xs + Contents() && gone == old(gone) + xs
    {
      asleep, xs := false, [];
      if count == 0 {
        return;
      }
      var success := size > 0 || isStopped;
      if !success && !expired {
        return true, [];
      }
      if !success || size == 0 {
        return;
      }
      xs := DrainHead(Min(count, size));
    }

    /** Stops waiting for good: every sleeper is woken and no later wait sleeps. */
    method StopWait() returns (wake: Notify)
      requires Valid()
      modifies this`isStopped
      ensures Valid() && isStopped && Contents() == old(Contents()) && wake == NotifyAll
    {
      isStopped := true;
      wake := NotifyAll;
    }

    /** Destroys what is still queued, each element once, and frees the block. */
    method Release()
      requires Valid()
      modifies this`memoryBlock, this`isStopped, this`gone, slots
      ensures Valid() && !memoryBlock && gone == built == old(gone) + old(Contents())
      ensures old(memoryBlock) ==> forall i :: 0 <= i < slots.Length ==> slots[i].Dead?
      ensures isStopped == (old(isStopped) && !old(memoryBlock))
    {
      if memoryBlock {
        ghost var end := DestroyAll();
        NoneLive(slots[..], end);
        isStopped := false;
        memoryBlock := false;
      }
    }

    /** The destroying loop of release. */
    method DestroyAll() returns (ghost end: nat)
      requires Valid() && memoryBlock
      modifies this`gone, slots
      ensures gone == old(gone) + old(Contents()) && Occupied(slots[..], end, 0)
    {
      ghost var g, all := gone, Contents();
      ghost var xs, rest := [], all;
      var current := dataListHead;
      NoneTaken(g, all);
      for i := 0 to size
        invariant |xs| == i && |rest| == size - i && gone == g + xs && all == xs + rest
        invariant Queued(slots[..], current, rest)
      {
        Took(g, xs, rest);
        var x, after := TakeAt(current, rest);
        current, xs, rest := after, xs + [x], rest[1..];
      }
      AllTaken(all, xs, rest);
      end := current;
    }

    /** Runs one call on an allocated queue; `xs` is what it hands to its caller. */
    method Call(op: QueueOp<T>) returns (xs: seq<T>)
      requires Valid() && memoryBlock
      modifies this`size, this`dataListHead, this`dataListTail, this`isStopped, this`built, this`gone, slots
      ensures Valid() && memoryBlock && gone == old(gone) + xs && maxSize == old(maxSize)
      ensures xs == Handed(op, old(Contents())) && Contents() == After(op, old(Contents()), maxSize)
      ensures isStopped == (old(isStopped) || op.Stop?)
    {
      xs := [];
      match op {
        case PushOne(x) => var _, _ := Push(x);
        case PushMany(elements) => var _, _ := PushBulk(elements);
        case PopOne =>
          var r := Pop();
          if r != None {
            xs := [r.value];
          }
        case PopMany(n) => xs := PopBulk(n);
        case Wait(n) =>
          var asleep;
          asleep, xs := WaitPopBulk(n);
        case WaitFor(n, expired) =>
          var asleep;
          asleep, xs := WaitPopBulkFor(n, expired);
        case Stop => var _ := StopWait();
      }
    }

    /** A whole life of the queue, whatever is called on it and in whatever order: the slots and links do what a
        bounded sequence would do, so what comes out is a prefix of what went in, in the same order; and by the end
        every element that was constructed has been destroyed exactly once. */
    method Lifetime(os: Machine, capacity: nat, ops: seq<QueueOp<T>>) returns (out: seq<T>)
      requires Valid() && !memoryBlock && built == []
      modifies this, os
      ensures Valid() && !memoryBlock && out <= built && gone == built
      ensures out == if 0 < capacity && os.refusals == old(os.refusals) then AllHanded(ops, capacity) else []
    {
      out := [];
      var ok := Init(os, capacity);
      if ok {
        for i := 0 to |ops|
          invariant Valid() && memoryBlock && gone == out && fresh(slots) && maxSize == capacity
          invariant capacity > 0 && os.refusals == old(os.refusals)
          invariant out == AllHanded(ops[..i], capacity) && Contents() == AfterAll(ops[..i], capacity)
        {
          var xs := Call(ops[i]);
          out := out + xs;
          OneMoreOp(ops, i, capacity);
        }
        assert ops[..|ops|] == ops;
        Release();
      }
    }
  }

  datatype QueueOp<T> =
    | PushOne(x: T) | PushMany(xs: seq<T>) | PopOne | PopMany(n: nat)
    | Wait(n: nat) | WaitFor(n: nat, expired: bool) | Stop

  /** The queue as a bounded sequence: what an operation hands to its caller, and what it leaves. */
  function Handed<T>(op: QueueOp<T>, q: seq<T>): seq<T>
  {
    match op
    case PushOne(_) => []
    case PushMany(_) => []
    case PopOne => q[..Min(1, |q|)]
    case PopMany(n) => q[..Min(n, |q|)]
    case Wait(n) => q[..Min(n, |q|)]
    case WaitFor(n, _) => q[..Min(n, |q|)]
    case Stop => []
  }

  function After<T>(op: QueueOp<T>, q: seq<T>, capacity: nat): (r: seq<T>)
    requires |q| <= capacity
    ensures |r| <= capacity
  {
    match op
    case PushOne(x) => PushUpTo(q, [x], capacity)
    case PushMany(xs) => PushUpTo(q, xs, capacity)
    case _ => q[|Handed(op, q)|..]
  }

  function AfterAll<T>(ops: seq<QueueOp<T>>, capacity: nat): (q: seq<T>)
    ensures |q| <= capacity
  {
    if ops == [] then [] else After(ops[|ops| - 1], AfterAll(ops[..|ops| - 1], capacity), capacity)
  }

  function AllHanded<T>(ops: seq<QueueOp<T>>, capacity: nat): seq<T>
  {
    if ops == [] then []
    else
      var before := ops[..|ops| - 1];
      AllHanded(before, capacity) + Handed(ops[|ops| - 1], AfterAll(before, capacity))
  }

  lemma OneMoreOp<T>(ops: seq<QueueOp<T>>, i: nat, capacity: nat)
    requires i < |ops|
    ensures AfterAll(ops[..i + 1], capacity) == After(ops[i], AfterAll(ops[..i], capacity), capacity)
    ensures AllHanded(ops[..i + 1], capacity)
            == AllHanded(ops[..i], capacity) + Handed(ops[i], AfterAll(ops[..i], capacity))
  {
    assert ops[..i + 1][..i] == ops[..i];
  }

  lemma NoneLive<T>(s: seq<Slot<T>>, head: nat)
    requires Occupied(s, head, 0)
    ensures forall i :: 0 <= i < |s| ==> s[i].Dead?
  {
    forall i | 0 <= i < |s| ensures s[i].Dead? {
      assert s[Step(head, if head <= i then i - head else i + |s| - head, |s|)].Dead?;
    }
  }
}

/**
 SPSockTcp: who owns a connection.  A connection is armed in epoll, reported to its IO loop, buffered
 for the thread pool, refused by it, queued, running, on the close list, or being closed.  The main
 thread, the IO loops and the pool's workers take steps in any order.
 */
module Lifecycle {
  import opened Bags
  import opened BatchRing
  import opened LoadBalance
  import opened Runs
  import opened Words

  type Fd = nat

  /** The IO loops, EPOLL_MAX_EVENT_BSIZE, THREADPOOL_BATCH_SIZE_SUBMIT, and which of the two callbacks are set. */
  datatype Setup = Setup(loops: nat, maxEvents: nat, batch: nat, hasRead: bool, hasWrite: bool)

  datatype State = State(
    conns: map<Fd, nat>,       // the connections map: the IO loop of each controller
    open: set<Fd>,             // connection descriptors the kernel has open
    armed: set<Fd>,            // enabled one-shot registrations
    counts: seq<nat>,          // loopInfo[l].count
    polling: seq<bool>,        // the loop is in epoll_wait
    events: seq<seq<Fd>>,      // reported to the loop, not yet dispatched
    batch: seq<seq<Fd>>,       // buffered in its task ring
    refused: seq<seq<Fd>>,     // refused by the pool, not yet re-enabled
    flags: seq<bool>,          // UtilTaskTcp's flag
    backs: seq<nat>,           // UtilTaskTcp's back
    committing: seq<bool>,     // the first piece of the batch has been submitted, the wrapped rest has not
    queued: multiset<Fd>,      // in the pool's queues
    running: multiset<Fd>,     // in a callback on a worker that has yet to hand it on
    returning: multiset<Fd>,   // in a callback that has enabled or closed it and not returned: no owner
    closeList: seq<Fd>,        // cList
    closing: seq<Fd>)          // taken off cList by HandleCloseList, not yet closed

  /** What epoll reported. */
  datatype Event = Hangup | Readable | Writable

  /** What the socket calls and the water mark make of an event: close, run the callback, or wait for more. */
  datatype Verdict = Fail | Enough | Short

  /** `ok` is whether epoll_ctl succeeds. */
  datatype Action =
    | Connect(fd: Fd, initOk: bool, addOk: bool)
    | Poll(l: nat, ready: seq<Fd>)
    | Dispatch(l: nat, event: Event, verdict: Verdict, ok: bool)
    | Commit(l: nat, taken: nat)      // one submission of commit: the piece in front of the end of the ring
    | Renable(l: nat, ok: bool)
    | EndRound(l: nat)
    | Begin(fd: Fd)
    | Enable(fd: Fd, ok: bool)        // a callback's first successful enableEvents, or one that fails
    | Close(fd: Fd)                   // a callback's close
    | EnableAgain(fd: Fd, ok: bool)   // the same from a callback that has handed its connection on before
    | CloseAgain(fd: Fd)
    | Return(fd: Fd, handedOn: bool)  // a callback returns
    | SweepBegin
    | SweepOne

  function Init(c: Setup): State
  {
    State(map[], {}, {}, seq(c.loops, _ => 0), seq(c.loops, _ => true), seq(c.loops, _ => []),
          seq(c.loops, _ => []), seq(c.loops, _ => []), seq(c.loops, _ => true), seq(c.loops, _ => 0),
          seq(c.loops, _ => false), multiset{}, multiset{}, multiset{}, [], [])
  }

  ghost predicate Typed(c: Setup, s: State)
  {
    && 0 < c.loops && 0 < c.batch < TWO_31
    && |s.counts| == |s.polling| == |s.events| == |s.batch| == |s.refused| == |s.flags| == |s.backs| == c.loops
    && |s.committing| == c.loops
    && (forall l :: 0 <= l < c.loops ==> |s.batch[l]| <= c.batch && s.backs[l] < c.batch)
    && (forall l :: 0 <= l < c.loops && s.committing[l] ==> s.batch[l] != [])
    && (forall fd :: fd in s.conns ==> s.conns[fd] < c.loops)
  }

  /** At the start of a round nothing of the previous one is left, and the flag is set. */
  ghost predicate Settled(c: Setup, s: State)
    requires Typed(c, s)
  {
    forall l :: 0 <= l < c.loops && s.polling[l] ==>
      s.events[l] == [] && s.batch[l] == [] && s.refused[l] == [] && s.flags[l]
  }

  function One(b: bool): nat
  {
    if b then 1 else 0
  }

  /** In how many places connection `x` is. */
  function Owners(s: State, x: Fd): nat
  {
    One(x in s.armed) + Bag(s.events)[x] + Bag(s.batch)[x] + Bag(s.refused)[x]
    + s.queued[x] + s.running[x] + multiset(s.closeList)[x] + multiset(s.closing)[x]
  }

  /** Every connection in the map has exactly one owner, and nothing else has any. */
  ghost predicate Owned(s: State)
  {
    forall x {:trigger Owners(s, x)} :: Owners(s, x) == One(x in s.conns)
  }

  /** The connections of loop `l`. */
  function On(conns: map<Fd, nat>, l: nat): set<Fd>
  {
    set fd | fd in conns && conns[fd] == l
  }

  /** Every loop's counter is the number of its connections. */
  ghost predicate Counted(c: Setup, s: State)
    requires Typed(c, s)
  {
    forall l {:trigger On(s.conns, l)} :: 0 <= l < c.loops ==> s.counts[l] == |On(s.conns, l)|
  }

  ghost predicate Inv(c: Setup, s: State)
  {
    Typed(c, s) && Settled(c, s) && s.conns.Keys == s.open && Counted(c, s) && Owned(s)
  }

  function Arm(s: State, fd: Fd): State
  {
    s.(armed := s.armed + {fd})
  }

  /** ActiveClose: out of epoll, onto the close list. */
  function ActiveClose(s: State, fd: Fd): State
  {
    s.(armed := s.armed - {fd}, closeList := s.closeList + [fd])
  }

  /** renableProc: arms the connection again, or closes it when that fails. */
  function Rearm(s: State, fd: Fd, ok: bool): State
  {
    if ok then Arm(s, fd) else ActiveClose(s, fd)
  }

  /** UtilTaskTcp::append up to the commit: with the flag cleared the connection is re-enabled, and then
      buffered all the same. */
  function Buffer(s: State, l: nat, fd: Fd, ok: bool): State
    requires l < |s.batch| == |s.flags|
  {
    (if s.flags[l] then s else Rearm(s, fd, ok)).(batch := s.batch[l := s.batch[l] + [fd]])
  }

  /** HandleRead and HandleWrite, for the callback they run (`has`) and the other one (`other`), with the
      ActiveClose that IOEventLoop adds when they return false.  Without the callback the enable result
      is taken the wrong way round. */
  function Handled(s: State, l: nat, fd: Fd, has: bool, other: bool, verdict: Verdict, ok: bool): State
    requires l < |s.batch| == |s.flags|
  {
    if has then
      match verdict
      case Fail => ActiveClose(s, fd)
      case Enough => Buffer(s, l, fd, ok)
      case Short => Rearm(s, fd, ok)
    else if other then
      if ok then ActiveClose(Arm(s, fd), fd) else s
    else ActiveClose(s, fd)
  }

  function Dispatched(c: Setup, s: State, l: nat, event: Event, verdict: Verdict, ok: bool): State
    requires Typed(c, s) && l < c.loops && s.events[l] != []
  {
    var fd := s.events[l][0];
    var t := s.(events := s.events[l := s.events[l][1..]]);
    match event
    case Hangup => ActiveClose(t, fd)
    case Readable => Handled(t, l, fd, c.hasRead, c.hasWrite, verdict, ok)
    case Writable => Handled(t, l, fd, c.hasWrite, c.hasRead, verdict, ok)
  }

  /** The first piece of a commit: the tasks in front of the end of the ring. */
  function Piece(c: Setup, s: State, l: nat): (first: nat)
    requires Typed(c, s) && l < c.loops
    ensures first <= |s.batch[l]|
  {
    Min(|s.batch[l]|, c.batch - s.backs[l])
  }

  /** One submission of commit, of which the pool takes `taken` tasks.  When that is not the whole piece the ring
      is emptied; otherwise commit goes on with what is left. */
  function Submitted(c: Setup, s: State, l: nat, taken: nat): State
    requires Typed(c, s) && l < c.loops && taken <= Piece(c, s, l)
  {
    var p, first := s.batch[l], Piece(c, s, l);
    if taken < first then
      s.(queued := s.queued + multiset(p[..taken]), refused := s.refused[l := p[taken..first]],
         batch := s.batch[l := []], backs := s.backs[l := Step(s.backs[l], |p|, c.batch)],
         flags := s.flags[l := false], committing := s.committing[l := false])
    else
      s.(queued := s.queued + multiset(p[..first]), batch := s.batch[l := p[first..]],
         backs := s.backs[l := Step(s.backs[l], first, c.batch)], committing := s.committing[l := first < |p|])
  }

  /** HandleConnect.  When init fails it has not stored the descriptor, so CloseConnection closes and erases
      number 0, the value the field was initialised with. */
  function Accepted(c: Setup, s: State, fd: Fd, initOk: bool, addOk: bool): State
    requires Typed(c, s)
  {
    if fd in s.conns then s
    else
      var l := Least(s.counts);
      if initOk then
        if addOk then
          s.(conns := s.conns[fd := l], open := s.open + {fd}, armed := s.armed + {fd},
             counts := s.counts[l := s.counts[l] + 1])
        else s
      else
        s.(conns := s.conns[fd := l] - {0}, open := s.open + {fd} - {0}, armed := s.armed - {0})
  }

  /** CloseConnection and the decrement behind it, for the head of the list being closed. */
  function Swept(c: Setup, s: State): State
    requires Typed(c, s) && s.closing != [] && s.closing[0] in s.conns && s.counts[s.conns[s.closing[0]]] > 0
  {
    var fd := s.closing[0];
    var l := s.conns[fd];
    s.(conns := s.conns - {fd}, open := s.open - {fd}, armed := s.armed - {fd},
       counts := s.counts[l := s.counts[l] - 1], closing := s.closing[1..])
  }

  /** What epoll_wait may report to loop `l`: some of its armed connections, each once. */
  ghost predicate CanReport(s: State, l: nat, ready: seq<Fd>)
  {
    forall x {:trigger multiset(ready)[x]} ::
      multiset(ready)[x] <= One(x in s.armed && x in s.conns && s.conns[x] == l)
  }

  function Except(a: set<Fd>, ready: seq<Fd>): set<Fd>
  {
    set x | x in a && x !in ready
  }

  ghost predicate Can(c: Setup, s: State, a: Action)
    requires Typed(c, s)
  {
    match a
    case Connect(fd, _, _) => s.closing == [] && fd !in s.open
    case Poll(l, ready) => l < c.loops && s.polling[l] && |ready| <= c.maxEvents && CanReport(s, l, ready)
    case Dispatch(l, _, _, _) =>
      l < c.loops && !s.polling[l] && s.events[l] != [] && s.refused[l] == [] && |s.batch[l]| < c.batch
      && !s.committing[l]
    case Commit(l, taken) =>
      l < c.loops && !s.polling[l] && s.refused[l] == [] && s.batch[l] != [] && taken <= Piece(c, s, l)
      && (|s.batch[l]| == c.batch || s.events[l] == [] || s.committing[l])
    case Renable(l, _) => l < c.loops && !s.polling[l] && s.refused[l] != []
    case EndRound(l) =>
      l < c.loops && !s.polling[l] && s.events[l] == [] && s.batch[l] == [] && s.refused[l] == []
    case Begin(fd) => fd in s.queued
    case Enable(fd, _) => fd in s.running
    case Close(fd) => fd in s.running
    case EnableAgain(fd, _) => fd in s.returning
    case CloseAgain(fd) => fd in s.returning
    case Return(fd, handedOn) => if handedOn then fd in s.returning else fd in s.running
    case SweepBegin => s.closing == []
    case SweepOne => s.closing != [] && s.closing[0] in s.conns && s.counts[s.conns[s.closing[0]]] > 0
  }

  ghost function Apply(c: Setup, s: State, a: Action): State
    requires Typed(c, s) && Can(c, s, a)
  {
    match a
    case Connect(fd, initOk, addOk) => Accepted(c, s, fd, initOk, addOk)
    case Poll(l, ready) =>
      s.(events := s.events[l := ready], armed := Except(s.armed, ready), polling := s.polling[l := false])
    case Dispatch(l, event, verdict, ok) => Dispatched(c, s, l, event, verdict, ok)
    case Commit(l, taken) => Submitted(c, s, l, taken)
    case Renable(l, ok) => Rearm(s.(refused := s.refused[l := s.refused[l][1..]]), s.refused[l][0], ok)
    case EndRound(l) => s.(polling := s.polling[l := true], flags := s.flags[l := true])
    case Begin(fd) => s.(queued := s.queued - multiset{fd}, running := s.running + multiset{fd})
    case Enable(fd, ok) => if ok then Arm(HandedOn(s, fd), fd) else s
    case Close(fd) => ActiveClose(HandedOn(s, fd), fd)
    case EnableAgain(fd, ok) => if ok then Arm(s, fd) else s
    case CloseAgain(fd) => ActiveClose(s, fd)
    case Return(fd, handedOn) => Returned(s, fd, handedOn)
    case SweepBegin => s.(closing := s.closeList, closeList := [])
    case SweepOne => Swept(c, s)
  }

  /** The callback of `fd` is about to hand it on. */
  function HandedOn(s: State, fd: Fd): State
  {
    s.(running := s.running - multiset{fd}, returning := s.returning + multiset{fd})
  }

  /** A callback of `fd` returns, having handed it on or not. */
  function Returned(s: State, fd: Fd, handedOn: bool): State
  {
    if handedOn then s.(returning := s.returning - multiset{fd}) else s.(running := s.running - multiset{fd})
  }

  /** A connection to be buffered needs the flag to be set; one whose event has no callback, but the other
      kind has, needs its enable to succeed. */
  predicate HandsOn(flag: bool, has: bool, other: bool, verdict: Verdict, ok: bool)
  {
    if has then verdict == Enough ==> flag else other ==> ok
  }

  /** The steps that hand a connection on properly. */
  predicate Good(c: Setup, s: State, a: Action)
    requires |s.batch| == |s.flags| == |s.backs| == c.loops
    requires a.Dispatch? || a.Commit? ==> a.l < c.loops
  {
    match a
    case Connect(fd, initOk, _) => initOk || fd == 0
    case Dispatch(l, event, verdict, ok) =>
      && (event == Readable ==> HandsOn(s.flags[l], c.hasRead, c.hasWrite, verdict, ok))
      && (event == Writable ==> HandsOn(s.flags[l], c.hasWrite, c.hasRead, verdict, ok))
    case Commit(l, taken) => !(taken < c.batch - s.backs[l] < |s.batch[l]|)
    case EnableAgain(fd, ok) => ok ==> fd in s.armed
    case CloseAgain(fd) => fd in s.armed
    case Return(_, handedOn) => handedOn
    case _ => true
  }

  lemma HeadCount(q: seq<Fd>, x: Fd)
    requires q != []
    ensures multiset(q)[x] == One(x == q[0]) + multiset(q[1..])[x]
  {
    assert q == [q[0]] + q[1..];
  }

  lemma EventsCount(s: State, l: nat, q: seq<Fd>, x: Fd)
    requires l < |s.events|
    ensures Owners(s.(events := s.events[l := q]), x) + multiset(s.events[l])[x] == Owners(s, x) + multiset(q)[x]
  {
    BagCount(s.events, l, q, x);
  }

  lemma BatchCount(s: State, l: nat, q: seq<Fd>, x: Fd)
    requires l < |s.batch|
    ensures Owners(s.(batch := s.batch[l := q]), x) + multiset(s.batch[l])[x] == Owners(s, x) + multiset(q)[x]
  {
    BagCount(s.batch, l, q, x);
  }

  lemma RefusedCount(s: State, l: nat, q: seq<Fd>, x: Fd)
    requires l < |s.refused|
    ensures Owners(s.(refused := s.refused[l := q]), x) + multiset(s.refused[l])[x] == Owners(s, x) + multiset(q)[x]
  {
    BagCount(s.refused, l, q, x);
  }

  /** Connection `fd` has just been taken out of the one place it was in. */
  ghost predicate InHand(s: State, fd: Fd)
  {
    fd in s.conns && forall x {:trigger Owners(s, x)} :: Owners(s, x) == One(x in s.conns && x != fd)
  }

  lemma ArmOwned(s: State, fd: Fd)
    requires InHand(s, fd)
    ensures Owned(Arm(s, fd))
  {
    forall x ensures Owners(Arm(s, fd), x) == One(x in s.conns) {
      assert Owners(s, x) == One(x in s.conns && x != fd);
    }
  }

  lemma CloseOwned(s: State, fd: Fd)
    requires InHand(s, fd)
    ensures Owned(ActiveClose(s, fd)) && ActiveClose(Arm(s, fd), fd) == ActiveClose(s, fd)
  {
    assert Owners(s, fd) == 0;
    assert s.armed + {fd} - {fd} == s.armed - {fd};
    forall x ensures Owners(ActiveClose(s, fd), x) == One(x in s.conns) {
      assert Owners(s, x) == One(x in s.conns && x != fd);
    }
  }

  lemma RearmOwned(s: State, fd: Fd, ok: bool)
    requires InHand(s, fd)
    ensures Owned(Rearm(s, fd, ok))
  {
    if ok {
      ArmOwned(s, fd);
    } else {
      CloseOwned(s, fd);
    }
  }

  /** Buffering a connection is where it gets its one owner, unless the flag is cleared: then it gets two. */
  lemma BufferOwnedIff(s: State, l: nat, fd: Fd, ok: bool)
    requires InHand(s, fd) && l < |s.batch| == |s.flags|
    ensures Owned(Buffer(s, l, fd, ok)) <==> s.flags[l]
    ensures !s.flags[l] ==> Owners(Buffer(s, l, fd, ok), fd) == 2
  {
    var t := if s.flags[l] then s else Rearm(s, fd, ok);
    if !s.flags[l] {
      RearmOwned(s, fd, ok);
    }
    forall x ensures Owners(Buffer(s, l, fd, ok), x) == Owners(t, x) + One(x == fd) {
      BatchCount(t, l, t.batch[l] + [fd], x);
    }
    if s.flags[l] {
      forall x ensures Owners(Buffer(s, l, fd, ok), x) == One(x in s.conns) {
        assert Owners(s, x) == One(x in s.conns && x != fd);
      }
    } else {
      assert Owners(t, fd) == 1;
      assert Owners(Buffer(s, l, fd, ok), fd) == 2;
    }
  }

  lemma HandledOwnedIff(s: State, l: nat, fd: Fd, has: bool, other: bool, verdict: Verdict, ok: bool)
    requires InHand(s, fd) && l < |s.batch| == |s.flags|
    ensures Owned(Handled(s, l, fd, has, other, verdict, ok)) <==> HandsOn(s.flags[l], has, other, verdict, ok)
  {
    CloseOwned(s, fd);
    if has {
      if verdict == Enough {
        BufferOwnedIff(s, l, fd, ok);
      } else if verdict == Short {
        RearmOwned(s, fd, ok);
      }
    } else if other && !ok {
      assert Owners(s, fd) == 0;
    }
  }

  /** The first event of loop `l` is taken off its list. */
  function Picked(s: State, l: nat): State
    requires l < |s.events| && s.events[l] != []
  {
    s.(events := s.events[l := s.events[l][1..]])
  }

  lemma PickedInHand(s: State, l: nat)
    requires Owned(s) && l < |s.events| && s.events[l] != []
    ensures InHand(Picked(s, l), s.events[l][0])
  {
    var fd, t := s.events[l][0], Picked(s, l);
    forall x ensures Owners(t, x) == One(x in s.conns && x != fd) && fd in s.conns {
      HeadCount(s.events[l], fd);
      HeadCount(s.events[l], x);
      EventsCount(s, l, s.events[l][1..], x);
      EventsCount(s, l, s.events[l][1..], fd);
      assert Owners(s, x) == One(x in s.conns) && Owners(s, fd) == One(fd in s.conns);
    }
    assert Owners(t, fd) == 0;
  }

  /** Dispatching an event keeps single ownership exactly when the flag is set where it matters, and an
      event without its callback gets its enable through. */
  lemma DispatchOwnedIff(c: Setup, s: State, l: nat, event: Event, verdict: Verdict, ok: bool)
    requires Typed(c, s) && Owned(s) && l < c.loops && s.events[l] != []
    ensures Owned(Dispatched(c, s, l, event, verdict, ok)) <==> Good(c, s, Dispatch(l, event, verdict, ok))
  {
    var fd, t := s.events[l][0], Picked(s, l);
    PickedInHand(s, l);
    match event {
      case Hangup => CloseOwned(t, fd);
      case Readable => HandledOwnedIff(t, l, fd, c.hasRead, c.hasWrite, verdict, ok);
      case Writable => HandledOwnedIff(t, l, fd, c.hasWrite, c.hasRead, verdict, ok);
    }
  }

  /** Whether the callback for an event is set. */
  predicate Serves(c: Setup, event: Event)
  {
    (event == Readable && c.hasRead) || (event == Writable && c.hasWrite)
  }

  /** A task appended with the flag cleared: its connection has two owners from then on. */
  lemma TwoOwners(c: Setup, s: State, l: nat, event: Event, ok: bool)
    requires Typed(c, s) && Owned(s) && l < c.loops && s.events[l] != [] && Serves(c, event) && !s.flags[l]
    ensures Owners(Dispatched(c, s, l, event, Enough, ok), s.events[l][0]) == 2
  {
    PickedInHand(s, l);
    BufferOwnedIff(Picked(s, l), l, s.events[l][0], ok);
  }

  /** An event without its callback, the other kind having one, whose enable fails: nobody owns the connection. */
  lemma NoOwner(c: Setup, s: State, l: nat, event: Event, verdict: Verdict)
    requires Typed(c, s) && Owned(s) && l < c.loops && s.events[l] != []
    requires event != Hangup && !Serves(c, event) && (c.hasRead || c.hasWrite)
    ensures var fd, t := s.events[l][0], Dispatched(c, s, l, event, verdict, false);
            fd in t.conns && Owners(t, fd) == 0
  {
    PickedInHand(s, l);
    assert Owners(Picked(s, l), s.events[l][0]) == 0;
  }

  /** A submission that takes its whole piece moves tasks from the batch to the pool. */
  lemma PieceTaken(c: Setup, s: State, l: nat, x: Fd)
    requires Typed(c, s) && l < c.loops
    ensures Owners(Submitted(c, s, l, Piece(c, s, l)), x) == Owners(s, x)
  {
    var p, first := s.batch[l], Piece(c, s, l);
    assert p == p[..first] + p[first..];
    assert multiset(p) == multiset(p[..first]) + multiset(p[first..]);
    BatchCount(s, l, p[first..], x);
  }

  /** One that is cut short drops what is behind its piece. */
  lemma PieceRefused(c: Setup, s: State, l: nat, taken: nat, x: Fd)
    requires Typed(c, s) && l < c.loops && taken < Piece(c, s, l) && s.refused[l] == []
    ensures Owners(Submitted(c, s, l, taken), x) + multiset(s.batch[l][Piece(c, s, l)..])[x] == Owners(s, x)
  {
    var p, first := s.batch[l], Piece(c, s, l);
    assert p == p[..taken] + p[taken..first] + p[first..];
    assert multiset(p) == multiset(p[..taken]) + multiset(p[taken..first]) + multiset(p[first..]);
    BatchCount(s, l, [], x);
    RefusedCount(s, l, p[taken..first], x);
  }

  /** The first task behind a piece that is cut short is in no place any more. */
  lemma TailUnowned(c: Setup, s: State, l: nat, taken: nat)
    requires Typed(c, s) && Owned(s) && l < c.loops && s.refused[l] == []
    requires taken < c.batch - s.backs[l] < |s.batch[l]|
    ensures var x := s.batch[l][c.batch - s.backs[l]];
            x in s.conns && Owners(Submitted(c, s, l, taken), x) == 0
  {
    var p, first := s.batch[l], Piece(c, s, l);
    assert p[first] in multiset(p[first..]);
    PieceRefused(c, s, l, taken, p[first]);
    assert Owners(s, p[first]) == One(p[first] in s.conns);
  }

  /** A submission of commit keeps single ownership exactly when it loses no task. */
  lemma CommitOwnedIff(c: Setup, s: State, l: nat, taken: nat)
    requires Typed(c, s) && Owned(s) && l < c.loops && taken <= Piece(c, s, l) && s.refused[l] == []
    ensures Owned(Submitted(c, s, l, taken)) <==> !(taken < c.batch - s.backs[l] < |s.batch[l]|)
  {
    var first, t := Piece(c, s, l), Submitted(c, s, l, taken);
    if taken < c.batch - s.backs[l] < |s.batch[l]| {
      TailUnowned(c, s, l, taken);
    } else {
      forall x ensures Owners(t, x) == One(x in t.conns) {
        if taken < first {
          PieceRefused(c, s, l, taken, x);
        } else {
          PieceTaken(c, s, l, x);
        }
        assert Owners(s, x) == One(x in s.conns);
      }
    }
  }

  /** The ring of loop `l` is emptied, its tasks having come out as `o`. */
  function Emptied(s: State, l: nat, o: Outcome<Fd>, back: nat, flag: bool): State
    requires l < |s.refused| == |s.batch| == |s.backs| == |s.flags| == |s.committing|
  {
    s.(queued := s.queued + multiset(o.submitted), refused := s.refused[l := o.reenabled], batch := s.batch[l := []],
       backs := s.backs[l := back], flags := s.flags[l := flag], committing := s.committing[l := false])
  }

  /** What one call of UtilTaskTcp's commit makes of the state, the pool taking `taken` tasks in all. */
  function CommittedAtOnce(c: Setup, s: State, l: nat, taken: nat): State
    requires Typed(c, s) && l < c.loops && taken <= |s.batch[l]|
  {
    Emptied(s, l, Committed(s.batch[l], Piece(c, s, l), taken), Step(s.backs[l], |s.batch[l]|, c.batch),
            s.flags[l] && taken == |s.batch[l]|)
  }

  lemma NothingChanged<T>(q: seq<T>, l: nat)
    requires l < |q|
    ensures q[l := q[l]] == q
  {
  }

  lemma ChangedTwice<T>(q: seq<T>, l: nat, x: T, y: T)
    requires l < |q|
    ensures q[l := x][l := y] == q[l := y]
  {
  }

  /** A submission that is refused in part, or of a batch that has not wrapped, is the whole commit. */
  lemma OnePieceCommit(c: Setup, s: State, l: nat, taken: nat)
    requires Typed(c, s) && l < c.loops && s.refused[l] == [] && taken <= Piece(c, s, l)
    requires taken < Piece(c, s, l) || Piece(c, s, l) == |s.batch[l]|
    ensures Submitted(c, s, l, taken) == CommittedAtOnce(c, s, l, taken)
  {
    var p := s.batch[l];
    if taken == Piece(c, s, l) {
      assert p[taken..] == [] && p[..taken] == p;
      NothingChanged(s.refused, l);
      NothingChanged(s.flags, l);
    }
  }

  /** The tasks `xs` of loop `l` are with the pool, and `rest` is next, from the start of the ring. */
  function HalfWay(s: State, l: nat, xs: seq<Fd>, rest: seq<Fd>): State
    requires l < |s.batch| == |s.backs| == |s.committing|
  {
    s.(queued := s.queued + multiset(xs), batch := s.batch[l := rest], backs := s.backs[l := 0],
       committing := s.committing[l := true])
  }

  /** The first piece of a wrapped batch ends where the ring does. */
  lemma FirstPieceTaken(c: Setup, s: State, l: nat) returns (m: State)
    requires Typed(c, s) && l < c.loops && Piece(c, s, l) < |s.batch[l]|
    ensures var first := Piece(c, s, l);
            m == Submitted(c, s, l, first) == HalfWay(s, l, s.batch[l][..first], s.batch[l][first..])
    ensures Typed(c, m) && Piece(c, m, l) == |m.batch[l]| < c.batch && m.refused == s.refused
  {
    m := Submitted(c, s, l, Piece(c, s, l));
  }

  lemma EmptiedTwice(s: State, l: nat, xs: seq<Fd>, rest: seq<Fd>, o: Outcome<Fd>, back: nat, flag: bool)
    requires l < |s.refused| == |s.batch| == |s.backs| == |s.flags| == |s.committing|
    ensures Emptied(HalfWay(s, l, xs, rest), l, o, back, flag)
            == Emptied(s, l, Outcome(xs + o.submitted, o.reenabled, []), back, flag)
  {
    assert s.queued + multiset(xs) + multiset(o.submitted) == s.queued + multiset(xs + o.submitted);
    ChangedTwice(s.batch, l, rest, []);
    ChangedTwice(s.backs, l, 0, back);
    ChangedTwice(s.committing, l, true, false);
  }

  /** A commit of what is left behind a first piece of `first` tasks. */
  lemma RestAtOnce(c: Setup, s: State, l: nat, first: nat, taken: nat, m: State)
    requires Typed(c, s) && l < c.loops && first <= taken <= |s.batch[l]|
    requires m == HalfWay(s, l, s.batch[l][..first], s.batch[l][first..])
    requires Typed(c, m) && Piece(c, m, l) == |m.batch[l]| < c.batch
    ensures var p := s.batch[l];
            CommittedAtOnce(c, m, l, taken - first)
            == Emptied(m, l, Committed(p[first..], |p| - first, taken - first), |p| - first,
                       s.flags[l] && taken == |p|)
  {
    assert m.batch[l] == s.batch[l][first..] && m.backs[l] == 0 && m.flags == s.flags;
  }

  lemma EmptiedInPieces(s: State, l: nat, p: seq<Fd>, first: nat, taken: nat, back: nat, flag: bool)
    requires l < |s.refused| == |s.batch| == |s.backs| == |s.flags| == |s.committing| && first <= taken <= |p|
    ensures Emptied(HalfWay(s, l, p[..first], p[first..]), l, Committed(p[first..], |p| - first, taken - first),
                    back, flag)
            == Emptied(s, l, Committed(p, first, taken), back, flag)
  {
    SecondPiece(p, first, taken);
    EmptiedTwice(s, l, p[..first], p[first..], Committed(p[first..], |p| - first, taken - first), back, flag);
  }

  lemma WholeAtOnce(c: Setup, s: State, l: nat, first: nat, taken: nat)
    requires Typed(c, s) && l < c.loops && first == Piece(c, s, l) < |s.batch[l]| && taken <= |s.batch[l]|
    ensures var p := s.batch[l];
            CommittedAtOnce(c, s, l, taken)
            == Emptied(s, l, Committed(p, first, taken), |p| - first, s.flags[l] && taken == |p|)
  {
  }

  lemma SecondPieceCommit(c: Setup, s: State, l: nat, first: nat, taken: nat, m: State)
    requires Typed(c, s) && l < c.loops && first == Piece(c, s, l) < |s.batch[l]| && first <= taken <= |s.batch[l]|
    requires m == HalfWay(s, l, s.batch[l][..first], s.batch[l][first..])
    requires Typed(c, m) && Piece(c, m, l) == |m.batch[l]| < c.batch
    ensures CommittedAtOnce(c, m, l, taken - first) == CommittedAtOnce(c, s, l, taken)
  {
    RestAtOnce(c, s, l, first, taken, m);
    EmptiedInPieces(s, l, s.batch[l], first, taken, |s.batch[l]| - first, s.flags[l] && taken == |s.batch[l]|);
    WholeAtOnce(c, s, l, first, taken);
  }

  /** The two submissions of a wrapped batch whose first piece goes through come to what UtilTaskTcp's commit does
      in one call, the pool taking `taken` tasks in all. */
  lemma TwoPieceCommit(c: Setup, s: State, l: nat, first: nat, taken: nat) returns (m: State)
    requires Typed(c, s) && l < c.loops && s.refused[l] == []
    requires first == Piece(c, s, l) < |s.batch[l]| && first <= taken <= |s.batch[l]|
    ensures m == Submitted(c, s, l, first) && Typed(c, m) && taken - first <= Piece(c, m, l)
    ensures Submitted(c, m, l, taken - first) == CommittedAtOnce(c, s, l, taken)
  {
    m := FirstPieceTaken(c, s, l);
    OnePieceCommit(c, m, l, taken - first);
    SecondPieceCommit(c, s, l, first, taken, m);
  }

  lemma RenableOwned(c: Setup, s: State, l: nat, ok: bool)
    requires Typed(c, s) && Owned(s) && l < c.loops && s.refused[l] != []
    ensures Owned(Rearm(s.(refused := s.refused[l := s.refused[l][1..]]), s.refused[l][0], ok))
  {
    var fd := s.refused[l][0];
    var t := s.(refused := s.refused[l := s.refused[l][1..]]);
    forall x ensures Owners(t, x) == One(x in s.conns && x != fd) && fd in s.conns {
      HeadCount(s.refused[l], fd);
      HeadCount(s.refused[l], x);
      RefusedCount(s, l, s.refused[l][1..], x);
      RefusedCount(s, l, s.refused[l][1..], fd);
      assert Owners(s, x) == One(x in s.conns) && Owners(s, fd) == One(fd in s.conns);
    }
    assert Owners(t, fd) == 0;
    RearmOwned(t, fd, ok);
  }

  lemma PollOwned(c: Setup, s: State, l: nat, ready: seq<Fd>, t: State)
    requires Typed(c, s) && Owned(s) && l < c.loops && s.events[l] == [] && CanReport(s, l, ready)
    requires t == s.(events := s.events[l := ready], armed := Except(s.armed, ready), polling := t.polling)
    ensures Owned(t)
  {
    forall x ensures Owners(t, x) == One(x in t.conns) {
      EventsCount(s, l, ready, x);
      assert multiset(ready)[x] <= One(x in s.armed && x in s.conns && s.conns[x] == l);
      assert x in ready <==> multiset(ready)[x] > 0;
      assert Owners(s, x) == One(x in s.conns);
    }
  }

  /** The first enable or close of a callback hands its connection on, to epoll or to the close list; an
      enable that fails leaves it with the callback. */
  lemma HandOnOwned(s: State, fd: Fd)
    requires Owned(s) && fd in s.running
    ensures Owned(Arm(HandedOn(s, fd), fd)) && Owned(ActiveClose(HandedOn(s, fd), fd))
  {
    var t := HandedOn(s, fd);
    forall x ensures Owners(t, x) == One(x in s.conns && x != fd) && fd in s.conns {
      assert Owners(s, x) == One(x in s.conns) && Owners(s, fd) == One(fd in s.conns);
    }
    ArmOwned(t, fd);
    CloseOwned(t, fd);
  }

  /** A callback that goes on to enable or close after it has handed its connection on does no harm exactly
      as long as epoll has not yet reported the connection again. */
  lemma AgainOwnedIff(s: State, fd: Fd)
    requires Owned(s)
    ensures Owned(Arm(s, fd)) <==> fd in s.armed
    ensures Owned(ActiveClose(s, fd)) <==> fd in s.armed
  {
    var t, u := Arm(s, fd), ActiveClose(s, fd);
    assert Owners(s, fd) == One(fd in s.conns);
    if fd in s.armed {
      forall x ensures Owners(t, x) == One(x in t.conns) && Owners(u, x) == One(x in u.conns) {
        assert Owners(s, x) == One(x in s.conns);
      }
    } else {
      assert Owners(t, fd) == Owners(u, fd) == Owners(s, fd) + 1;
    }
  }

  /** A callback that returns leaves its connection with an owner exactly when it has handed it on. */
  lemma ReturnOwnedIff(s: State, fd: Fd, handedOn: bool)
    requires Owned(s) && if handedOn then fd in s.returning else fd in s.running
    ensures Owned(Returned(s, fd, handedOn)) <==> handedOn
  {
    assert Owners(s, fd) == One(fd in s.conns);
    var t := Returned(s, fd, handedOn);
    if handedOn {
      forall x ensures Owners(t, x) == One(x in t.conns) {
        assert Owners(s, x) == One(x in s.conns);
      }
    } else {
      assert Owners(t, fd) == Owners(s, fd) - 1;
    }
  }

  lemma BeginOwned(s: State, fd: Fd)
    requires Owned(s) && fd in s.queued
    ensures Owned(s.(queued := s.queued - multiset{fd}, running := s.running + multiset{fd}))
  {
    var t := s.(queued := s.queued - multiset{fd}, running := s.running + multiset{fd});
    forall x ensures Owners(t, x) == One(x in t.conns) {
      assert Owners(s, x) == One(x in s.conns);
    }
  }

  lemma SweepOwned(c: Setup, s: State)
    requires Typed(c, s) && Owned(s) && Can(c, s, SweepOne)
    ensures Owned(Swept(c, s))
  {
    var fd, t := s.closing[0], Swept(c, s);
    HeadCount(s.closing, fd);
    assert Owners(s, fd) == One(fd in s.conns);
    forall x ensures Owners(t, x) == One(x in t.conns) {
      HeadCount(s.closing, x);
      assert Owners(s, x) == One(x in s.conns);
    }
  }

  /** Accepting keeps single ownership exactly when init succeeds, or the new descriptor is number 0. */
  lemma AcceptOwnedIff(c: Setup, s: State, fd: Fd, initOk: bool, addOk: bool)
    requires Typed(c, s) && Owned(s) && fd !in s.conns
    ensures Owned(Accepted(c, s, fd, initOk, addOk)) <==> initOk || fd == 0
  {
    var t := Accepted(c, s, fd, initOk, addOk);
    assert Owners(s, fd) == 0;
    if initOk || fd == 0 {
      forall x ensures Owners(t, x) == One(x in t.conns) {
        assert Owners(s, x) == One(x in s.conns);
      }
    } else {
      assert fd in t.conns && Owners(t, fd) == 0;
    }
  }

  lemma OnAdd(conns: map<Fd, nat>, fd: Fd, l: nat, k: nat)
    requires fd !in conns
    ensures |On(conns[fd := l], k)| == |On(conns, k)| + One(k == l)
  {
    if k == l {
      assert On(conns[fd := l], k) == On(conns, k) + {fd};
    } else {
      assert On(conns[fd := l], k) == On(conns, k);
    }
  }

  lemma OnRemove(conns: map<Fd, nat>, fd: Fd, k: nat)
    requires fd in conns
    ensures |On(conns, k)| == |On(conns - {fd}, k)| + One(k == conns[fd])
  {
    if k == conns[fd] {
      assert On(conns, k) == On(conns - {fd}, k) + {fd};
    } else {
      assert On(conns, k) == On(conns - {fd}, k);
    }
  }

  lemma AcceptCounted(c: Setup, s: State, fd: Fd, initOk: bool, addOk: bool)
    requires Inv(c, s) && fd !in s.conns && (initOk || fd == 0)
    ensures Typed(c, Accepted(c, s, fd, initOk, addOk)) && Counted(c, Accepted(c, s, fd, initOk, addOk))
  {
    var l := Least(s.counts);
    var t := Accepted(c, s, fd, initOk, addOk);
    assert s.conns[fd := l] - {fd} == s.conns;
    forall k | 0 <= k < c.loops ensures t.counts[k] == |On(t.conns, k)| {
      assert s.counts[k] == |On(s.conns, k)|;
      OnAdd(s.conns, fd, l, k);
    }
  }

  lemma SweepCounted(c: Setup, s: State)
    requires Inv(c, s) && Can(c, s, SweepOne)
    ensures Typed(c, Swept(c, s)) && Counted(c, Swept(c, s))
  {
    var t := Swept(c, s);
    forall k | 0 <= k < c.loops ensures t.counts[k] == |On(t.conns, k)| {
      assert s.counts[k] == |On(s.conns, k)|;
      OnRemove(s.conns, s.closing[0], k);
    }
  }

  /** The steps that leave the map and the counters alone. */
  lemma SameMap(c: Setup, s: State, t: State)
    requires Inv(c, s) && Typed(c, t) && t.conns == s.conns && t.counts == s.counts
    ensures Counted(c, t)
  {
    forall l | 0 <= l < c.loops ensures t.counts[l] == |On(t.conns, l)| {
      assert s.counts[l] == |On(s.conns, l)|;
    }
  }

  lemma ConnectKeepsIff(c: Setup, s: State, fd: Fd, initOk: bool, addOk: bool, t: State)
    requires Inv(c, s) && fd !in s.open && t == Accepted(c, s, fd, initOk, addOk)
    ensures Inv(c, t) <==> initOk || fd == 0
  {
    AcceptOwnedIff(c, s, fd, initOk, addOk);
    if initOk || fd == 0 {
      AcceptCounted(c, s, fd, initOk, addOk);
    }
  }

  lemma DispatchKeepsIff(c: Setup, s: State, l: nat, event: Event, verdict: Verdict, ok: bool, t: State)
    requires Inv(c, s) && Can(c, s, Dispatch(l, event, verdict, ok)) && t == Dispatched(c, s, l, event, verdict, ok)
    ensures Inv(c, t) <==> Good(c, s, Dispatch(l, event, verdict, ok))
  {
    DispatchOwnedIff(c, s, l, event, verdict, ok);
    DispatchShape(c, s, l, event, verdict, ok, t);
  }

  lemma DispatchShape(c: Setup, s: State, l: nat, event: Event, verdict: Verdict, ok: bool, t: State)
    requires Inv(c, s) && l < c.loops && !s.polling[l] && s.events[l] != [] && |s.batch[l]| < c.batch
    requires t == Dispatched(c, s, l, event, verdict, ok)
    ensures Typed(c, t) && Settled(c, t) && Counted(c, t) && t.conns == s.conns && t.open == s.open
  {
    DispatchFrame(c, s, l, event, verdict, ok, t);
    SameMap(c, s, t);
  }

  /** Dispatching changes the events, the batch, the armed connections and the close list alone. */
  lemma DispatchFrame(c: Setup, s: State, l: nat, event: Event, verdict: Verdict, ok: bool, t: State)
    requires Typed(c, s) && l < c.loops && s.events[l] != [] && t == Dispatched(c, s, l, event, verdict, ok)
    ensures t.batch == s.batch || t.batch == s.batch[l := s.batch[l] + [s.events[l][0]]]
    ensures t == s.(events := s.events[l := s.events[l][1..]], batch := t.batch, armed := t.armed,
                    closeList := t.closeList)
  {
  }

  lemma CommitKeepsIff(c: Setup, s: State, l: nat, taken: nat, t: State)
    requires Inv(c, s) && Can(c, s, Commit(l, taken)) && t == Submitted(c, s, l, taken)
    ensures Inv(c, t) <==> !(taken < c.batch - s.backs[l] < |s.batch[l]|)
  {
    CommitOwnedIff(c, s, l, taken);
    CommitShape(c, s, l, taken, t);
  }

  lemma CommitShape(c: Setup, s: State, l: nat, taken: nat, t: State)
    requires Inv(c, s) && l < c.loops && !s.polling[l] && taken <= Piece(c, s, l) && t == Submitted(c, s, l, taken)
    ensures Typed(c, t) && Settled(c, t) && Counted(c, t) && t.conns == s.conns && t.open == s.open
  {
    SameMap(c, s, t);
  }

  lemma RenableKeeps(c: Setup, s: State, l: nat, ok: bool, t: State)
    requires Inv(c, s) && Can(c, s, Renable(l, ok)) && t == Apply(c, s, Renable(l, ok))
    ensures Inv(c, t)
  {
    RenableOwned(c, s, l, ok);
    SameMap(c, s, t);
  }

  lemma PollKeeps(c: Setup, s: State, l: nat, ready: seq<Fd>, t: State)
    requires Inv(c, s) && Can(c, s, Poll(l, ready)) && t == Apply(c, s, Poll(l, ready))
    ensures Inv(c, t)
  {
    PollOwned(c, s, l, ready, t);
    SameMap(c, s, t);
  }

  lemma EndRoundKeeps(c: Setup, s: State, l: nat, t: State)
    requires Inv(c, s) && Can(c, s, EndRound(l)) && t == Apply(c, s, EndRound(l))
    ensures Inv(c, t)
  {
    SameMap(c, s, t);
    forall x ensures Owners(t, x) == One(x in t.conns) {
      assert Owners(s, x) == One(x in s.conns);
    }
  }

  /** A step that leaves the map, the counters and the IO loops alone. */
  ghost predicate SameLoops(s: State, t: State)
  {
    && t.conns == s.conns && t.open == s.open && t.counts == s.counts && t.polling == s.polling
    && t.events == s.events && t.batch == s.batch && t.refused == s.refused && t.flags == s.flags && t.backs == s.backs
    && t.committing == s.committing
  }

  lemma SameLoopsShape(c: Setup, s: State, t: State)
    requires Inv(c, s) && SameLoops(s, t)
    ensures Inv(c, t) <==> Owned(t)
  {
    SameMap(c, s, t);
  }

  lemma BeginKeeps(c: Setup, s: State, fd: Fd, t: State)
    requires Inv(c, s) && fd in s.queued && t == Apply(c, s, Begin(fd))
    ensures Inv(c, t)
  {
    BeginOwned(s, fd);
    SameLoopsShape(c, s, t);
  }

  lemma HandOnKeeps(c: Setup, s: State, a: Action, t: State)
    requires Inv(c, s) && (a.Enable? || a.Close?) && Can(c, s, a) && t == Apply(c, s, a)
    ensures Inv(c, t)
  {
    HandOnOwned(s, a.fd);
    SameLoopsShape(c, s, t);
  }

  lemma AgainKeepsIff(c: Setup, s: State, a: Action, t: State)
    requires Inv(c, s) && (a.EnableAgain? || a.CloseAgain?) && Can(c, s, a) && t == Apply(c, s, a)
    ensures Inv(c, t) <==> Good(c, s, a)
  {
    AgainOwnedIff(s, a.fd);
    SameLoopsShape(c, s, t);
  }

  lemma ReturnKeepsIff(c: Setup, s: State, fd: Fd, handedOn: bool, t: State)
    requires Inv(c, s) && Can(c, s, Return(fd, handedOn)) && t == Returned(s, fd, handedOn)
    ensures Inv(c, t) <==> handedOn
  {
    ReturnOwnedIff(s, fd, handedOn);
    SameLoopsShape(c, s, t);
  }

  lemma SweepKeeps(c: Setup, s: State, a: Action, t: State)
    requires Inv(c, s) && (a.SweepBegin? || a.SweepOne?) && Can(c, s, a) && t == Apply(c, s, a)
    ensures Inv(c, t)
  {
    if a.SweepOne? {
      SweepOwned(c, s);
      SweepCounted(c, s);
    } else {
      SameMap(c, s, t);
      forall x ensures Owners(t, x) == One(x in t.conns) {
        assert Owners(s, x) == One(x in s.conns);
      }
    }
  }

  /** Every step of every thread keeps the connection invariant if and only if it hands connections on
      properly; there is no other way to break it. */
  lemma StepKeepsIff(c: Setup, s: State, a: Action, t: State)
    requires Inv(c, s) && Can(c, s, a) && t == Apply(c, s, a)
    ensures Inv(c, t) <==> Good(c, s, a)
  {
    match a {
      case Connect(fd, initOk, addOk) => ConnectKeepsIff(c, s, fd, initOk, addOk, t);
      case Poll(l, ready) => PollKeeps(c, s, l, ready, t);
      case Dispatch(l, event, verdict, ok) => DispatchKeepsIff(c, s, l, event, verdict, ok, t);
      case Commit(l, taken) => CommitKeepsIff(c, s, l, taken, t);
      case Renable(l, ok) => RenableKeeps(c, s, l, ok, t);
      case EndRound(l) => EndRoundKeeps(c, s, l, t);
      case Begin(fd) => BeginKeeps(c, s, fd, t);
      case SweepBegin => SweepKeeps(c, s, a, t);
      case SweepOne => SweepKeeps(c, s, a, t);
      case Enable(_, _) => HandOnKeeps(c, s, a, t);
      case Close(_) => HandOnKeeps(c, s, a, t);
      case EnableAgain(_, _) => AgainKeepsIff(c, s, a, t);
      case CloseAgain(_) => AgainKeepsIff(c, s, a, t);
      case Return(fd, handedOn) => ReturnKeepsIff(c, s, fd, handedOn, t);
    }
  }

  /** Action `a` is possible in `s` and leads to `t`. */
  ghost predicate Next(c: Setup, s: State, a: Action, t: State)
  {
    Typed(c, s) && Can(c, s, a) && t == Apply(c, s, a)
  }

  ghost function Steps(c: Setup): (State, Action, State) -> bool
  {
    (s, a, t) => Next(c, s, a, t)
  }

  /** The same, handing its connection on properly. */
  ghost predicate GoodNext(c: Setup, s: State, a: Action, t: State)
  {
    Next(c, s, a, t) && Good(c, s, a)
  }

  ghost function GoodSteps(c: Setup): (State, Action, State) -> bool
  {
    (s, a, t) => GoodNext(c, s, a, t)
  }

  lemma InitInv(c: Setup)
    requires 0 < c.loops && 0 < c.batch < TWO_31
    ensures Inv(c, Init(c))
  {
    var s := Init(c);
    BagEmpty(s.events);
    forall x ensures Owners(s, x) == 0 {
    }
    forall l | 0 <= l < c.loops ensures s.counts[l] == |On(s.conns, l)| {
      assert On(s.conns, l) == {};
    }
  }

  /** A state of the server that steps handing connections on properly lead to, in any interleaving. */
  ghost predicate Reachable(c: Setup, s: State)
  {
    0 < c.loops && 0 < c.batch < TWO_31 && exists run :: Leads(GoodSteps(c), Init(c), run, s)
  }

  lemma ReachableInv(c: Setup, s: State)
    requires Reachable(c, s)
    ensures Inv(c, s)
  {
    var run :| Leads(GoodSteps(c), Init(c), run, s);
    InitInv(c);
    forall x, a, y | Inv(c, x) && GoodSteps(c)(x, a, y) ensures Inv(c, y) {
      StepKeepsIff(c, x, a, y);
    }
    Always(GoodSteps(c), x => Inv(c, x), Init(c), run, s);
  }

  /** Single ownership over whole runs: every open connection is in exactly one place.  In particular no two
      callbacks ever own the same connection, and none owns one that epoll may report. */
  lemma SingleOwner(c: Setup, s: State, fd: Fd)
    requires Reachable(c, s)
    ensures Owners(s, fd) == One(fd in s.open)
    ensures s.running[fd] + s.queued[fd] + One(fd in s.armed) <= 1
  {
    ReachableInv(c, s);
    assert Owners(s, fd) == One(fd in s.conns);
  }

  /** Every loop's counter is the number of its live connections. */
  lemma CountsAreLive(c: Setup, s: State)
    requires Reachable(c, s)
    ensures |s.counts| == c.loops && forall l :: 0 <= l < c.loops ==> s.counts[l] == |On(s.conns, l)|
  {
    ReachableInv(c, s);
    forall l | 0 <= l < c.loops ensures s.counts[l] == |On(s.conns, l)| {
      assert s.counts[l] == |On(s.conns, l)|;
    }
  }

  /** The map's keys are the open descriptors. */
  ghost predicate Mapped(c: Setup, s: State)
  {
    Typed(c, s) && s.conns.Keys == s.open
  }

  /** Only accepting and closing change the map and the counters. */
  lemma MapFrame(c: Setup, s: State, a: Action, t: State)
    requires Next(c, s, a, t) && !a.Connect? && !a.SweepOne?
    ensures t.conns == s.conns && t.open == s.open && t.counts == s.counts
  {
  }

  lemma TypedKept(c: Setup, s: State, a: Action, t: State)
    requires Next(c, s, a, t)
    ensures Typed(c, t)
  {
    if a.Dispatch? {
      DispatchTyped(c, s, a.l, a.event, a.verdict, a.ok, t);
    } else if a.Commit? {
      CommitTyped(c, s, a.l, a.taken, t);
    } else if a.Connect? || a.SweepOne? {
      ConnsTyped(c, s, a, t);
    } else if a.Poll? || a.Renable? || a.EndRound? {
      DesksTyped(c, s, a, t);
    } else {
      assert SameLoops(s, t);
    }
  }

  lemma ConnsTyped(c: Setup, s: State, a: Action, t: State)
    requires Next(c, s, a, t) && (a.Connect? || a.SweepOne?)
    ensures Typed(c, t)
  {
  }

  lemma DesksTyped(c: Setup, s: State, a: Action, t: State)
    requires Next(c, s, a, t) && (a.Poll? || a.Renable? || a.EndRound?)
    ensures Typed(c, t)
  {
  }

  lemma DispatchTyped(c: Setup, s: State, l: nat, event: Event, verdict: Verdict, ok: bool, t: State)
    requires Typed(c, s) && Can(c, s, Dispatch(l, event, verdict, ok)) && t == Dispatched(c, s, l, event, verdict, ok)
    ensures Typed(c, t)
  {
    DispatchFrame(c, s, l, event, verdict, ok, t);
  }

  lemma CommitTyped(c: Setup, s: State, l: nat, taken: nat, t: State)
    requires Typed(c, s) && l < c.loops && taken <= Piece(c, s, l) && t == Submitted(c, s, l, taken)
    ensures Typed(c, t)
  {
  }

  lemma MappedKept(c: Setup, s: State, a: Action, t: State)
    requires Mapped(c, s) && Next(c, s, a, t)
    ensures Mapped(c, t)
  {
    TypedKept(c, s, a, t);
    if !a.Connect? && !a.SweepOne? {
      MapFrame(c, s, a, t);
    }
  }

  /** In every run, proper or not, the map holds exactly the open connections; so a descriptor that accept
      returns is never in it already. */
  lemma MapIsExact(c: Setup, run: seq<Action>, s: State)
    requires 0 < c.loops && 0 < c.batch < TWO_31 && Leads(Steps(c), Init(c), run, s)
    ensures s.conns.Keys == s.open && Typed(c, s)
  {
    forall x, a, y | Mapped(c, x) && Steps(c)(x, a, y) ensures Mapped(c, y) {
      MappedKept(c, x, a, y);
    }
    Always(Steps(c), x => Mapped(c, x), Init(c), run, s);
  }

  /** The steps that accept a connection for good. */
  predicate Accepting(a: Action)
  {
    a.Connect? && a.initOk && a.addOk
  }

  function Accepts(run: seq<Action>): nat
  {
    if run == [] then 0 else One(Accepting(run[0])) + Accepts(run[1..])
  }

  lemma ConnAdded(m: map<Fd, nat>, fd: Fd, l: nat)
    requires fd !in m
    ensures |m[fd := l]| == |m| + 1 && m[fd := l] - {fd} == m
  {
    assert m[fd := l].Keys == m.Keys + {fd};
    assert m[fd := l] - {fd} == m;
  }

  /** A step other than a close adds a connection to the counts exactly when it accepts one. */
  lemma StepCounts(c: Setup, s: State, a: Action, t: State)
    requires Mapped(c, s) && Next(c, s, a, t) && !a.SweepOne?
    ensures t.counts == if Accepting(a) then Connected(s.counts) else s.counts
    ensures Good(c, s, a) ==> |t.conns| == |s.conns| + One(Accepting(a))
  {
    if a.Connect? {
      ConnAdded(s.conns, a.fd, Least(s.counts));
    } else {
      MapFrame(c, s, a, t);
    }
  }

  lemma CountsNext(c: Setup, s: State, n: nat, a: Action, t: State) returns (k: nat)
    requires Mapped(c, s) && Next(c, s, a, t) && !a.SweepOne? && s.counts == After(c.loops, n)
    ensures k == n + One(Accepting(a)) && t.counts == After(c.loops, k)
  {
    StepCounts(c, s, a, t);
    k := if Accepting(a) then n + 1 else n;
  }

  lemma {:induction false} CountsAfter(c: Setup, s: State, n: nat, run: seq<Action>, t: State) returns (k: nat)
    requires Mapped(c, s) && Leads(Steps(c), s, run, t) && forall a :: a in run ==> !a.SweepOne?
    requires s.counts == After(c.loops, n)
    ensures k == n + Accepts(run) && t.counts == After(c.loops, k)
    decreases |run|
  {
    k := n;
    if run != [] {
      var a := run[0];
      var m :| Steps(c)(s, a, m) && Leads(Steps(c), m, run[1..], t);
      assert a in run;
      k := CountsNext(c, s, n, a, m);
      MappedKept(c, s, a, m);
      k := CountsAfter(c, m, k, run[1..], t);
    }
  }

  /** While nothing is closed, the server spreads its connections evenly, whatever else happens: each loop has
      the quotient of their number by the number of loops, or one more. */
  lemma LevelWithoutCloses(c: Setup, run: seq<Action>, s: State) returns (q: nat, r: nat)
    requires 0 < c.loops && 0 < c.batch < TWO_31 && Leads(Steps(c), Init(c), run, s)
    requires forall a :: a in run ==> !a.SweepOne?
    ensures Accepts(run) == q * c.loops + r && r < c.loops
    ensures s.counts == Rounds(c.loops, q, r) && Level(s.counts)
  {
    assert Init(c).counts == After(c.loops, 0);
    var n := CountsAfter(c, Init(c), 0, run, s);
    q, r := RoundRobin(c.loops, n);
  }

  /** Where every step is proper, those are the live connections. */
  lemma {:induction false} AcceptedAreLive(c: Setup, s: State, run: seq<Action>, t: State)
    requires Inv(c, s) && Leads(GoodSteps(c), s, run, t) && forall a :: a in run ==> !a.SweepOne?
    ensures |t.conns| == |s.conns| + Accepts(run)
    decreases |run|
  {
    if run != [] {
      var a := run[0];
      var m :| GoodSteps(c)(s, a, m) && Leads(GoodSteps(c), m, run[1..], t);
      assert a in run;
      StepCounts(c, s, a, m);
      StepKeepsIff(c, s, a, m);
      AcceptedAreLive(c, m, run[1..], t);
    }
  }

  lemma SweepCan(c: Setup, s: State)
    requires Inv(c, s) && s.closing != []
    ensures Can(c, s, SweepOne) && s.closing[0] !in s.closing[1..] && s.closing[0] !in s.closeList
  {
    var fd := s.closing[0];
    HeadCount(s.closing, fd);
    assert Owners(s, fd) == One(fd in s.conns);
    assert s.counts[s.conns[fd]] == |On(s.conns, s.conns[fd])|;
    assert fd in On(s.conns, s.conns[fd]);
    assert fd !in multiset(s.closing[1..]) && fd !in multiset(s.closeList);
  }

  /** The close list never holds a controller that is gone, nor one twice, and no counter falls below zero. */
  lemma SweepIsSafe(c: Setup, s: State)
    requires Reachable(c, s) && s.closing != []
    ensures Typed(c, s) && Can(c, s, SweepOne) && s.closing[0] !in s.closing[1..] && s.closing[0] !in s.closeList
  {
    ReachableInv(c, s);
    SweepCan(c, s);
  }
}

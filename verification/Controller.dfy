/**
 SOCKController: the per-connection object that moves bytes between the kernel socket and
 two ring buffers.  The socket is nondeterministic; ghost streams record what crossed it.
 */
module Controller {
  import BufferPool
  import opened BufferLayout
  import opened Words
  import opened Ring
  import opened RingBuffer

  /** The two epoll interests a connection can ask for. */
  datatype Interest = In | Out

  /** The calls a callback or the IO loop makes; `app` lengths are those of the callback's own memory. */
  datatype Op = Receive | Move | Flush | SendBack | Take(len: nat) | Store(len: nat) | Direct(len: nat)
  {
    /** The calls of an echo service: bytes only go from the socket through the buffers to the socket. */
    predicate IsEcho()
    {
      Receive? || Move? || Flush? || SendBack?
    }
  }

  /** What recv and send may do: fail (-1), would block (0), or move some of the bytes asked for. */
  class Socket {
    ghost var received: seq<byte>   // every byte recv has delivered, oldest first
    ghost var sent: seq<byte>       // every byte send has accepted, oldest first
    ghost var recvCalls: nat
    ghost var sendCalls: nat
    ghost var last: int             // result of the latest call
    ghost var asked: nat            // length passed to the latest call

    constructor ()
      ensures received == [] && sent == [] && recvCalls == 0 && sendCalls == 0
    {
      received, sent, recvCalls, sendCalls, last, asked := [], [], 0, 0, 0, 0;
    }

    method Recv(dst: array<byte>, at: nat, len: nat) returns (r: int, ghost xs: seq<byte>)
      requires 0 < len && at + len <= dst.Length
      modifies this, dst
      ensures -1 <= r <= len && last == r && asked == len && recvCalls == old(recvCalls) + 1
      ensures |xs| == (if r > 0 then r else 0)
      ensures dst[..] == Overwrite(old(dst[..]), at, xs) && received == old(received) + xs
      ensures sent == old(sent) && sendCalls == old(sendCalls)
    {
      r := *;
      var data: seq<byte> := *;
      if r < -1 || r > len || (r > 0 && |data| != r) {
        r := -1;
      }
      if r > 0 {
        forall i | 0 <= i < r {
          dst[at + i] := data[i];
        }
        xs := data;
      } else {
        xs := [];
      }
      received, recvCalls, last, asked := received + xs, recvCalls + 1, r, len;
    }

    method Send(src: array<byte>, at: nat, len: nat) returns (r: int, peerGone: bool)
      requires at + len <= src.Length
      modifies this
      ensures -1 <= r <= len && last == r && asked == len && sendCalls == old(sendCalls) + 1
      ensures sent == old(sent) + src[..][at..at + (if r > 0 then r else 0)]
      ensures peerGone ==> r == -1
      ensures received == old(received) && recvCalls == old(recvCalls)
    {
      r, peerGone := *, *;
      if r < -1 || r > len {
        r := -1;
      }
      peerGone := peerGone && r == -1;
      sent := sent + src[..][at..at + (if r > 0 then r else 0)];
      sendCalls, last, asked := sendCalls + 1, r, len;
    }
  }

  lemma InOrOut(events: set<Interest>)
    ensures events == (if In in events then {In} else {}) + (if Out in events then {Out} else {})
  {
    forall e | e in events ensures e == In || e == Out {
    }
  }

  lemma Assoc(a: seq<byte>, b: seq<byte>, c: seq<byte>)
    ensures a + (b + c) == a + b + c
  {
  }

  /** Everything that has crossed a connection, and what its two buffers hold now. */
  datatype Streams = Streams(
    received: seq<byte>,   // delivered by recv
    sent: seq<byte>,       // accepted by send
    taken: seq<byte>,      // has left the read buffer
    stored: seq<byte>,     // has entered the write buffer
    flushed: seq<byte>,    // has left the write buffer
    r: seq<byte>,          // in the read buffer
    w: seq<byte>)          // in the write buffer

  /** Nothing is lost, repeated or reordered in either buffer. */
  ghost predicate Conserved(v: Streams)
  {
    v.received == v.taken + v.r && v.stored == v.flushed + v.w
  }

  /** The stream law of an echo service. */
  ghost predicate Echoing(v: Streams)
  {
    v.received == v.sent + v.w + v.r
  }

  ghost predicate Received(v: Streams, v': Streams, xs: seq<byte>)
  {
    v' == v.(received := v.received + xs, r := v.r + xs)
  }

  ghost predicate Moved(v: Streams, v': Streams, xs: seq<byte>)
  {
    && v.r == xs + v'.r
    && v' == v.(taken := v.taken + xs, stored := v.stored + xs, r := v'.r, w := v.w + xs)
  }

  /** `out` left the write buffer and then `direct` left the read buffer, both for the socket. */
  ghost predicate SentOut(v: Streams, v': Streams, out: seq<byte>, direct: seq<byte>)
  {
    && v.w == out + v'.w && v.r == direct + v'.r && (direct == [] || v'.w == [])
    && v' == v.(sent := v.sent + out + direct, flushed := v.flushed + out, taken := v.taken + direct,
                r := v'.r, w := v'.w)
  }

  lemma ReceivedKeeps(v: Streams, v': Streams, xs: seq<byte>)
    requires Received(v, v', xs)
    ensures Conserved(v) ==> Conserved(v')
    ensures Echoing(v) ==> Echoing(v')
  {
    Assoc(v.taken, v.r, xs);
    Assoc(v.sent + v.w, v.r, xs);
  }

  lemma MovedKeeps(v: Streams, v': Streams, xs: seq<byte>)
    requires Moved(v, v', xs)
    ensures Conserved(v) ==> Conserved(v')
    ensures Echoing(v) ==> Echoing(v')
  {
    Assoc(v.taken, xs, v'.r);
    Assoc(v.flushed, v.w, xs);
    Assoc(v.sent + v.w, xs, v'.r);
    Assoc(v.sent, v.w, xs);
  }

  lemma SentOutKeeps(v: Streams, v': Streams, out: seq<byte>, direct: seq<byte>)
    requires SentOut(v, v', out, direct)
    ensures Conserved(v) ==> Conserved(v')
    ensures Echoing(v) ==> Echoing(v')
  {
    Assoc(v.taken, direct, v'.r);
    Assoc(v.flushed, out, v'.w);
    Assoc(v.sent, out, v'.w);
    if v'.w == [] {
      Assoc(v.sent + out, direct, v'.r);
    } else {
      assert v.sent + out + [] == v.sent + out;
    }
  }

  /** 1 when the `n` places from `p` on run past the end of the ring. */
  function Wraps(p: nat, n: nat, size: nat): nat
  {
    if p + n > size then 1 else 0
  }

  /** A copy that does not finish the move runs into the end of at least one of the two rings. */
  lemma MoveWraps(p: nat, n: nat, size: nat, d: nat, p': nat, n': nat, size': nat, d': nat, want: nat)
    requires p < size && n <= size && d == Min(n, size - p)
    requires p' < size' && n' <= size' && d' == Min(n', size' - p')
    requires Min(d, d') < want <= Min(n, n')
    ensures var k := Min(d, d');
            Wraps(Step(p, k, size), n - k, size) + Wraps(Step(p', k, size'), n' - k, size')
              < Wraps(p, n, size) + Wraps(p', n', size')
  {
  }

  class SOCKController {
    const readBuf: SPBuffer
    const writeBuf: SPBuffer
    const sock: Socket
    var events: set<Interest>         // interests of the latest successful enableEvents
    var peerClosed: bool
    ghost var armed: set<Interest>    // interests last handed to epoll
    ghost var ctls: seq<(set<Interest>, bool)>   // every epoll_ctl call, and whether it succeeded
    ghost var taken: seq<byte>        // every byte that has left the read buffer
    ghost var stored: seq<byte>       // every byte that has entered the write buffer
    ghost var flushed: seq<byte>      // every byte that has left the write buffer

    ghost predicate Valid()
      reads this, readBuf, writeBuf, sock
    {
      && readBuf.Valid() && writeBuf.Valid()
      && readBuf != writeBuf && readBuf.buffer != writeBuf.buffer
    }

    ghost function R(): seq<byte>
      reads this, readBuf, readBuf.buffer, writeBuf, sock
      requires Valid()
    {
      readBuf.Contents()
    }

    ghost function W(): seq<byte>
      reads this, readBuf, writeBuf, writeBuf.buffer, sock
      requires Valid()
    {
      writeBuf.Contents()
    }

    ghost function View(): Streams
      reads this, readBuf, readBuf.buffer, writeBuf, writeBuf.buffer, sock
      requires Valid()
    {
      Streams(sock.received, sock.sent, taken, stored, flushed, R(), W())
    }

    constructor (readSize: nat, writeSize: nat, defaultEvents: set<Interest>)
      requires 0 < readSize < TWO_31 && 0 < writeSize < TWO_31
      ensures Valid() && View() == Streams([], [], [], [], [], [], [])
      ensures fresh(readBuf) && fresh(writeBuf) && fresh(readBuf.buffer) && fresh(writeBuf.buffer) && fresh(sock)
      ensures events == defaultEvents && !peerClosed && readBuf.bsize == readSize && writeBuf.bsize == writeSize
    {
      readBuf := new SPBuffer(readSize);
      writeBuf := new SPBuffer(writeSize);
      sock := new Socket();
      events, armed, peerClosed := defaultEvents, defaultEvents, false;
      ctls, taken, stored, flushed := [], [], [], [];
    }

    /** init: takes a read buffer and then a write buffer from the pool, and fails when either is refused.  `r`
        and `w` are what it got, also when it fails: they go back when the controller is destroyed. */
    static method Init(pool: BufferPool.SPTcpBufferPool, defaultEvents: set<Interest>)
      returns (controller: SOCKController?, r: int, w: int)
      requires pool.Valid() && pool.readBSize < TWO_31 && pool.writeBSize < TWO_31
      modifies pool, pool.os
      ensures pool.Valid() && (old(pool.Even()) ==> pool.Even() && (r != BufferPool.NULL ==> w != BufferPool.NULL))
      ensures r == BufferPool.NULL ==> w == BufferPool.NULL && pool.view == old(pool.view)
      ensures controller == null ==> (old(pool.view).rd.list == [] || old(pool.view).wr.list == []) && pool.AllRefused()
      ensures r != BufferPool.NULL ==> pool.view.rd.out == old(pool.view).rd.out + {r - META}
      ensures w != BufferPool.NULL ==> pool.view.wr.out == old(pool.view).wr.out + {w - META}
      ensures controller != null <==> w != BufferPool.NULL
      ensures controller != null ==> controller.Valid() && controller.View() == Streams([], [], [], [], [], [], [])
      ensures controller != null ==> controller.events == defaultEvents && !controller.peerClosed
      ensures controller != null ==> controller.readBuf.bsize == pool.readBSize
                                     && controller.writeBuf.bsize == pool.writeBSize
      ensures controller != null ==> Apart(r, pool.readBSize, w, pool.writeBSize)
    {
      r, w := pool.OpenPair();
      controller := null;
      if w != BufferPool.NULL {
        BufferPool.BuffersApart(pool.view, pool.R(), pool.W(), r - META, w - META);
        controller := new SOCKController(pool.readBSize, pool.writeBSize, defaultEvents);
      }
    }

    /** One receive into the linear free space, and its commit. */
    method RecvChunk(len: nat) returns (bytes: int, ghost xs: seq<byte>)
      requires Valid() && 0 < len == readBuf.DistanceWrite()
      modifies readBuf, readBuf.buffer, sock
      ensures Valid() && R() == old(R()) + xs && W() == old(W())
      ensures -1 <= bytes <= len && sock.last == bytes && sock.asked == len
      ensures |xs| == (if bytes > 0 then bytes else 0) && readBuf.size == old(readBuf.size) + |xs|
      ensures readBuf.front == Step(old(readBuf.front), |xs|, readBuf.bsize)
      ensures sock.received == old(sock.received) + xs && sock.sent == old(sock.sent)
      ensures sock.recvCalls == old(sock.recvCalls) + 1
    {
      ghost var before := readBuf.buffer[..];
      bytes, xs := sock.Recv(readBuf.buffer, readBuf.WritePtr(), len);
      if bytes > 0 {
        readBuf.CommitWrite(bytes, before, xs);
      } else {
        assert Overwrite(before, readBuf.front, []) == before;
      }
    }

    /** Receives until the read buffer is full or the kernel has no more; false on a socket error. */
    method ReadSocket() returns (ok: bool, ghost got: seq<byte>)
      requires Valid()
      modifies readBuf, readBuf.buffer, sock
      ensures Valid() && R() == old(R()) + got && W() == old(W())
      ensures sock.received == old(sock.received) + got && sock.sent == old(sock.sent)
      ensures sock.recvCalls <= old(sock.recvCalls) + 2
      ensures !ok ==> sock.last == -1
      ensures ok ==> readBuf.size == readBuf.bsize || 0 <= sock.last < sock.asked
    {
      got := [];
      var len := readBuf.DistanceWrite();
      while len != 0
        invariant Valid() && len == readBuf.DistanceWrite()
        invariant R() == old(R()) + got && W() == old(W())
        invariant sock.received == old(sock.received) + got && sock.sent == old(sock.sent)
        invariant sock.recvCalls <= old(sock.recvCalls) + 2
        invariant len > 0 ==>
                    sock.recvCalls + Wraps(readBuf.front, readBuf.bsize - readBuf.size, readBuf.bsize)
                      <= old(sock.recvCalls) + 1
        decreases readBuf.bsize - readBuf.size
      {
        var bytes, xs := RecvChunk(len);
        Assoc(old(R()), got, xs);
        Assoc(old(sock.received), got, xs);
        got := got + xs;
        if bytes == 0 {
          return true, got;
        } else if bytes < 0 {
          return false, got;
        }
        if bytes < len {
          return true, got;
        }
        len := readBuf.DistanceWrite();
      }
      ok := true;
    }

    /** One send of the linear head of `ring`, and its commit. */
    method SendChunk(ring: SPBuffer, len: nat) returns (bytes: int, ghost xs: seq<byte>)
      requires Valid() && (ring == readBuf || ring == writeBuf) && 0 < len == ring.DistanceRead()
      modifies this`taken, this`flushed, ring, sock
      ensures flushed == old(flushed) + (if ring == writeBuf then xs else [])
      ensures taken == old(taken) + (if ring == writeBuf then [] else xs)
      ensures Valid() && |xs| == (if bytes > 0 then bytes else 0) && -1 <= bytes <= len
      ensures old(ring.Contents()) == xs + ring.Contents() && ring.size == old(ring.size) - |xs|
      ensures ring == writeBuf ==> R() == old(R())
      ensures ring == readBuf ==> W() == old(W())
      ensures ring.back == Step(old(ring.back), |xs|, ring.bsize)
      ensures sock.sent == old(sock.sent) + xs && sock.received == old(sock.received)
      ensures sock.sendCalls == old(sock.sendCalls) + 1 && sock.last == bytes && sock.asked == len
    {
      var sentBytes, _ := sock.Send(ring.buffer, ring.ReadPtr(), len);
      bytes := sentBytes;
      ghost var n := if bytes > 0 then bytes else 0;
      xs := ring.Contents()[..n];
      ring.LinearHead(n);
      if bytes > 0 {
        ring.CommitRead(bytes);
      }
      if ring == writeBuf {
        flushed := flushed + xs;
      } else {
        taken := taken + xs;
      }
    }

    /** Sends the write buffer; the result is what is left in it, or -1 on a socket error.
        `out` is the prefix that was sent, also when a later send fails. */
    method CommitWrite() returns (r: int, ghost out: seq<byte>)
      requires Valid()
      modifies this`flushed, this`taken, writeBuf, sock
      ensures Valid() && old(W()) == out + W() && R() == old(R())
      ensures sock.sent == old(sock.sent) + out && sock.received == old(sock.received)
      ensures flushed == old(flushed) + out && taken == old(taken)
      ensures sock.sendCalls <= old(sock.sendCalls) + 2
      ensures r == -1 || r == |W()|
      ensures r == -1 ==> sock.last == -1 && W() != []
      ensures r > 0 ==> 0 <= sock.last < sock.asked
      ensures if old(W()) == [] then sock.sendCalls == old(sock.sendCalls)
              else sock.sendCalls > old(sock.sendCalls) && (r == -1 <==> sock.last == -1)
    {
      out := [];
      var len := writeBuf.DistanceRead();
      while len != 0
        invariant Valid() && len == writeBuf.DistanceRead()
        invariant old(W()) == out + W() && R() == old(R())
        invariant sock.sent == old(sock.sent) + out && sock.received == old(sock.received)
        invariant flushed == old(flushed) + out && taken == old(taken)
        invariant old(sock.sendCalls) <= sock.sendCalls <= old(sock.sendCalls) + 2
        invariant sock.sendCalls == old(sock.sendCalls) ==> W() == old(W())
        invariant sock.sendCalls > old(sock.sendCalls) ==> old(W()) != [] && sock.last > 0
        invariant len > 0 ==>
                    sock.sendCalls + Wraps(writeBuf.back, writeBuf.size, writeBuf.bsize)
                      <= old(sock.sendCalls) + 1
        decreases writeBuf.size
      {
        var bytes, xs := SendChunk(writeBuf, len);
        Assoc(out, xs, W());
        Assoc(old(sock.sent), out, xs);
        Assoc(old(flushed), out, xs);
        out := out + xs;
        if bytes == 0 {
          return writeBuf.BytesRead(), out;
        } else if bytes < 0 {
          return bytes, out;
        }
        if bytes < len {
          return writeBuf.BytesRead(), out;
        }
        len := writeBuf.DistanceRead();
      }
      r := 0;
    }

    /** Sends the write buffer and, once that is empty, the read buffer straight after it. */
    method WriteBack() returns (r: int, ghost out: seq<byte>, ghost direct: seq<byte>)
      requires Valid()
      modifies this`flushed, this`taken, readBuf, writeBuf, sock
      ensures Valid() && old(W()) == out + W() && old(R()) == direct + R()
      ensures sock.sent == old(sock.sent) + out + direct && sock.received == old(sock.received)
      ensures flushed == old(flushed) + out && taken == old(taken) + direct
      ensures direct != [] ==> W() == []
      ensures r == -1 || r == (if W() != [] then |W()| else |direct|)
      ensures r >= 0 && W() != [] ==> 0 <= sock.last < sock.asked
      ensures r >= 0 && W() == [] ==> R() == [] || sock.last == 0
      ensures if old(W()) == [] && old(R()) == [] then sock.sendCalls == old(sock.sendCalls)
              else sock.sendCalls > old(sock.sendCalls) && (r == -1 <==> sock.last == -1)
    {
      r, out := CommitWrite();
      direct := [];
      if r != 0 {
        return;
      }
      r, direct := SendReadBuffer();
    }

    /** The second loop of writeBack: sends from the read buffer until it is empty or the socket refuses. */
    method SendReadBuffer() returns (r: int, ghost direct: seq<byte>)
      requires Valid()
      modifies this`flushed, this`taken, readBuf, sock
      ensures Valid() && old(R()) == direct + R() && W() == old(W())
      ensures sock.sent == old(sock.sent) + direct && sock.received == old(sock.received)
      ensures flushed == old(flushed) && taken == old(taken) + direct
      ensures r == -1 || (r == |direct| && (R() == [] || sock.last == 0))
      ensures if old(R()) == [] then sock.sendCalls == old(sock.sendCalls) && sock.last == old(sock.last) && r == 0
              else sock.sendCalls > old(sock.sendCalls) && (r == -1 <==> sock.last == -1)
    {
      r, direct := 0, [];
      while true
        invariant Valid() && old(R()) == direct + R() && W() == old(W())
        invariant sock.sendCalls >= old(sock.sendCalls)
        invariant sock.sendCalls == old(sock.sendCalls) ==> R() == old(R()) && sock.last == old(sock.last)
        invariant sock.sendCalls > old(sock.sendCalls) ==> old(R()) != [] && sock.last > 0
        invariant sock.sent == old(sock.sent) + direct && sock.received == old(sock.received)
        invariant flushed == old(flushed) && taken == old(taken) + direct
        invariant r == |direct|
        decreases readBuf.size
      {
        var chunk := readBuf.DistanceRead();
        if chunk == 0 {
          break;
        }
        var bytes, xs := SendChunk(readBuf, chunk);
        Assoc(direct, xs, R());
        Assoc(old(sock.sent), direct, xs);
        Assoc(old(taken), direct, xs);
        direct := direct + xs;
        if bytes == 0 {
          break;
        } else if bytes < 0 {
          return bytes, direct;
        }
        r := r + bytes;
      }
    }

    /** One linear copy from the head of the read buffer to the end of the write buffer. */
    method MoveChunk(chunk: nat) returns (ghost xs: seq<byte>)
      requires Valid() && chunk <= readBuf.DistanceRead() && chunk <= writeBuf.DistanceWrite() && chunk > 0
      modifies readBuf, writeBuf, writeBuf.buffer
      ensures Valid() && |xs| == chunk
      ensures old(R()) == xs + R() && W() == old(W()) + xs
      ensures readBuf.back == Step(old(readBuf.back), chunk, readBuf.bsize) && readBuf.size == old(readBuf.size) - chunk
      ensures writeBuf.front == Step(old(writeBuf.front), chunk, writeBuf.bsize)
      ensures writeBuf.size == old(writeBuf.size) + chunk
    {
      ghost var before := writeBuf.buffer[..];
      xs := R()[..chunk];
      readBuf.LinearHead(chunk);
      Copy(writeBuf.buffer, writeBuf.WritePtr(), readBuf.buffer, readBuf.ReadPtr(), chunk);
      readBuf.CommitRead(chunk);
      writeBuf.CommitWrite(chunk, before, xs);
    }

    /** How many of the two runs ahead of a move still run past the end of their ring. */
    ghost function WrapsAhead(): nat
      reads this, readBuf, writeBuf, sock
      requires Valid()
    {
      Wraps(readBuf.back, readBuf.size, readBuf.bsize)
      + Wraps(writeBuf.front, writeBuf.bsize - writeBuf.size, writeBuf.bsize)
    }

    /** One round of the move loop, with `want` bytes still to go: it always makes progress. */
    method MoveRound(want: nat) returns (chunk: nat, ghost xs: seq<byte>)
      requires Valid() && 0 < want <= readBuf.size && want <= writeBuf.bsize - writeBuf.size
      modifies readBuf, writeBuf, writeBuf.buffer
      ensures Valid() && 0 < chunk == |xs| && (chunk >= want || WrapsAhead() < old(WrapsAhead()))
      ensures readBuf.size == old(readBuf.size) - chunk && writeBuf.size == old(writeBuf.size) + chunk
      ensures old(R()) == xs + R() && W() == old(W()) + xs
    {
      var readChunk := readBuf.DistanceRead();
      var writeChunk := writeBuf.DistanceWrite();
      chunk := if readChunk < writeChunk then readChunk else writeChunk;
      if chunk < want {
        MoveWraps(readBuf.back, readBuf.size, readBuf.bsize, readChunk,
                  writeBuf.front, writeBuf.bsize - writeBuf.size, writeBuf.bsize, writeChunk, want);
      }
      xs := MoveChunk(chunk);
    }

    /** Moves as much as fits from the read buffer to the write buffer, in at most three copies.
        The source's exit on an empty chunk is never taken: every round moves at least one byte. */
    method MoveToWriteBuffer() returns (moved: nat, ghost xs: seq<byte>, ghost copies: nat)
      requires Valid()
      modifies this`taken, this`stored, readBuf, writeBuf, writeBuf.buffer
      ensures Valid() && moved == |xs| == Min(|old(R())|, writeBuf.bsize - |old(W())|)
      ensures old(R()) == xs + R() && W() == old(W()) + xs
      ensures taken == old(taken) + xs && stored == old(stored) + xs
      ensures copies <= 3
    {
      moved, xs, copies := 0, [], 0;
      var maxMove := if readBuf.BytesRead() < writeBuf.BytesWrite() then readBuf.BytesRead() else writeBuf.BytesWrite();
      while moved < maxMove
        invariant Valid() && moved == |xs|
        invariant maxMove - moved <= readBuf.size && maxMove - moved <= writeBuf.bsize - writeBuf.size
        invariant old(R()) == xs + R() && W() == old(W()) + xs
        invariant taken == old(taken) && stored == old(stored)
        invariant copies <= 3 && (moved < maxMove ==> copies + WrapsAhead() <= 2)
        invariant moved <= maxMove
        decreases maxMove - moved
      {
        var chunk, piece := MoveRound(maxMove - moved);
        Assoc(xs, piece, R());
        Assoc(old(W()), xs, piece);
        xs, copies := xs + piece, copies + 1;
        moved := Add32(moved, chunk);
      }
      taken, stored := taken + xs, stored + xs;
    }

    /** Takes up to `len` of the oldest received bytes out for the callback; the length is cut to 32 bits first. */
    method Read(buf: array<byte>, len: nat) returns (n: nat, ghost xs: seq<byte>)
      requires Valid() && buf != readBuf.buffer && buf != writeBuf.buffer && len <= buf.Length
      modifies this`taken, readBuf, buf
      ensures Valid() && n == |xs| == Min(Truncate32(len), |old(R())|)
      ensures old(R()) == xs + R() && W() == old(W())
      ensures buf[..] == Overwrite(old(buf[..]), 0, xs) && taken == old(taken) + xs
    {
      ghost var all := R();
      n := readBuf.Read(buf, Truncate32(len));
      xs := all[..n];
      taken := taken + xs;
    }

    /** Stores as much of `buf[..len]` as fits in the write buffer; the length is cut to 32 bits first. */
    method WriteTemp(buf: array<byte>, len: nat) returns (n: nat)
      requires Valid() && buf != readBuf.buffer && buf != writeBuf.buffer && len <= buf.Length
      modifies this`stored, writeBuf, writeBuf.buffer
      ensures Valid() && n == Min(Truncate32(len), writeBuf.bsize - |old(W())|)
      ensures R() == old(R()) && W() == old(W()) + buf[..n]
      ensures stored == old(stored) + buf[..n] && buf[..] == old(buf[..])
    {
      n := writeBuf.Write(buf, Truncate32(len));
      stored := stored + buf[..n];
    }

    /** Sends from the callback's own memory, past both buffers: 0 would block, -2 peer gone, -1 other failure. */
    method Write(buf: array<byte>, len: nat) returns (r: int)
      requires Valid() && buf != readBuf.buffer && buf != writeBuf.buffer && len <= buf.Length
      modifies this`peerClosed, sock
      ensures Valid() && R() == old(R()) && W() == old(W()) && sock.received == old(sock.received)
      ensures -2 <= r <= len && sock.sent == old(sock.sent) + buf[..if r > 0 then r else 0]
      ensures peerClosed <==> old(peerClosed) || r == -2
      ensures sock.sendCalls == old(sock.sendCalls) + 1 && sock.asked == len
      ensures sock.last == if r == -2 then -1 else r
    {
      var bytes, peerGone := sock.Send(buf, 0, len);
      assert buf[..][0..if bytes > 0 then bytes else 0] == buf[..if bytes > 0 then bytes else 0];
      if bytes == -1 && peerGone {
        peerClosed := true;
        return -2;
      }
      r := bytes;
    }

    /** epoll_ctl(EPOLL_CTL_MOD): either takes the new interests or fails and changes nothing. */
    method Modify(interests: set<Interest>) returns (ok: bool)
      modifies this`armed, this`ctls
      ensures armed == (if ok then interests else old(armed)) && ctls == old(ctls) + [(interests, ok)]
    {
      ok := *;
      if ok {
        armed := interests;
      }
      ctls := ctls + [(interests, ok)];
    }

    /** Asks once for the interests wanted.  On success the field and the kernel agree, on failure the field is
        cleared. */
    method EnableEvents(read: bool, write: bool) returns (ok: bool)
      modifies this`armed, this`ctls, this`events
      ensures ctls == old(ctls) + [((if read then {In} else {}) + (if write then {Out} else {}), ok)]
      ensures events == (if !ok then {} else (if read then {In} else {}) + (if write then {Out} else {}))
      ensures armed == if ok then events else old(armed)
    {
      ok := Modify((if read then {In} else {}) + (if write then {Out} else {}));
      events := {};
      if ok {
        if read {
          events := events + {In};
        }
        if write {
          events := events + {Out};
        }
      }
    }

    /** Asks once for the interests of the latest successful enable. */
    method RenableEvents() returns (ok: bool)
      modifies this`armed, this`ctls, this`events
      ensures ctls == old(ctls) + [(old(events), ok)]
      ensures ok ==> armed == events == old(events)
      ensures !ok ==> events == {} && armed == old(armed)
    {
      InOrOut(events);
      ok := Modify((if In in events then {In} else {}) + (if Out in events then {Out} else {}));
      if !ok {
        events := {};
      }
    }

    /** Runs one call; `app` is the callback's own memory. */
    method Call(op: Op, app: array<byte>)
      requires Valid() && app != readBuf.buffer && app != writeBuf.buffer
      modifies this, readBuf, readBuf.buffer, writeBuf, writeBuf.buffer, sock, app
      ensures Valid() && (old(Conserved(View())) ==> Conserved(View()))
      ensures old(Echoing(View())) && op.IsEcho() ==> Echoing(View())
    {
      ghost var v := View();
      match op {
        case Receive =>
          var _, xs := ReadSocket();
          ReceivedKeeps(v, View(), xs);
        case Move =>
          var _, xs, _ := MoveToWriteBuffer();
          MovedKeeps(v, View(), xs);
        case Flush =>
          var _, out := CommitWrite();
          SentOutKeeps(v, View(), out, []);
        case SendBack =>
          var _, out, direct := WriteBack();
          SentOutKeeps(v, View(), out, direct);
        case Take(len) =>
          var _, xs := Read(app, Min(len, app.Length));
          Assoc(v.taken, xs, R());
        case Store(len) =>
          var n := WriteTemp(app, Min(len, app.Length));
          Assoc(v.flushed, v.w, app[..n]);
        case Direct(len) =>
          var _ := Write(app, Min(len, app.Length));
      }
    }

    /** Any run of calls, in any order, against any socket: no byte is lost, repeated or reordered
        in either buffer, and an echo-only run sends back exactly what it received, in order. */
    method Run(ops: seq<Op>, app: array<byte>)
      requires Valid() && app != readBuf.buffer && app != writeBuf.buffer
      requires Conserved(View()) && Echoing(View())
      modifies this, readBuf, readBuf.buffer, writeBuf, writeBuf.buffer, sock, app
      ensures Valid() && Conserved(View())
      ensures (forall op :: op in ops ==> op.IsEcho()) ==> Echoing(View())
    {
      for i := 0 to |ops|
        invariant Valid() && Conserved(View())
        invariant (forall op :: op in ops ==> op.IsEcho()) ==> Echoing(View())
      {
        Call(ops[i], app);
      }
    }
  }
}

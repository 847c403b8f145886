/** SPBuffer: the per-connection circular byte buffer, with its copying and its pointer/commit calls. */
module RingBuffer {
  import opened Words
  import opened Ring

  /** memcpy between two buffers. */
  method Copy(dst: array<byte>, dstAt: nat, src: array<byte>, srcAt: nat, n: nat)
    requires dst != src && dstAt + n <= dst.Length && srcAt + n <= src.Length
    modifies dst
    ensures dst[..] == Overwrite(old(dst[..]), dstAt, src[..][srcAt..srcAt + n])
  {
    forall i | 0 <= i < n {
      dst[dstAt + i] := src[srcAt + i];
    }
  }

  class SPBuffer {
    var back: nat       // where data is consumed from
    var front: nat      // where data is added
    var size: nat       // bytes stored
    const bsize: nat    // capacity
    const buffer: array<byte>

    /** The write position is the read position advanced by the number of stored bytes. */
    ghost predicate Valid()
      reads this
    {
      && 0 < bsize < TWO_31 && buffer.Length == bsize
      && back < bsize && size <= bsize
      && front == Step(back, size, bsize)
    }

    ghost function Contents(): seq<byte>
      reads this, buffer
      requires Valid()
    {
      Held(buffer[..], back, size)
    }

    constructor (capacity: nat)
      requires 0 < capacity < TWO_31
      ensures Valid() && fresh(buffer) && bsize == capacity && Contents() == []
    {
      bsize := capacity;
      buffer := new byte[capacity];
      back, front, size := 0, 0, 0;
    }

    function BytesRead(): nat
      reads this
    {
      size
    }

    function BytesWrite(): nat
      reads this
      requires Valid()
    {
      Sub32(bsize, size)
    }

    /** How many bytes can be stored from `front` without wrapping; zero only when full. */
    function DistanceWrite(): (d: nat)
      reads this
      requires Valid()
      ensures d <= bsize - size && front + d <= bsize
      ensures d == 0 <==> size == bsize
      ensures d == bsize - size || front + d == bsize
    {
      var writeAvailable := BytesWrite();
      var linearSpace := Sub32(bsize, front);
      if linearSpace > writeAvailable then writeAvailable else linearSpace
    }

    /** How many bytes can be taken from `back` without wrapping; zero only when empty. */
    function DistanceRead(): (d: nat)
      reads this
      requires Valid()
      ensures d <= size && back + d <= bsize
      ensures d == 0 <==> size == 0
      ensures d == size || back + d == bsize
    {
      var readAvailable := BytesRead();
      var linearSpace := Sub32(bsize, back);
      if linearSpace > readAvailable then readAvailable else linearSpace
    }

    /** What the pointer API lets a caller read: the linear run at `back` is the oldest bytes. */
    lemma LinearHead(n: nat)
      requires Valid() && n <= DistanceRead()
      ensures buffer[..][back..back + n] == Contents()[..n]
    {
      HeldInOne(buffer[..], back, size, n);
    }

    /** The ring law in the division the source writes. */
    lemma FrontFromBack()
      requires Valid()
      ensures front == (back + size) % bsize
    {
      StepIsMod(back, size, bsize);
    }

    /** Consumes the `len` oldest bytes. */
    method CommitRead(len: nat)
      requires Valid() && len <= size
      modifies this
      ensures Valid() && Contents() == old(Contents())[len..]
      ensures old(Contents()) == old(Contents())[..len] + Contents()
      ensures back == Step(old(back), len, bsize) && front == old(front) && size == old(size) - len
    {
      HeldDrop(buffer[..], back, size, len);
      back := Advance32(back, len, bsize);
      size := Sub32(size, len);
    }

    /** Counts in `len` bytes that the caller has stored linearly from `front`.  The ghost
        arguments are the buffer before that store and the bytes stored. */
    method CommitWrite(len: nat, ghost before: seq<byte>, ghost xs: seq<byte>)
      requires Valid() && len <= DistanceWrite() && |before| == bsize && |xs| == len
      requires buffer[..] == Overwrite(before, front, xs)
      modifies this
      ensures Valid() && size == old(size) + len
      ensures Contents() == Held(before, old(back), old(size)) + xs
      ensures size > 0 ==> back == old(back) && front == Step(old(front), len, bsize)
      ensures size == 0 ==> back == front == 0
    {
      HeldAppend(before, back, size, xs);
      front := Advance32(front, len, bsize);
      size := Add32(size, len);
      if size == 0 {
        front, back := 0, 0;
      }
    }

    /** The offset of the write position in `buffer`. */
    function WritePtr(): nat
      reads this
    {
      front
    }

    /** The offset of the read position in `buffer`. */
    function ReadPtr(): nat
      reads this
    {
      back
    }

    /** Copies the oldest `min(len, size)` bytes out, in two pieces when they wrap, and consumes them. */
    method Read(buf: array<byte>, len: nat) returns (n: nat)
      requires Valid() && buf != buffer && len <= buf.Length && len < TWO_32
      modifies this, buf
      ensures Valid() && n == Min(len, old(size))
      ensures buf[..] == Overwrite(old(buf[..]), 0, old(Contents())[..n])
      ensures Contents() == old(Contents())[n..]
      ensures n > 0 && size == 0 ==> front == back == 0
      ensures n == 0 || size > 0 ==> front == old(front)
    {
      if len == 0 || size == 0 {
        assert Overwrite(buf[..], 0, []) == buf[..];
        return 0;
      }
      n := CopyOut(buf, len);
      HeldDrop(buffer[..], back, size, n);
      size := Sub32(size, n);
      if size == 0 {
        front, back := 0, 0;
      } else {
        back := Advance32(back, n, bsize);
      }
    }

    /** Copies the oldest `min(len, size)` bytes out and leaves the buffer as it is. */
    method Peek(buf: array<byte>, len: nat) returns (n: nat)
      requires Valid() && buf != buffer && len <= buf.Length && len < TWO_32
      modifies buf
      ensures n == Min(len, size)
      ensures buf[..] == Overwrite(old(buf[..]), 0, Contents()[..n])
      ensures Valid() && Contents() == old(Contents())
    {
      if len == 0 || size == 0 {
        assert Overwrite(buf[..], 0, []) == buf[..];
        return 0;
      }
      n := CopyOut(buf, len);
    }

    /** The split copy that Read and Peek share. */
    method CopyOut(buf: array<byte>, len: nat) returns (n: nat)
      requires Valid() && buf != buffer && len <= buf.Length && 0 < len < TWO_32 && size > 0
      modifies buf
      ensures n == Min(len, size)
      ensures buf[..] == Overwrite(old(buf[..]), 0, Contents()[..n])
      ensures buffer[..] == old(buffer[..])
    {
      n := if len > size then size else len;
      var firstChunk := if Add32(back, n) > bsize then Sub32(bsize, back) else n;
      ghost var d := buf[..];
      CopyOutFirst(buf, firstChunk);
      if firstChunk < n {
        CopyOutRest(buf, n, firstChunk, d);
      }
    }

    /** The first piece of a split copy, up to the end of the ring. */
    method CopyOutFirst(buf: array<byte>, first: nat)
      requires Valid() && buf != buffer && first <= size && first <= buf.Length && back + first <= bsize
      modifies buf
      ensures buf[..] == Overwrite(old(buf[..]), 0, buffer[..][back..back + first])
      ensures buffer[..][back..back + first] == Contents()[..first] && buffer[..] == old(buffer[..])
    {
      ghost var b := buffer[..];
      Copy(buf, 0, buffer, back, first);
      assert buffer[..] == b;
      HeldInOne(b, back, size, first);
    }

    /** The second piece of a split copy, from the start of the ring; `d` is the destination before the first. */
    method CopyOutRest(buf: array<byte>, n: nat, first: nat, ghost d: seq<byte>)
      requires Valid() && buf != buffer && back + first == bsize && first < n <= size && n <= buf.Length == |d|
      requires buf[..] == Overwrite(d, 0, buffer[..][back..back + first])
      modifies buf
      ensures buf[..] == Overwrite(d, 0, Contents()[..n])
      ensures buffer[..] == old(buffer[..])
    {
      ghost var b, e := buffer[..], buf[..];
      Copy(buf, first, buffer, 0, Sub32(n, first));
      assert buffer[..] == b;
      HeldInTwo(b, back, size, n, first, d, e, buf[..]);
    }

    /** Copies in as much of `buf[..len]` as fits, in two pieces when it wraps. */
    method Write(buf: array<byte>, len: nat) returns (n: nat)
      requires Valid() && buf != buffer && len <= buf.Length && len < TWO_32
      modifies this, buffer
      ensures Valid() && n == Min(len, bsize - old(size))
      ensures Contents() == old(Contents()) + buf[..n]
      ensures back == old(back)
    {
      if len == 0 || BytesWrite() == 0 {
        return 0;
      }
      n := if len > BytesWrite() then BytesWrite() else len;
      CopyIn(buf, n);
      front := Advance32(front, n, bsize);
      size := Add32(size, n);
    }

    /** The split copy of Write: stores `buf[..n]` from the write position on, not yet counted in. */
    method CopyIn(buf: array<byte>, n: nat)
      requires Valid() && buf != buffer && 0 < n <= buf.Length && n <= bsize - size
      modifies buffer
      ensures buf[..] == old(buf[..])
      ensures Held(buffer[..], back, size + n) == old(Contents()) + buf[..n]
    {
      var firstChunk := if Add32(front, n) > bsize then Sub32(bsize, front) else n;
      ghost var b, xs := buffer[..], buf[..n];
      Slices(buf[..], n, firstChunk);
      Copy(buffer, front, buf, 0, firstChunk);
      if firstChunk < n {
        CopyInRest(buf, n, firstChunk, b, xs);
      } else {
        HeldAppend(b, back, size, xs);
      }
    }

    /** The second piece of that, to the start of the ring; `b` is the ring before the first. */
    method CopyInRest(buf: array<byte>, n: nat, first: nat, ghost b: seq<byte>, ghost xs: seq<byte>)
      requires Valid() && buf != buffer && first < n <= buf.Length && n <= bsize - size && front + first == bsize
      requires |b| == bsize && xs == buf[..n] && buffer[..] == Overwrite(b, front, xs[..first])
      modifies buffer
      ensures buf[..] == old(buf[..]) && Held(buffer[..], back, size + n) == Held(b, back, size) + xs
    {
      ghost var c := buffer[..];
      Slices(buf[..], n, first);
      Copy(buffer, 0, buf, first, Sub32(n, first));
      HeldAppendInTwo(b, back, size, xs, first, c, buffer[..]);
    }
  }

  /** The two pieces of the first `n` elements. */
  lemma Slices(s: seq<byte>, n: nat, first: nat)
    requires first <= n <= |s|
    ensures s[0..first] == s[..n][..first] && s[first..n] == s[..n][first..]
    ensures first == n ==> s[..n][..first] == s[..n]
  {
  }
}

/**
 The address arithmetic of one pool allocation: a 4-byte reference count, then `num` read nodes
 of `r` bytes each, then `num` write nodes of `w` bytes each.
 */
module BufferLayout {
  import opened Words

  /** Bytes before the first node: the block's reference count. */
  const HEADER: nat := 4

  /** Bytes of a node before its payload: the pointers to the block and to the next free node. */
  const META: nat := 16

  /** The length of `n` nodes of `stride` bytes. */
  function Bytes(stride: nat, n: nat): nat
  {
    if n == 0 then 0 else Bytes(stride, n - 1) + stride
  }

  lemma {:induction false} BytesIsProduct(stride: nat, n: nat)
    ensures Bytes(stride, n) == stride * n == n * stride
  {
    if n > 0 {
      BytesIsProduct(stride, n - 1);
    }
  }

  lemma {:induction false} BytesStep(stride: nat, i: nat, j: nat)
    requires i < j
    ensures Bytes(stride, i) + stride <= Bytes(stride, j)
  {
    if i < j - 1 {
      BytesStep(stride, i, j - 1);
    }
  }

  function TotalSize(num: nat, r: nat, w: nat): nat
  {
    HEADER + Bytes(r, num) + Bytes(w, num)
  }

  /** The size as the source computes it. */
  lemma TotalSizeIsProduct(num: nat, r: nat, w: nat)
    ensures HEADER + (r + w) * num == TotalSize(num, r, w)
    ensures num > 0 && w > 0 ==> TotalSize(num, r, w) > HEADER
  {
    BytesIsProduct(r, num);
    BytesIsProduct(w, num);
    if num > 0 {
      BytesStep(w, 0, num);
    }
  }

  lemma TotalSizeGrows(m: nat, n: nat, r: nat, w: nat)
    requires m <= n
    ensures TotalSize(m, r, w) <= TotalSize(n, r, w)
  {
    if m < n {
      BytesStep(r, m, n);
      BytesStep(w, m, n);
    }
  }

  /** What malloc is asked for when a block needs `total` bytes: the size is computed as an `int`, and passed as a
      `size_t`, which makes a number of 2^63 or more of a negative one. */
  function Asked(total: nat): nat
  {
    if total % TWO_32 < TWO_31 then total % TWO_32 else total % TWO_32 + (TWO_64 - TWO_32)
  }

  /** The size of a block does not wrap to a smaller positive `int`. */
  predicate Sizeable(total: nat)
  {
    total < TWO_31 || TWO_31 <= total % TWO_32
  }

  /** Nobody grants 2^63 bytes.  What may be granted holds the whole block if and only if that is so. */
  lemma AskedHoldsIff(total: nat)
    ensures (Asked(total) < TWO_63 ==> total <= Asked(total)) <==> Sizeable(total)
    ensures Sizeable(total) && Asked(total) < TWO_63 ==> Asked(total) == total
  {
    if total < TWO_31 {
      ModSmall(total, TWO_32);
    }
  }

  /** A configuration that is accepted all the same: 1024 pairs of 2 MiB buffers need more than 2^32 bytes, and
      malloc is asked for 32772. */
  lemma BlockTooSmall()
    ensures var size := 2 * 1024 * 1024 + META;
            && TotalSize(1024, size, size) == TWO_32 + 32772
            && Asked(TotalSize(1024, size, size)) == 32772 && !Sizeable(TotalSize(1024, size, size))
  {
    TotalSizeIsProduct(1024, 2 * 1024 * 1024 + META, 2 * 1024 * 1024 + META);
  }

  /** That none of the sizes wraps which are asked for in turn, from `num` pairs down to one. */
  predicate SoundSizes(num: nat, r: nat, w: nat)
  {
    num == 0 || (Sizeable(TotalSize(num, r, w)) && SoundSizes(num / 2, r, w))
  }

  /** So it is whenever the largest size is an `int`. */
  lemma {:induction false} SmallIsSound(num: nat, r: nat, w: nat)
    requires TotalSize(num, r, w) < TWO_31
    ensures SoundSizes(num, r, w)
  {
    if num > 0 {
      TotalSizeGrows(num / 2, num, r, w);
      SmallIsSound(num / 2, r, w);
    }
  }

  /** The addresses of `num` nodes laid `stride` bytes apart from `start`. */
  function Cells(start: int, stride: nat, num: nat): (c: seq<int>)
    ensures |c| == num
  {
    seq(num, i requires 0 <= i => start + Bytes(stride, i))
  }

  function ReadCells(base: int, num: nat, r: nat): seq<int>
  {
    Cells(base + HEADER, r, num)
  }

  function WriteCells(base: int, num: nat, r: nat, w: nat): seq<int>
  {
    Cells(base + HEADER + Bytes(r, num), w, num)
  }

  /** The byte ranges `[a, a + m)` and `[b, b + n)` have no byte in common. */
  predicate Apart(a: int, m: nat, b: int, n: nat)
  {
    a + m <= b || b + n <= a
  }

  /** The `2 * num` nodes of an allocation: node `k` is read node `k`, or write node `k - num`. */
  function NodeAt(base: int, num: nat, r: nat, w: nat, k: nat): int
    requires k < 2 * num
  {
    if k < num then ReadCells(base, num, r)[k] else WriteCells(base, num, r, w)[k - num]
  }

  function NodeLen(num: nat, r: nat, w: nat, k: nat): nat
  {
    if k < num then r else w
  }

  /** The nodes tile the allocation: the first starts right after the header, each next one starts
      where the one before ends, and the last ends exactly at the total size. */
  lemma NodesTile(base: int, num: nat, r: nat, w: nat, k: nat)
    requires k < 2 * num
    ensures k == 0 ==> NodeAt(base, num, r, w, k) == base + HEADER
    ensures k + 1 < 2 * num ==>
              NodeAt(base, num, r, w, k + 1) == NodeAt(base, num, r, w, k) + NodeLen(num, r, w, k)
    ensures k + 1 == 2 * num ==>
              NodeAt(base, num, r, w, k) + NodeLen(num, r, w, k) == base + TotalSize(num, r, w)
  {
    if k + 1 == num {
      assert NodeAt(base, num, r, w, k + 1) == base + HEADER + Bytes(r, num) + Bytes(w, 0);
    }
  }

  /** Hence no two nodes overlap, and none reaches outside the allocation. */
  lemma {:induction false} NodesApart(base: int, num: nat, r: nat, w: nat, j: nat, k: nat)
    requires j < k < 2 * num
    ensures NodeAt(base, num, r, w, j) + NodeLen(num, r, w, j) <= NodeAt(base, num, r, w, k)
    ensures base + HEADER <= NodeAt(base, num, r, w, j)
    ensures NodeAt(base, num, r, w, k) + NodeLen(num, r, w, k) <= base + TotalSize(num, r, w)
    decreases k - j
  {
    NodeInside(base, num, r, w, j);
    NodeInside(base, num, r, w, k);
    NodesTile(base, num, r, w, k - 1);
    if j < k - 1 {
      NodesApart(base, num, r, w, j, k - 1);
    }
  }

  lemma NodeInside(base: int, num: nat, r: nat, w: nat, k: nat)
    requires k < 2 * num
    ensures base + HEADER <= NodeAt(base, num, r, w, k)
    ensures NodeAt(base, num, r, w, k) + NodeLen(num, r, w, k) <= base + TotalSize(num, r, w)
  {
    if k < num {
      BytesStep(r, k, num);
    } else {
      BytesStep(w, k - num, num);
    }
  }
}

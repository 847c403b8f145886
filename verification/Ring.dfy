/** Circular buffers as values: which sequence a ring holds, and what linear copies do to it. */
module Ring {
  import opened Words

  /** What the ring `b` holds when `size` elements are stored from position `back`. */
  function Held<T>(b: seq<T>, back: nat, size: nat): (s: seq<T>)
    requires back < |b| && size <= |b|
    ensures |s| == size
  {
    seq(size, i requires 0 <= i < size => b[Step(back, i, |b|)])
  }

  /** Moving `back` forward by `k` drops exactly the first `k` elements. */
  lemma HeldDrop<T>(b: seq<T>, back: nat, size: nat, k: nat)
    requires back < |b| && k <= size <= |b|
    ensures Held(b, Step(back, k, |b|), size - k) == Held(b, back, size)[k..]
  {
  }

  /** `b` with `xs` stored linearly at position `at`, everything else kept. */
  function Overwrite<T>(b: seq<T>, at: nat, xs: seq<T>): (c: seq<T>)
    requires at + |xs| <= |b|
    ensures |c| == |b|
  {
    b[..at] + xs + b[at + |xs|..]
  }

  /** Storing `xs` linearly at the write position and counting it in appends exactly `xs`. */
  lemma HeldAppend<T>(b: seq<T>, back: nat, size: nat, xs: seq<T>)
    requires back < |b| && size + |xs| <= |b| && Step(back, size, |b|) + |xs| <= |b|
    ensures Held(Overwrite(b, Step(back, size, |b|), xs), back, size + |xs|) == Held(b, back, size) + xs
  {
  }

  /** One linear copy takes out a prefix that does not wrap. */
  lemma HeldInOne<T>(b: seq<T>, back: nat, size: nat, n: nat)
    requires back < |b| && n <= size <= |b| && back + n <= |b|
    ensures b[back..back + n] == Held(b, back, size)[..n]
  {
  }

  /** Two linear copies, up to the end and then from the start, take out a prefix that wraps. */
  lemma HeldInTwo<T>(b: seq<T>, back: nat, size: nat, n: nat, first: nat, d: seq<T>, e: seq<T>, f: seq<T>)
    requires back < |b| && n <= size <= |b| && back + first == |b| && first <= n <= |d|
    requires e == Overwrite(d, 0, b[back..back + first])
    requires f == Overwrite(e, first, b[0..n - first])
    ensures f == Overwrite(d, 0, Held(b, back, size)[..n])
  {
    assert Held(b, back, size)[..n] == b[back..back + first] + b[0..n - first];
  }

  /** Two linear stores, up to the end and then at the start, append a run that wraps. */
  lemma HeldAppendInTwo<T>(b: seq<T>, back: nat, size: nat, xs: seq<T>, first: nat, c: seq<T>, d: seq<T>)
    requires back < |b| && size + |xs| <= |b| && Step(back, size, |b|) + first == |b| && first <= |xs|
    requires c == Overwrite(b, Step(back, size, |b|), xs[..first])
    requires d == Overwrite(c, 0, xs[first..])
    ensures Held(d, back, size + |xs|) == Held(b, back, size) + xs
  {
    HeldAppend(b, back, size, xs[..first]);
    assert Step(back, size + first, |b|) == 0;
    HeldAppend(c, back, size + first, xs[first..]);
    assert xs[..first] + xs[first..] == xs;
  }
}

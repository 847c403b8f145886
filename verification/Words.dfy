/** Machine words: bytes, 32-bit unsigned arithmetic, and positions on a ring. */
module Words {

  newtype byte = x: int | 0 <= x < 256

  /** An exclusive bound of `unsigned int`. */
  const TWO_32: nat := 0x1_0000_0000

  /** An exclusive bound of the sizes a signed `int` configuration field can hold. */
  const TWO_31: nat := 0x8000_0000

  /** Exclusive bounds of `ssize_t` and `size_t`. */
  const TWO_63: nat := 0x8000_0000_0000_0000
  const TWO_64: nat := 0x1_0000_0000_0000_0000

  /** `a + b` on `unsigned int`: wraps at 2^32. */
  function Add32(a: nat, b: nat): nat
    requires a < TWO_32 && b < TWO_32
  {
    if a + b < TWO_32 then a + b else a + b - TWO_32
  }

  /** `a - b` on `unsigned int`: wraps below zero. */
  function Sub32(a: nat, b: nat): nat
    requires a < TWO_32 && b < TWO_32
  {
    if b <= a then a - b else a + TWO_32 - b
  }

  /** A `size_t` passed where `unsigned int` is expected. */
  function Truncate32(n: nat): (r: nat)
    ensures r <= n && r < TWO_32
    ensures n < TWO_32 ==> r == n
  {
    n % TWO_32
  }

  function Min(a: nat, b: nat): (m: nat)
  {
    if a < b then a else b
  }

  /** The position `k` places after `p` on a ring of `n` places, written without a division. */
  function Step(p: nat, k: nat, n: nat): nat
    requires p < n && k <= n
  {
    if p + k < n then p + k else p + k - n
  }

  lemma ModSmall(x: nat, n: nat)
    requires x < n
    ensures x % n == x
  {
  }

  lemma ModOnce(x: nat, n: nat)
    requires 0 < n <= x < n + n
    ensures x % n == x - n
  {
    assert x == n * 1 + (x - n);
  }

  lemma Add32IsMod(a: nat, b: nat)
    requires a < TWO_32 && b < TWO_32
    ensures Add32(a, b) == (a + b) % TWO_32
  {
  }

  /** Quotient and remainder are determined by their sum. */
  lemma ModUnique(x: nat, n: nat, k: nat, r: nat)
    requires r < n && x == n * k + r
    ensures x % n == r
  {
    var q, s := x / n, x % n;
    assert x == n * q + s;
    if q < k {
      MulGap(q, k, n);
      assert false;
    } else if k < q {
      MulGap(k, q, n);
      assert false;
    }
  }

  lemma {:induction false} MulGap(a: nat, b: nat, n: nat)
    requires a < b
    ensures n * a + n <= n * b
  {
    MulStep(n, b - 1);
    if a < b - 1 {
      MulGap(a, b - 1, n);
    }
  }

  lemma MulStep(n: nat, b: nat)
    ensures n * (b + 1) == n * b + n
  {
  }

  /** `n` times `a` as repeated addition, which keeps products out of proofs that only pass the value on. */
  function Times(a: nat, n: nat): nat
  {
    if n == 0 then 0 else Times(a, n - 1) + a
  }

  lemma {:induction false} TimesIsProduct(a: nat, n: nat)
    ensures Times(a, n) == a * n
  {
    if n > 0 {
      TimesIsProduct(a, n - 1);
      MulStep(a, n - 1);
    }
  }

  lemma ModStep(x: nat, n: nat)
    requires 0 < n <= x
    ensures (x - n) % n == x % n
  {
    var q, r := (x - n) / n, (x - n) % n;
    assert x - n == n * q + r;
    MulStep(n, q);
    ModUnique(x, n, q + 1, r);
  }

  /** `x % n` as repeated subtraction, which keeps division out of proofs that only pass the value on. */
  function Rem(x: nat, n: nat): (r: nat)
    requires 0 < n
    ensures r < n
  {
    if x < n then x else Rem(x - n, n)
  }

  lemma {:induction false} RemIsMod(x: nat, n: nat)
    requires 0 < n
    ensures Rem(x, n) == x % n
  {
    if x < n {
      ModSmall(x, n);
    } else {
      RemIsMod(x - n, n);
      ModStep(x, n);
    }
  }

  /** Taking a multiple away leaves the remainder. */
  lemma {:induction false} RemShift(x: nat, m: nat, n: nat)
    requires 0 < n && m <= x && Rem(m, n) == 0
    ensures Rem(x - m, n) == Rem(x, n)
    decreases m
  {
    if m >= n {
      RemShift(x - n, m - n, n);
    }
  }

  /** Taking no more than the remainder away comes off the remainder. */
  lemma {:induction false} RemLess(x: nat, m: nat, n: nat)
    requires 0 < n && m <= x && m <= Rem(x, n)
    ensures Rem(x - m, n) == Rem(x, n) - m
    decreases x
  {
    if x >= n {
      RemAtMost(x - n, n);
      RemLess(x - n, m, n);
    }
  }

  lemma {:induction false} RemAtMost(x: nat, n: nat)
    requires 0 < n
    ensures Rem(x, n) <= x
  {
    if x >= n {
      RemAtMost(x - n, n);
    }
  }

  /** Fewer than `n` apart, two numbers have different remainders. */
  lemma {:induction false} RemDistinct(x: nat, y: nat, n: nat)
    requires x < y < x + n
    ensures Rem(x, n) != Rem(y, n)
    decreases x
  {
    if x >= n {
      RemDistinct(x - n, y - n, n);
    }
  }

  /** Dividing is only ever one conditional subtraction. */
  lemma StepIsMod(p: nat, k: nat, n: nat)
    requires p < n && k <= n
    ensures (p + k) % n == Step(p, k, n)
    ensures Step(p, k, n) < n
  {
    if p + k < n {
      ModSmall(p + k, n);
    } else {
      ModOnce(p + k, n);
    }
  }

  /** `(p + k) % n` on `unsigned int`, the way every ring of the program advances a position.
      On a ring shorter than 2^31 the 32-bit sum never wraps. */
  method Advance32(p: nat, k: nat, n: nat) returns (r: nat)
    requires p < n < TWO_31 && k <= n
    ensures r == Step(p, k, n) < n
  {
    r := Add32(p, k) % n;
    StepIsMod(p, k, n);
  }
}

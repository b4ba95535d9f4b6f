/**
 Index arithmetic of the ring-buffer blocks in
 Baseline/include/messageQueue/readerwriterqueue.h. The code wraps an index with
 `(i + 1) & sizeMask`; the queue model wraps it with `Advance`. The lemmas here show
 that the two agree on every power-of-two block size, and that `ceilToPow2` only ever
 produces such sizes.
 */
module RingArithmetic {

  predicate IsPow2(n: nat) {
    n == 1 || (n >= 2 && n % 2 == 0 && IsPow2(n / 2))
  }

  /** Bitwise conjunction of two unbounded naturals. */
  function And(x: nat, y: nat): nat {
    if x == 0 || y == 0 then 0 else 2 * And(x / 2, y / 2) + (x % 2) * (y % 2)
  }

  /** The next index of a circular buffer with `size` slots. */
  function Advance(i: nat, size: nat): (r: nat)
    requires i < size
    ensures r < size
  {
    if i + 1 == size then 0 else i + 1
  }

  /** How many `Advance` steps lead from `a` to `b`. */
  function Dist(a: nat, b: nat, size: nat): (d: nat)
    requires a < size && b < size
    ensures d < size && (d == 0 <==> a == b)
  {
    if a <= b then b - a else b + size - a
  }

  lemma DivModUnique(x: nat, m: nat, q: nat, r: nat)
    requires r < m && x == q * m + r
    ensures x % m == r && x / m == q
  {
    var d := x / m - q;
    assert x == (x / m) * m + x % m;
    assert d * m == r - x % m;
    assert -1 < d < 1 by {
      assert d >= 1 ==> d * m >= m;
      assert d <= -1 ==> d * m <= 0 - m;
    }
  }

  /** `x mod 2h` in terms of the halves of `x`. */
  lemma HalveMod(x: nat, h: nat)
    requires h > 0
    ensures x % (2 * h) == 2 * ((x / 2) % h) + x % 2
  {
    var q, r := (x / 2) / h, (x / 2) % h;
    assert x / 2 == q * h + r;
    assert q * (2 * h) == 2 * (q * h);
    DivModUnique(x, 2 * h, q, 2 * r + x % 2);
  }

  lemma {:induction false} MaskIsMod(x: nat, size: nat)
    requires IsPow2(size)
    ensures And(x, size - 1) == x % size
  {
    if size > 1 && x > 0 {
      MaskIsMod(x / 2, size / 2);
      HalveMod(x, size / 2);
      assert (size - 1) / 2 == size / 2 - 1 && (size - 1) % 2 == 1;
    }
  }

  /** `(i + 1) & sizeMask` is `Advance`. */
  lemma MaskedIncrement(i: nat, size: nat)
    requires IsPow2(size) && i < size
    ensures And(i + 1, size - 1) == Advance(i, size)
  {
    MaskIsMod(i + 1, size);
    if i + 1 == size {
      DivModUnique(i + 1, size, 1, 0);
    } else {
      DivModUnique(i + 1, size, 0, i + 1);
    }
  }

  /** The word size `2^64`, a multiple of every block size that fits a machine word. */
  const WORD: nat := 0x1_0000_0000_0000_0000

  lemma {:induction false} Pow2Divides(size: nat, word: nat) returns (k: nat)
    requires IsPow2(size) && IsPow2(word) && size <= word
    ensures word == k * size
  {
    if size == 1 {
      k := word;
    } else {
      k := Pow2Divides(size / 2, word / 2);
      assert k * size == 2 * (k * (size / 2));
    }
  }

  /** The least power of two that is at least `x`. */
  function CeilToPow2(x: nat): (r: nat)
    requires x >= 1
    ensures IsPow2(r) && x <= r < 2 * x
  {
    if x == 1 then 1 else 2 * CeilToPow2((x + 1) / 2)
  }
}

/**
 `ceilToPow2` of Baseline/include/messageQueue/readerwriterqueue.h, the shift-and-or cascade
 on 64-bit words, against the least power of two; and the wrapped difference of
 `size_approx`.
 */
module PowerOfTwo {
  import opened RingArithmetic

  function P2(k: nat): (r: nat)
    ensures r >= 1
  {
    if k == 0 then 1 else 2 * P2(k - 1)
  }

  /** `x >> k` */
  function Shr(x: nat, k: nat): nat {
    if k == 0 then x else Shr(x / 2, k - 1)
  }

  /** `x | y` */
  function Or(x: nat, y: nat): nat {
    if x == 0 then y else if y == 0 then x
    else 2 * Or(x / 2, y / 2) + if x % 2 == 1 || y % 2 == 1 then 1 else 0
  }

  /** The number of binary digits. */
  function Bits(x: nat): nat {
    if x == 0 then 0 else 1 + Bits(x / 2)
  }

  lemma {:induction false} P2Add(j: nat, k: nat)
    ensures P2(j + k) == P2(j) * P2(k)
  {
    if j > 0 {
      P2Add(j - 1, k);
      assert 2 * (P2(j - 1) * P2(k)) == 2 * P2(j - 1) * P2(k);
    }
  }

  lemma P2Double(k: nat)
    ensures P2(k + 1) == 2 * P2(k)
  {
  }

  lemma {:induction false} P2IsPow2(k: nat)
    ensures IsPow2(P2(k))
  {
    if k > 0 {
      P2IsPow2(k - 1);
    }
  }

  lemma {:induction false} P2Monotone(j: nat, k: nat)
    requires j <= k
    ensures P2(j) <= P2(k)
  {
    if j < k {
      P2Monotone(j, k - 1);
    }
  }

  lemma HalfWords()
    ensures P2(16) == 0x1_0000
  {
    assert P2(8) == 256;
    P2Add(8, 8);
  }

  /** `size_t` has 64 bits. */
  lemma WordBits()
    ensures P2(64) == WORD && IsPow2(WORD)
  {
    hide P2, IsPow2;
    HalfWords();
    P2Add(16, 16);
    P2Add(32, 32);
    P2IsPow2(64);
  }

  /** `(tail - front) & sizeMask`, computed with 64-bit wrap-around, is `Dist`. */
  lemma MaskedDifference(front: nat, tail: nat, size: nat)
    requires IsPow2(size) && front < size && tail < size && size <= WORD
    ensures And((tail - front) % WORD, size - 1) == Dist(front, tail, size)
  {
    hide And, IsPow2;
    WordBits();
    MaskIsMod((tail - front) % WORD, size);
    if front <= tail {
      DivModUnique(tail - front, WORD, 0, tail - front);
      DivModUnique(tail - front, size, 0, tail - front);
    } else {
      var k := Pow2Divides(size, WORD);
      assert k >= 1;
      var w := WORD + tail - front;
      assert (tail - front) % WORD == w;
      assert w == (k - 1) * size + (tail + size - front);
      DivModUnique(w, size, k - 1, tail + size - front);
    }
  }

  lemma {:induction false} BitsBound(x: nat)
    ensures x < P2(Bits(x)) && (x > 0 ==> P2(Bits(x) - 1) <= x)
  {
    if x > 0 {
      BitsBound(x / 2);
    }
  }

  lemma {:induction false} BitsAtMost(x: nat, k: nat)
    requires x < P2(k)
    ensures Bits(x) <= k
  {
    if x > 0 {
      BitsAtMost(x / 2, k - 1);
    }
  }

  // ----- shifting -----

  lemma {:induction false} ShrTwice(x: nat, j: nat, k: nat)
    ensures Shr(Shr(x, j), k) == Shr(x, j + k)
  {
    if j > 0 {
      ShrTwice(x / 2, j - 1, k);
    }
  }

  lemma {:induction false} ShrBound(x: nat, k: nat, n: nat)
    ensures n * P2(k) <= x <==> n <= Shr(x, k)
    decreases k
  {
    if k > 0 {
      ShrBound(x / 2, k - 1, n);
      TwiceProduct(n, P2(k - 1));
      HalfBound(n * P2(k - 1), x);
    }
  }

  lemma TwiceProduct(n: nat, p: nat)
    ensures n * (2 * p) == 2 * (n * p)
  {
  }

  lemma HalfBound(t: nat, x: nat)
    ensures 2 * t <= x <==> t <= x / 2
  {
  }

  lemma OrHalf(x: nat, y: nat)
    ensures Or(x, y) / 2 == Or(x / 2, y / 2)
  {
  }

  lemma {:induction false} ShrOr(x: nat, y: nat, k: nat)
    ensures Shr(Or(x, y), k) == Or(Shr(x, k), Shr(y, k))
    decreases k
  {
    if k > 0 {
      OrHalf(x, y);
      ShrOr(x / 2, y / 2, k - 1);
    }
  }

  lemma OrOdd(x: nat, y: nat)
    requires y % 2 == 1
    ensures Or(x, y) == 2 * Or(x / 2, y / 2) + 1
  {
  }

  /** Setting the low `k` bits. */
  lemma {:induction false} OrOnes(x: nat, k: nat)
    ensures Or(x, P2(k) - 1) == Shr(x, k) * P2(k) + P2(k) - 1
    decreases k
  {
    hide Or;
    if k == 0 {
      OrZero(x);
    } else {
      OrOnes(x / 2, k - 1);
      var p, n := P2(k - 1), Shr(x, k);
      assert (2 * p - 1) / 2 == p - 1 && (2 * p - 1) % 2 == 1;
      OrOdd(x, 2 * p - 1);
      assert n * (2 * p) == 2 * (n * p);
    }
  }

  // ----- the cascade -----

  /** `v` has `k` bits, of which the highest `r` are ones. */
  predicate TopOnes(v: nat, k: nat, r: nat) {
    v < P2(k) && P2(k) <= v + P2(if r < k then k - r else 0)
  }

  /** `x | x >> r` */
  function Smear(x: nat, r: nat): nat {
    Or(x, Shr(x, r))
  }

  /** At most `2r` bits with `r` ones on top become all ones. */
  lemma SmearShort(a: nat, s: nat, r: nat)
    requires r < s <= 2 * r && TopOnes(a, s, r)
    ensures Smear(a, r) == P2(s) - 1
  {
    hide Or, Shr, P2;
    var t := s - r;
    P2Add(t, r);
    P2Monotone(t, r);
    var p, q := P2(t), P2(r);
    assert P2(s) == p * q;
    // the part that is shifted down is all ones
    assert (p - 1) * q == p * q - q;
    ShrBound(a, r, p - 1);
    ShrBound(a, r, p);
    assert Shr(a, r) == p - 1;
    // and so is the part above it
    assert (q - 1) * p == p * q - p && q * p == p * q;
    ShrBound(a, t, q - 1);
    ShrBound(a, t, q);
    assert Shr(a, t) == q - 1;
    OrOnes(a, t);
  }

  /** The upper bits of a number with ones on top. */
  lemma UpperBits(v: nat, k: nat, r: nat, m: nat)
    requires TopOnes(v, k, r) && r < k && m <= k - r
    ensures TopOnes(Shr(v, m), k - m, r)
  {
    hide Shr, P2;
    var s := k - m;
    P2Add(s, m);
    P2Add(s - r, m);
    P2Monotone(s - r, s);
    assert (P2(s) - P2(s - r)) * P2(m) == P2(k) - P2(k - r);
    ShrBound(v, m, P2(s));
    ShrBound(v, m, P2(s) - P2(s - r));
    assert P2(0) >= 1;
    assert r < s || s == r;
    if r == s {
      P2Zero();
    }
  }

  lemma P2Zero()
    ensures P2(0) == 1
  {
  }

  /** One round doubles the number of leading ones. */
  lemma SmearDoubles(v: nat, k: nat, r: nat)
    requires TopOnes(v, k, r) && r >= 1
    ensures TopOnes(Smear(v, r), k, 2 * r)
  {
    hide Or, Shr, P2;
    P2Zero();
    if r >= k {
      P2Monotone(k, r);
      ShrBound(v, r, 1);
      assert Shr(v, r) == 0;
      OrZero(v);
    } else {
      var m := if 2 * r < k then k - 2 * r else 0;
      var s, a := k - m, Shr(v, m);
      UpperBits(v, k, r, m);
      SmearShort(a, s, r);
      ShrOr(v, Shr(v, r), m);
      ShrTwice(v, r, m);
      ShrTwice(v, m, r);
      var w := Smear(v, r);
      assert Shr(w, m) == P2(s) - 1;
      P2Add(s, m);
      ShrBound(w, m, P2(s));
      ShrBound(w, m, P2(s) - 1);
      assert (P2(s) - 1) * P2(m) == P2(k) - P2(m);
    }
  }

  lemma OrZero(x: nat)
    ensures Or(x, 0) == x
  {
  }

  lemma {:induction false} CeilIsP2(x: nat)
    requires x >= 1
    ensures CeilToPow2(x) == P2(Bits(x - 1))
  {
    if x > 1 {
      CeilIsP2((x + 1) / 2);
      assert (x + 1) / 2 - 1 == (x - 1) / 2;
    }
  }

  lemma {:induction false} FirstOne(v: nat)
    ensures TopOnes(v, Bits(v), 1)
  {
    BitsBound(v);
    P2Zero();
  }

  /** ceilToPow2: the least power of two from `x` on, or zero where that is 2^64 or where x
      is zero. */
  method CeilToPow2Word(x: nat) returns (r: nat)
    requires x < WORD
    ensures r == if x == 0 then 0 else CeilToPow2(x) % WORD
  {
    hide Or, Shr, P2, TopOnes, Smear, Bits, CeilToPow2;
    WordBits();
    var v: nat := if x == 0 then WORD - 1 else x - 1;
    ghost var k := Bits(v);
    FirstOne(v);
    BitsAtMost(v, 64);
    SmearDoubles(v, k, 1);
    v := Smear(v, 1);
    SmearDoubles(v, k, 2);
    v := Smear(v, 2);
    SmearDoubles(v, k, 4);
    v := Smear(v, 4);
    var i := 1;
    while i < 8
      invariant i in {1, 2, 4, 8} && TopOnes(v, k, 8 * i)
      decreases 8 - i
    {
      SmearDoubles(v, k, 8 * i);
      v := Smear(v, 8 * i);
      i := 2 * i;
    }
    AllOnes(v, k);
    if x > 0 {
      CeilIsP2(x);
    } else {
      WholeWord(k);
    }
    r := (v + 1) % WORD;
  }

  lemma AllOnes(v: nat, k: nat)
    requires TopOnes(v, k, 64) && k <= 64
    ensures v + 1 == P2(k)
  {
    P2Zero();
  }

  lemma WholeWord(k: nat)
    requires k == Bits(WORD - 1)
    ensures P2(k) == WORD
  {
    hide Bits, P2, IsPow2;
    WordBits();
    BitsBound(WORD - 1);
    BitsAtMost(WORD - 1, 64);
    P2Double(63);
    if k < 64 {
      P2Monotone(k, 63);
    }
  }
}

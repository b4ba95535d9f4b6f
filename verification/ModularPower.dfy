/**
 Powers and residues, as far as blind RSA needs them.
 */
module ModularPower {
  import opened RingArithmetic

  function Pow(b: nat, k: nat): nat {
    if k == 0 then 1 else b * Pow(b, k - 1)
  }

  lemma AddMultiple(x: nat, k: nat, n: nat)
    requires n > 0
    ensures (x + k * n) % n == x % n
  {
    var q, r := x / n, x % n;
    assert (q + k) * n == q * n + k * n;
    DivModUnique(x + k * n, n, q + k, r);
  }

  /** A factor may be reduced first. */
  lemma MulMod(a: nat, b: nat, n: nat)
    requires n > 0
    ensures (a % n) * b % n == a * b % n
  {
    var q, r := a / n, a % n;
    assert a == q * n + r;
    assert a * b == r * b + (q * b) * n;
    AddMultiple(r * b, q * b, n);
  }

  /** Congruent factors give congruent products. */
  lemma MulCongruent(a: nat, b: nat, c: nat, n: nat)
    requires n > 0 && a % n == b % n
    ensures a * c % n == b * c % n
  {
    MulMod(a, c, n);
    MulMod(b, c, n);
  }

  lemma {:induction false} PowCongruent(a: nat, b: nat, k: nat, n: nat)
    requires n > 0 && a % n == b % n
    ensures Pow(a, k) % n == Pow(b, k) % n
  {
    if k > 0 {
      PowCongruent(a, b, k - 1, n);
      MulCongruent(Pow(a, k - 1), Pow(b, k - 1), a, n);
      MulCongruent(a, b, Pow(b, k - 1), n);
    }
  }

  lemma Regroup(a: nat, b: nat, x: nat, y: nat)
    ensures a * b * (x * y) == a * x * (b * y)
  {
    assert a * b * (x * y) == a * (b * (x * y));
    assert b * (x * y) == x * (b * y);
  }

  lemma {:induction false} PowOfProduct(a: nat, b: nat, k: nat)
    ensures Pow(a * b, k) == Pow(a, k) * Pow(b, k)
  {
    if k > 0 {
      PowOfProduct(a, b, k - 1);
      Regroup(a, b, Pow(a, k - 1), Pow(b, k - 1));
    }
  }

  lemma Associate(a: nat, b: nat, c: nat)
    ensures a * b * c == a * (b * c)
  {
  }

  lemma {:induction false} PowAdd(b: nat, j: nat, k: nat)
    ensures Pow(b, j + k) == Pow(b, j) * Pow(b, k)
  {
    if j > 0 {
      PowAdd(b, j - 1, k);
      Associate(b, Pow(b, j - 1), Pow(b, k));
    }
  }

  lemma {:induction false} PowOfPow(b: nat, e: nat, d: nat)
    ensures Pow(Pow(b, e), d) == Pow(b, e * d)
  {
    if d > 0 {
      PowOfPow(b, e, d - 1);
      PowAdd(b, e, e * (d - 1));
      assert e + e * (d - 1) == e * d;
    }
  }

  lemma {:induction false} PowOne(k: nat)
    ensures Pow(1, k) == 1
  {
    if k > 0 {
      PowOne(k - 1);
    }
  }
}

/**
 RSA keys: raising to e and then to d is the identity modulo a product of two primes. This
 is what the blinding of BlindRsa needs of the key manager's key pair.
 */
module RsaKeys {
  import opened RingArithmetic
  import opened ModularPower

  predicate Divides(p: nat, x: nat)
    requires p > 0
  {
    x % p == 0
  }

  ghost predicate Prime(p: nat) {
    p >= 2 && forall a: nat {:trigger Divides(a, p)} :: 1 < a < p ==> !Divides(a, p)
  }

  lemma MultipleDivides(p: nat, k: nat)
    requires p > 0
    ensures Divides(p, k * p)
  {
    DivModUnique(k * p, p, k, 0);
  }

  // ----- Euclid's lemma -----

  /** The step from `a` to the remainder of `p` by `a`. */
  lemma RemainderStep(p: nat, a: nat, b: nat)
    requires 0 < a < p && Divides(p, a * b)
    ensures Divides(p, (p % a) * b)
  {
    var q, r, m := p / a, p % a, a * b / p;
    assert p == q * a + r;
    assert a * b == m * p;
    assert b * p == r * b + (q * m) * p by {
      assert b * p == b * (q * a) + b * r;
      assert b * (q * a) == q * (a * b);
      assert q * (m * p) == (q * m) * p;
    }
    AddMultiple(r * b, q * m, p);
    MultipleDivides(p, b);
  }

  lemma {:induction false} EuclidSmall(p: nat, a: nat, b: nat)
    requires Prime(p) && 0 < a < p && Divides(p, a * b)
    ensures Divides(p, b)
    decreases a
  {
    if a > 1 {
      RemainderStep(p, a, b);
      assert !Divides(a, p);
      EuclidSmall(p, p % a, b);
    }
  }

  /** A prime that divides a product divides a factor. */
  lemma Euclid(p: nat, a: nat, b: nat)
    requires Prime(p) && Divides(p, a * b) && !Divides(p, a)
    ensures Divides(p, b)
  {
    MulMod(a, b, p);
    EuclidSmall(p, a % p, b);
  }

  // ----- binomial coefficients -----

  function Choose(n: nat, k: nat): nat {
    if k == 0 then 1 else if n == 0 then 0 else Choose(n - 1, k - 1) + Choose(n - 1, k)
  }

  lemma {:induction false} ChooseBeyond(n: nat, k: nat)
    requires k > n
    ensures Choose(n, k) == 0
  {
    if n > 0 {
      ChooseBeyond(n - 1, k - 1);
      ChooseBeyond(n - 1, k);
    }
  }

  lemma {:induction false} ChooseAll(n: nat)
    ensures Choose(n, n) == 1
  {
    if n > 0 {
      ChooseAll(n - 1);
      ChooseBeyond(n - 1, n);
    }
  }

  lemma ChooseStep(n: nat, k: nat)
    ensures Choose(n, 0) == 1
    ensures n >= 1 && k >= 1 ==> Choose(n, k) == Choose(n - 1, k - 1) + Choose(n - 1, k)
  {
  }

  lemma AbsorbSum(n: nat, k: nat, a: nat, b: nat, x: nat, y: nat)
    requires n >= 1 && k >= 1 && a == x + y && (k - 1) * a == (n - 1) * x && k * b == (n - 1) * y
    ensures k * (a + b) == n * a
  {
    assert k * (a + b) == (k - 1) * a + a + k * b;
    assert (n - 1) * (x + y) == (n - 1) * x + (n - 1) * y;
    assert n * a == (n - 1) * a + a;
  }

  lemma {:induction false} Absorb(n: nat, k: nat)
    requires n >= 1 && k >= 1
    ensures k * Choose(n, k) == n * Choose(n - 1, k - 1)
    decreases n
  {
    hide Choose;
    ChooseStep(n, k);
    if n == 1 {
      ChooseBeyond(0, k);
      if k > 1 {
        ChooseBeyond(0, k - 1);
      }
    } else {
      Absorb(n - 1, k);
      ChooseStep(n - 1, k - 1);
      ChooseStep(n - 2, k - 1);
      if k > 1 {
        Absorb(n - 1, k - 1);
        AbsorbSum(n, k, Choose(n - 1, k - 1), Choose(n - 1, k), Choose(n - 2, k - 2), Choose(n - 2, k - 1));
      }
    }
  }

  /** A prime divides its inner binomial coefficients. */
  lemma PrimeDividesChoose(p: nat, k: nat)
    requires Prime(p) && 0 < k < p
    ensures Divides(p, Choose(p, k))
  {
    hide Choose;
    var c, d := Choose(p, k), Choose(p - 1, k - 1);
    Absorb(p, k);
    MultipleDivides(p, d);
    assert k * c == d * p;
    DivModUnique(k, p, 0, k);
    Euclid(p, k, c);
  }

  /** The first `m` terms of (1 + a)^n. */
  function Terms(n: nat, a: nat, m: nat): nat {
    if m == 0 then 0 else Terms(n, a, m - 1) + Choose(n, m - 1) * Pow(a, m - 1)
  }

  lemma OneTerm(n: nat, a: nat)
    ensures Terms(n, a, 1) == 1 && Terms(n, a, 0) == 0
  {
    ChooseStep(n, 0);
    assert Pow(a, 0) == 1;
    assert Terms(n, a, 0) == 0;
  }

  lemma NextTerm(n: nat, a: nat, m: nat)
    ensures Terms(n, a, m + 1) == Terms(n, a, m) + Choose(n, m) * Pow(a, m)
    ensures m > 0 ==> Pow(a, m) == a * Pow(a, m - 1)
  {
  }

  lemma TermSum(c: nat, d: nat, a: nat, x: nat, t: nat)
    ensures (c + d) * (a * x) + a * t == d * (a * x) + a * (t + c * x)
  {
    var y := a * x;
    assert (c + d) * y == c * y + d * y;
    assert c * y == a * (c * x);
  }

  lemma {:induction false} TermsStep(n: nat, a: nat, m: nat)
    ensures Terms(n + 1, a, m + 1) == Terms(n, a, m + 1) + a * Terms(n, a, m)
  {
    hide Choose, Pow, Terms;
    OneTerm(n, a);
    OneTerm(n + 1, a);
    if m > 0 {
      TermsStep(n, a, m - 1);
      NextTerm(n + 1, a, m);
      NextTerm(n, a, m);
      NextTerm(n, a, m - 1);
      ChooseStep(n + 1, m);
      TermSum(Choose(n, m - 1), Choose(n, m), a, Pow(a, m - 1), Terms(n, a, m - 1));
    }
  }

  lemma {:induction false} Binomial(n: nat, a: nat)
    ensures Terms(n, a, n + 1) == Pow(1 + a, n)
  {
    if n == 0 {
      assert Terms(0, a, 1) == Terms(0, a, 0) + Choose(0, 0) * Pow(a, 0);
    } else {
      Binomial(n - 1, a);
      TermsStep(n - 1, a, n);
      ChooseBeyond(n - 1, n);
      var t := Terms(n - 1, a, n);
      assert Terms(n - 1, a, n + 1) == t + Choose(n - 1, n) * Pow(a, n) == t;
      assert t + a * t == (1 + a) * t;
    }
  }

  // ----- Fermat -----

  lemma TermVanishes(p: nat, t: nat, c: nat, x: nat)
    requires p > 0 && Divides(p, c)
    ensures (t + c * x) % p == t % p
  {
    var k := c / p;
    assert c == k * p;
    assert c * x == (k * x) * p;
    AddMultiple(t, k * x, p);
  }

  lemma {:induction false} InnerTermsVanish(p: nat, a: nat, m: nat)
    requires Prime(p) && 1 <= m <= p
    ensures Terms(p, a, m) % p == 1
  {
    hide Terms, Choose, Pow;
    if m == 1 {
      OneTerm(p, a);
      DivModUnique(1, p, 0, 1);
    } else {
      InnerTermsVanish(p, a, m - 1);
      PrimeDividesChoose(p, m - 1);
      NextTerm(p, a, m - 1);
      TermVanishes(p, Terms(p, a, m - 1), Choose(p, m - 1), Pow(a, m - 1));
    }
  }

  lemma SumCongruent(x: nat, y: nat, c: nat, n: nat)
    requires n > 0 && x % n == y % n
    ensures (x + c) % n == (y + c) % n
  {
    SumReduced(x, c, n);
    SumReduced(y, c, n);
  }

  lemma SumReduced(x: nat, c: nat, n: nat)
    requires n > 0
    ensures (x + c) % n == (x % n + c) % n
  {
    var i, r := x / n, x % n;
    assert x == r + i * n;
    AddMultiple(r + c, i, n);
  }

  lemma NextPower(p: nat, a: nat)
    requires Prime(p)
    ensures Pow(1 + a, p) % p == (1 + Pow(a, p)) % p
  {
    hide Terms, Choose, Pow;
    Binomial(p, a);
    InnerTermsVanish(p, a, p);
    ChooseAll(p);
    NextTerm(p, a, p);
    DivModUnique(1, p, 0, 1);
    SumCongruent(Terms(p, a, p), 1, Pow(a, p), p);
  }

  /** Fermat's little theorem. */
  lemma {:induction false} Fermat(p: nat, a: nat)
    requires Prime(p)
    ensures Pow(a, p) % p == a % p
    decreases a
  {
    if a == 0 {
      assert Pow(0, p) == 0 * Pow(0, p - 1);
    } else {
      Fermat(p, a - 1);
      NextPower(p, a - 1);
      SumCongruent(Pow(a - 1, p), a - 1, 1, p);
    }
  }

  lemma {:induction false} PowerCycles(p: nat, a: nat, k: nat)
    requires Prime(p)
    ensures Pow(a, 1 + k * (p - 1)) % p == a % p
    decreases k
  {
    if k == 0 {
      assert Pow(a, 1) == a * Pow(a, 0);
    } else {
      PowerCycles(p, a, k - 1);
      var x := 1 + (k - 1) * (p - 1);
      assert 1 + k * (p - 1) == x + (p - 1);
      PowAdd(a, x, p - 1);
      MulCongruent(Pow(a, x), a, Pow(a, p - 1), p);
      Fermat(p, a);
    }
  }

  // ----- two primes -----

  lemma EqualModuloProduct(p: nat, q: nat, x: nat, y: nat)
    requires Prime(p) && Prime(q) && p != q && y <= x && x % p == y % p && x % q == y % q
    ensures x % (p * q) == y % (p * q)
  {
    var d := x - y;
    DifferenceDivides(p, x, y);
    DifferenceDivides(q, x, y);
    var m := d / p;
    assert d == p * m;
    OtherPrime(p, q);
    Euclid(q, p, m);
    var k := m / q;
    assert m == k * q;
    Rotate(p, k, q);
    AddMultiple(y, k, p * q);
  }

  lemma OtherPrime(p: nat, q: nat)
    requires Prime(p) && Prime(q) && p != q
    ensures !Divides(q, p) && p * q > 0
  {
    if q > p {
      DivModUnique(p, q, 0, p);
    }
  }

  lemma Rotate(p: nat, k: nat, q: nat)
    ensures p * (k * q) == k * (p * q)
  {
  }

  lemma DifferenceDivides(n: nat, x: nat, y: nat)
    requires n > 0 && y <= x && x % n == y % n
    ensures Divides(n, x - y)
  {
    var i, j := x / n, y / n;
    assert x == i * n + x % n && y == j * n + y % n;
    assert (i - j) * n == i * n - j * n;
    assert i < j ==> (j - i) * n >= n;
    MultipleDivides(n, i - j);
  }

  /** `e` and `d` are exponents of an RSA key with the primes `p` and `q`. */
  ghost predicate RsaKey(p: nat, q: nat, e: nat, d: nat) {
    && Prime(p) && Prime(q) && p != q && e * d >= 1
    && e * d % (p - 1) == 1 % (p - 1) && e * d % (q - 1) == 1 % (q - 1)
  }

  lemma ExponentForm(p: nat, x: nat) returns (k: nat)
    requires p >= 2 && x >= 1 && x % (p - 1) == 1 % (p - 1)
    ensures x == 1 + k * (p - 1)
  {
    DifferenceDivides(p - 1, x, 1);
    k := (x - 1) / (p - 1);
  }

  /** Raising to `e` and then to `d` is the identity modulo p q, for every base. */
  lemma RsaIsIdentity(p: nat, q: nat, e: nat, d: nat, r: nat)
    requires RsaKey(p, q, e, d)
    ensures p * q > 0 && Pow(r, e * d) % (p * q) == r % (p * q)
  {
    var i := ExponentForm(p, e * d);
    var j := ExponentForm(q, e * d);
    PowerCycles(p, r, i);
    PowerCycles(q, r, j);
    var x := Pow(r, e * d);
    assert p * q > 0;
    if r <= x {
      EqualModuloProduct(p, q, x, r);
    } else {
      EqualModuloProduct(p, q, r, x);
    }
  }

  /** `n`, `e` and `d` belong to an RSA key pair. */
  ghost predicate KeyPair(n: nat, e: nat, d: nat) {
    exists p: nat, q: nat :: RsaKey(p, q, e, d) && n == p * q
  }

  lemma KeyPairIsIdentity(n: nat, e: nat, d: nat, r: nat)
    requires KeyPair(n, e, d)
    ensures n > 0 && Pow(r, e * d) % n == r % n
  {
    hide RsaKey, Pow;
    var p: nat, q: nat :| RsaKey(p, q, e, d) && n == p * q;
    RsaIsIdentity(p, q, e, d, r);
  }
}

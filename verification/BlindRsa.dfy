/**
 DupLESS key generation: the client blinds a fingerprint, the key manager raises it to its
 private exponent, the client unblinds it (Baseline/src/KeyGen/duplessDaE.cc,
 Baseline/src/KeyManager/dupLESSKM.cc). Numbers travel as fixed-width big-endian strings,
 I2OSP and OS2IP of sections 4.1 and 4.2 of RFC 8017; the key manager's step is RSASP1 of
 section 5.2.1.
 */
module BlindRsa {
  import opened Bytes
  import opened RingArithmetic
  import opened ModularPower

  // ----- numbers as strings -----

  /** BN_bin2bn */
  function OS2IP(d: Data): nat {
    if d == [] then 0 else 256 * OS2IP(d[..|d| - 1]) + d[|d| - 1] as nat
  }

  /** BN_bn2bin: as many bytes as the number needs, none for zero. */
  function Minimal(x: nat): Data {
    if x == 0 then [] else Minimal(x / 256) + [x % 256]
  }

  function Zeros(n: nat): (r: Data)
    ensures |r| == n
  {
    seq(n, i => 0)
  }

  /** The `w` low base-256 digits of `x`, most significant first. */
  function I2OSP(x: nat, w: nat): (r: Data)
    ensures |r| == w
  {
    if w == 0 then [] else I2OSP(x / 256, w - 1) + [x % 256]
  }

  lemma {:induction false} OfZero(w: nat)
    ensures I2OSP(0, w) == Zeros(w)
  {
    if w > 0 {
      OfZero(w - 1);
    }
  }

  lemma PowStep(x: nat, w: nat)
    ensures x < Pow(256, w + 1) <==> x / 256 < Pow(256, w)
  {
    assert Pow(256, w + 1) == 256 * Pow(256, w);
  }

  /** A number needs at most `w` bytes iff it is below 256^w; then the code's zero padding
      on the left of the minimal string is I2OSP. */
  lemma {:induction false} PaddingIsI2OSP(x: nat, w: nat)
    ensures |Minimal(x)| <= w <==> x < Pow(256, w)
    ensures x < Pow(256, w) ==> Zeros(w - |Minimal(x)|) + Minimal(x) == I2OSP(x, w)
    decreases w
  {
    if x == 0 {
      OfZero(w);
      PowPositive(w);
    } else if w > 0 {
      PaddingIsI2OSP(x / 256, w - 1);
      PowStep(x, w - 1);
      if x < Pow(256, w) {
        var m := Minimal(x / 256);
        assert Zeros(w - |m| - 1) + (m + [x % 256]) == Zeros(w - 1 - |m|) + m + [x % 256];
      }
    }
  }

  lemma {:induction false} PowPositive(w: nat)
    ensures Pow(256, w) > 0
  {
    if w > 0 {
      PowPositive(w - 1);
    }
  }

  lemma {:induction false} NumberRoundTrip(x: nat, w: nat)
    requires x < Pow(256, w)
    ensures OS2IP(I2OSP(x, w)) == x
    decreases w
  {
    if w > 0 {
      PowStep(x, w - 1);
      NumberRoundTrip(x / 256, w - 1);
      assert I2OSP(x, w)[..w - 1] == I2OSP(x / 256, w - 1);
    }
  }

  lemma {:induction false} StringRoundTrip(d: Data)
    ensures OS2IP(d) < Pow(256, |d|) && I2OSP(OS2IP(d), |d|) == d
    decreases |d|
  {
    if d != [] {
      var k := |d| - 1;
      StringRoundTrip(d[..k]);
      var x: nat, b: nat := OS2IP(d[..k]), d[k];
      DivModUnique(256 * x + b, 256, x, b);
      PowStep(256 * x + b, k);
      assert d == d[..k] + [d[k]];
    }
  }

  // ----- blinding -----

  /** DecorateFP on numbers. */
  function Blind(h: nat, r: nat, e: nat, n: nat): (x: nat)
    requires n > 0
    ensures x < n
  {
    h * (Pow(r, e) % n) % n
  }

  /** The key manager's exponentiation. */
  function Sign(x: nat, d: nat, n: nat): (y: nat)
    requires n > 0
    ensures y < n
  {
    Pow(x, d) % n
  }

  /** Elimination on numbers. */
  function Unblind(y: nat, inv: nat, n: nat): (k: nat)
    requires n > 0
    ensures k < n
  {
    y * inv % n
  }

  lemma BlindIs(h: nat, re: nat, n: nat)
    requires n > 0
    ensures h * (re % n) % n == h * re % n
  {
    MulMod(re, h, n);
    assert h * (re % n) == (re % n) * h && h * re == re * h;
  }

  lemma ModTwice(x: nat, n: nat)
    requires n > 0
    ensures x % n % n == x % n
  {
    AddMultiple(x % n, 0, n);
  }

  /** What signing a blinded number comes to. */
  lemma SignedBlinded(h: nat, r: nat, e: nat, d: nat, n: nat)
    requires n > 0
    ensures Sign(Blind(h, r, e, n), d, n) == Pow(h, d) * Pow(r, e * d) % n
  {
    hide Pow;
    var x := h * Pow(r, e);
    BlindIs(h, Pow(r, e), n);
    ModTwice(x, n);
    PowCongruent(x % n, x, d, n);
    PowOfProduct(h, Pow(r, e), d);
    PowOfPow(r, e, d);
  }

  lemma UnblindedIs(h: nat, r: nat, inv: nat, e: nat, d: nat, n: nat)
    requires n > 0
    ensures Unblind(Sign(Blind(h, r, e, n), d, n), inv, n) == Pow(h, d) * (Pow(r, e * d) * inv) % n
  {
    hide Pow, Sign, Blind;
    SignedBlinded(h, r, e, d, n);
    var p, s := Pow(h, d), Pow(r, e * d);
    MulMod(p * s, inv, n);
    Associate(p, s, inv);
  }

  lemma TimesOne(p: nat, t: nat, n: nat)
    requires n > 0 && t % n == 1 % n
    ensures p * t % n == p % n
  {
    MulCongruent(t, 1, p, n);
    assert p * t == t * p;
  }

  /** With inv an inverse of r and r^(ed) = r modulo n, blinding leaves no trace. */
  lemma BlindingVanishes(h: nat, r: nat, inv: nat, e: nat, d: nat, n: nat)
    requires n > 0 && r * inv % n == 1 % n && Pow(r, e * d) % n == r % n
    ensures Unblind(Sign(Blind(h, r, e, n), d, n), inv, n) == Sign(h, d, n)
  {
    hide Pow, Blind, Unblind;
    UnblindedIs(h, r, inv, e, d, n);
    MulCongruent(Pow(r, e * d), r, inv, n);
    TimesOne(Pow(h, d), Pow(r, e * d) * inv, n);
  }

  /** For an invertible r the key comes out right for every fingerprint exactly if
      r^(ed) = r modulo n. */
  lemma RightForAllIff(r: nat, inv: nat, e: nat, d: nat, n: nat)
    requires n > 0 && r * inv % n == 1 % n
    ensures (forall h: nat {:trigger Sign(h, d, n)} :: Unblind(Sign(Blind(h, r, e, n), d, n), inv, n) == Sign(h, d, n))
      <==> Pow(r, e * d) % n == r % n
  {
    if Pow(r, e * d) % n == r % n {
      forall h: nat
        ensures Unblind(Sign(Blind(h, r, e, n), d, n), inv, n) == Sign(h, d, n)
      {
        BlindingVanishes(h, r, inv, e, d, n);
      }
    }
    if Unblind(Sign(Blind(1, r, e, n), d, n), inv, n) == Sign(1, d, n) {
      OneShows(r, inv, e, d, n);
    }
  }

  lemma OneShows(r: nat, inv: nat, e: nat, d: nat, n: nat)
    requires n > 0 && r * inv % n == 1 % n
    requires Unblind(Sign(Blind(1, r, e, n), d, n), inv, n) == Sign(1, d, n)
    ensures Pow(r, e * d) % n == r % n
  {
    hide Pow, Blind, Unblind;
    UnblindedIs(1, r, inv, e, d, n);
    PowOne(d);
    var s := Pow(r, e * d);
    MulCongruent(s * inv, 1, r, n);
    MulCongruent(r * inv, 1, s, n);
    assert s * inv * r == r * inv * s;
  }
}

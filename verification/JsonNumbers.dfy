/**
 Numbers in a JSON text: what std::to_string prints of an integer or of a floating-point
 number, and what the parser reads from that.
 */
module JsonNumbers {
  import opened JsonText
  import opened JsonParser

  // ----- looking ahead -----

  lemma AheadSplit(str: string, i: nat, a: string, b: string)
    requires Ahead(str, i, a + b)
    ensures Ahead(str, i, a) && Ahead(str, i + |a|, b)
  {
    var w := str[i..i + |a + b|];
    assert w[..|a|] == a && w[|a|..] == b;
    assert str[i..i + |a|] == w[..|a|];
    assert str[i + |a|..i + |a| + |b|] == w[|a|..];
  }

  lemma AheadAt(str: string, i: nat, w: string, k: nat)
    requires Ahead(str, i, w) && k < |w|
    ensures i + k < |str| && str[i + k] == w[k]
  {
    assert str[i..i + |w|][k] == str[i + k];
  }

  // ----- integers -----

  lemma {:induction false} NatTextDigits(n: nat)
    ensures |NatText(n)| >= 1 && forall k :: 0 <= k < |NatText(n)| ==> IsDigit(NatText(n)[k])
    ensures DigitsValue(NatText(n)) == n
  {
    if n >= 10 {
      NatTextDigits(n / 10);
      var t := NatText(n);
      assert t[..|t| - 1] == NatText(n / 10);
    } else {
      assert NatText(n)[..0] == "";
    }
  }

  lemma StolOfText(n: int)
    requires IsLong(n)
    ensures Stol(IntText(n)) == Long(n)
    ensures IntText(n) != [] && forall k :: 0 <= k < |IntText(n)| ==> IsDigit(IntText(n)[k]) || IntText(n)[k] == '-'
  {
    var val := IntText(n);
    if n < 0 {
      NatTextDigits(-n);
      DigitsToEnd(val, 1);
      assert val[1..|val|] == NatText(-n);
    } else {
      NatTextDigits(n);
      DigitsToEnd(val, 0);
      assert val[0..|val|] == NatText(n);
    }
  }

  lemma DigitsToEnd(val: string, from: nat)
    requires from <= |val| && forall k :: from <= k < |val| ==> IsDigit(val[k])
    ensures DigitsEnd(val, from) == |val|
  {
  }

  lemma NumberParses(str: string, i: nat, n: int)
    requires IsLong(n) && Ahead(str, i, IntText(n))
    requires i + |IntText(n)| < |str| && IsDelimiter(str[i + |IntText(n)|])
    ensures ParseNumber(str, i) == Parsed(Integral(n), i + |IntText(n)|)
  {
    hide Stol, IntText;
    var t := IntText(n);
    StolOfText(n);
    var o, end := NumeralEnd(str, i), i + |t|;
    assert o == end by {
      if o < end {
        AheadAt(str, i, t, o - i);
        assert false;
      }
    }
    assert str[i..end] == t;
    assert '.' !in t;
  }

  // ----- floating-point numbers -----

  function P10(w: nat): (r: nat)
    ensures r >= 1
  {
    if w == 0 then 1 else 10 * P10(w - 1)
  }

  lemma {:induction false} DigitsDigits(n: nat, w: nat)
    ensures forall k :: 0 <= k < w ==> IsDigit(Digits(n, w)[k])
  {
    if w > 0 {
      DigitsDigits(n / 10, w - 1);
    }
  }

  /** The value of digits followed by the `w` digits of `n`. */
  lemma {:induction false} DigitsAppended(s: string, n: nat, w: nat)
    requires n < P10(w) && forall k :: 0 <= k < |s| ==> IsDigit(s[k])
    ensures forall k :: 0 <= k < |s + Digits(n, w)| ==> IsDigit((s + Digits(n, w))[k])
    ensures DigitsValue(s + Digits(n, w)) == DigitsValue(s) * P10(w) + n
    decreases w
  {
    DigitsDigits(n, w);
    if w == 0 {
      assert s + "" == s;
    } else {
      DigitsAppended(s, n / 10, w - 1);
      var t, init := s + Digits(n, w), s + Digits(n / 10, w - 1);
      assert t[..|t| - 1] == init && t[|t| - 1] == Digit(n % 10);
      assert DigitValue(Digit(n % 10)) == n % 10;
      TenTimes(DigitsValue(s), P10(w - 1));
      assert DigitsValue(t) == 10 * DigitsValue(init) + n % 10;
    }
  }

  lemma TenTimes(a: nat, b: nat)
    ensures a * (10 * b) == 10 * (a * b)
  {
  }

  lemma Million()
    ensures P10(6) == 1000000 && TenTo(6) == 1000000.0 && TenTo(0) == 1.0
  {
    assert P10(3) == 1000;
    assert P10(6) == 1000 * P10(3);
    assert TenTo(3) == 1000.0;
    assert TenTo(6) == 1000.0 * TenTo(3);
  }

  /** What is printed of `x`, as a number. */
  function Nearest(x: real): real {
    var m := Micros(x) as real / 1000000.0;
    if x < 0.0 then -m else m
  }

  /** Printing loses nothing exactly for multiples of 10^-6. */
  lemma NearestIff(x: real)
    ensures Nearest(x) == x <==> IsMicro(x)
  {
    var z := x * 1000000.0;
    if IsMicro(x) {
      var n := z.Floor;
      assert (if x < 0.0 then -x else x) * 1000000.0 == (if n < 0 then -n else n) as real;
    }
    if Nearest(x) == x {
      var m: int := if x < 0.0 then 0 - Micros(x) else Micros(x);
      assert z == m as real;
    }
  }

  /** The pieces of a printed number. */
  lemma FloatPieces(x: real)
    ensures var whole, frac := NatText(Micros(x) / 1000000), Digits(Micros(x) % 1000000, 6);
      && |whole| >= 1 && (forall k :: 0 <= k < |whole| ==> IsDigit(whole[k]))
      && (forall k :: 0 <= k < 6 ==> IsDigit(frac[k]))
      && (forall k :: 0 <= k < |whole + frac| ==> IsDigit((whole + frac)[k]))
      && DigitsValue(whole + frac) == Micros(x)
      && FloatText(x) == (if x < 0.0 then "-" else "") + (whole + "." + frac)
  {
    hide Micros, NatText, Digits, P10;
    var m := Micros(x);
    Million();
    NatTextDigits(m / 1000000);
    DigitsDigits(m % 1000000, 6);
    DigitsAppended(NatText(m / 1000000), m % 1000000, 6);
  }

  /** std::stod of digits, a point and more digits, behind an optional sign. */
  lemma StodOfPieces(val: string, start: nat, point: nat, whole: string, frac: string)
    requires start <= point < |val| && val[start..point] == whole && val[point] == '.' && val[point + 1..] == frac
    requires (forall k :: 0 <= k < |whole| ==> IsDigit(whole[k])) && (forall k :: 0 <= k < |frac| ==> IsDigit(frac[k]))
    requires |whole| >= 1 && forall k :: 0 <= k < |whole + frac| ==> IsDigit((whole + frac)[k])
    requires start == if val[0] == '-' then 1 else 0
    ensures Stod(val) == Decimal(Decimals(start == 1, DigitsValue(whole + frac), |frac|))
  {
    hide DigitsValue, DigitRun, DigitsEnd, Decimals, IsDigit;
    RunsAt(val, start, point, whole, frac);
  }

  lemma SixDecimals(minus: bool, n: nat)
    ensures Decimals(minus, n, 6) == if minus then -(n as real / 1000000.0) else n as real / 1000000.0
  {
    hide TenTo;
    Million();
  }

  lemma RunsAt(val: string, start: nat, point: nat, whole: string, frac: string)
    requires start <= point < |val| && val[start..point] == whole && val[point] == '.' && val[point + 1..] == frac
    requires (forall k :: 0 <= k < |whole| ==> IsDigit(whole[k])) && (forall k :: 0 <= k < |frac| ==> IsDigit(frac[k]))
    ensures DigitsEnd(val, start) == point && DigitRun(val, start) == whole && DigitRun(val, point + 1) == frac
  {
    hide DigitsEnd, IsDigit;
    NotDigits();
    assert forall k :: start <= k < point ==> val[k] == whole[k - start];
    DigitsUpTo(val, start, point);
    assert forall k :: point + 1 <= k < |val| ==> val[k] == frac[k - point - 1];
    DigitsUpTo(val, point + 1, |val|);
  }

  lemma NotDigits()
    ensures !IsDigit('.') && !IsDigit('-') && !IsDigit('\0')
  {
  }

  lemma Slices(sign: string, whole: string, frac: string)
    ensures var val := sign + (whole + "." + frac);
      var point := |sign| + |whole|;
      && val[|sign|..point] == whole && val[point] == '.' && val[point + 1..] == frac && val[point + 1..|val|] == frac
      && (sign != "" ==> val[0] == sign[0]) && (sign == "" && whole != "" ==> val[0] == whole[0])
  {
  }

  lemma DigitsUpTo(val: string, from: nat, to: nat)
    requires from <= to <= |val| && (forall k :: from <= k < to ==> IsDigit(val[k])) && !IsDigit(At(val, to))
    ensures DigitsEnd(val, from) == to
  {
  }

  lemma StodOfText(x: real)
    ensures Stod(FloatText(x)) == Decimal(Nearest(x))
    ensures FloatText(x) != [] && '.' in FloatText(x)
    ensures forall k :: 0 <= k < |FloatText(x)| ==> IsNumeral(FloatText(x)[k])
    ensures IsDigit(FloatText(x)[0]) || FloatText(x)[0] == '-'
  {
    hide Micros, NatText, Digits, Stod, DigitsValue, Decimals, FloatText;
    FloatPieces(x);
    var whole, frac := NatText(Micros(x) / 1000000), Digits(Micros(x) % 1000000, 6);
    var sign := if x < 0.0 then "-" else "";
    Slices(sign, whole, frac);
    StodOfPieces(FloatText(x), |sign|, |sign| + |whole|, whole, frac);
    SixDecimals(x < 0.0, Micros(x));
    assert FloatText(x)[|sign| + |whole|] == '.';
  }

  lemma ScaledByOne(x: real)
    ensures Scaled(x, 0) == x
  {
    assert TenTo(0) == 1.0;
  }

  /** A printed floating-point number before a delimiter parses as what was printed. */
  lemma FloatParses(str: string, i: nat, x: real)
    requires Ahead(str, i, FloatText(x)) && i + |FloatText(x)| < |str| && IsDelimiter(str[i + |FloatText(x)|])
    ensures ParseNumber(str, i) == Parsed(Floating(Nearest(x)), i + |FloatText(x)|)
  {
    hide Stod, FloatText, Nearest, Stol, Scaled;
    var t := FloatText(x);
    StodOfText(x);
    var o, end := NumeralEnd(str, i), i + |t|;
    assert forall k :: 0 <= k < |t| ==> str[i..end][k] == str[i + k];
    assert o == end && str[i..end] == t;
    ScaledByOne(Nearest(x));
  }
}

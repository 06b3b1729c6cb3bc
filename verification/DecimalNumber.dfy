/** Decimal strings with an optional point, the rationals they denote, and their canonical forms. */
module DecimalNumber {
  import opened Positional
  import opened Rounding
  import opened DecimalText

  /** `split_once('.')`, the whole string and nothing when there is no point. */
  function FirstDot(s: string): (i: nat)
    ensures i <= |s| && (forall k :: 0 <= k < i ==> s[k] != '.') && (i < |s| ==> s[i] == '.')
  {
    if s == "" || s[0] == '.' then 0 else 1 + FirstDot(s[1..])
  }

  function Whole(s: string): string {
    s[..FirstDot(s)]
  }

  function Fraction(s: string): string {
    if FirstDot(s) < |s| then s[FirstDot(s) + 1..] else ""
  }

  predicate IsDecimal(s: string) {
    AllDigits(Whole(s)) && AllDigits(Fraction(s))
  }

  /** `mantissa` divided by ten to the `scale`. */
  function Frac(mantissa: nat, scale: nat): real {
    PowGrows(10, scale);
    mantissa as real / Pow(10, scale) as real
  }

  /** The number a decimal string denotes. */
  function Number(s: string): real
    requires IsDecimal(s)
  {
    Frac(Value(Whole(s) + Fraction(s)), |Fraction(s)|)
  }

  function Zeros(n: nat): (s: string)
    ensures |s| == n && AllDigits(s) && forall i :: 0 <= i < n ==> s[i] == '0'
  {
    seq(n, _ => '0')
  }

  /** `trim_end_matches('0')`. */
  function TrimEnd(s: string): (t: string)
    ensures t <= s && (t == "" || t[|t| - 1] != '0')
  {
    if s != "" && s[|s| - 1] == '0' then TrimEnd(s[..|s| - 1]) else s
  }

  // ---------------------------------------------------------------- powers and fractions

  lemma {:induction false} PowAdd(b: nat, j: nat, k: nat)
    ensures Pow(b, j + k) == Pow(b, j) * Pow(b, k)
  {
    if j == 0 {
    } else {
      PowAdd(b, j - 1, k);
      Reassociate(b, Pow(b, j - 1), Pow(b, k));
    }
  }

  lemma CancelReal(m: real, p: real, q: real)
    requires p > 0.0 && q > 0.0
    ensures m * q / (p * q) == m / p
  {
    var x := m / p;
    assert x * p == m;
    assert x * p * q == m * q;
    assert x * (p * q) == m * q;
    DivideBack(m * q, p * q, x);
  }

  lemma DivideBack(n: real, d: real, x: real)
    requires d != 0.0 && x * d == n
    ensures n / d == x
  {
  }

  lemma PositiveProduct(x: nat, y: nat)
    requires x >= 1 && y >= 1
    ensures x * y >= 1 && (x * y) as real == x as real * y as real
  {
  }

  lemma ProductAsReal(x: nat, y: nat)
    ensures (x * y) as real == x as real * y as real
  {
  }

  /** `m` followed by `k` zeros. */
  function Shift(m: nat, k: nat): nat {
    m * Pow(10, k)
  }

  /** Appending zeros to both parts of a fraction does not change it. */
  lemma FracExtend(m: nat, k: nat, j: nat)
    ensures Frac(Shift(m, j), k + j) == Frac(m, k)
  {
    hide Pow;
    PowAdd(10, k, j);
    PowGrows(10, k);
    PowGrows(10, j);
    ScaledQuotient(m, Pow(10, k), Pow(10, j));
  }

  lemma ScaledQuotient(m: nat, p: nat, q: nat)
    requires p >= 1 && q >= 1
    ensures p * q >= 1 && (m * q) as real / (p * q) as real == m as real / p as real
  {
    PositiveProduct(p, q);
    ProductAsReal(m, q);
    CancelReal(m as real, p as real, q as real);
  }

  lemma FracOrder(m: nat, n: nat, k: nat)
    ensures Frac(m, k) < Frac(n, k) <==> m < n
    ensures Frac(m, k) == Frac(n, k) <==> m == n
  {
    hide Pow;
    PowGrows(10, k);
    RealOrder(m as real, n as real, Pow(10, k) as real);
  }

  lemma RealOrder(m: real, n: real, d: real)
    requires d > 0.0
    ensures m / d < n / d <==> m < n
    ensures m / d == n / d <==> m == n
  {
    var x, y := m / d, n / d;
    assert x * d == m && y * d == n;
    if x < y { RealMul(x, y, d); }
    if y < x { RealMul(y, x, d); }
  }

  lemma RealMul(x: real, y: real, d: real)
    requires x < y && d > 0.0
    ensures x * d < y * d
  {
    assert (y - x) * d > 0.0;
  }

  lemma FracProduct(m: nat, j: nat, n: nat, k: nat)
    ensures Frac(m, j) * Frac(n, k) == Frac(m * n, j + k)
  {
    hide Pow;
    PowAdd(10, j, k);
    PowGrows(10, j);
    PowGrows(10, k);
    PositiveProduct(Pow(10, j), Pow(10, k));
    ProductAsReal(m, n);
    ProductOfQuotients(m as real, Pow(10, j) as real, n as real, Pow(10, k) as real);
  }

  lemma ProductOfQuotients(m: real, p: real, n: real, q: real)
    requires p > 0.0 && q > 0.0
    ensures m / p * (n / q) == m * n / (p * q)
  {
    var x, y := m / p, n / q;
    assert x * p == m && y * q == n;
    Swap(x, p, y, q);
    DivideBack(m * n, p * q, x * y);
  }

  lemma Swap(x: real, p: real, y: real, q: real)
    ensures x * y * (p * q) == x * p * (y * q)
  {
  }

  // ---------------------------------------------------------------- digit strings

  lemma ZerosDenoteZero(n: nat)
    ensures Value(Zeros(n)) == 0
  {
    ValOfZeros(10, Digits(Zeros(n)));
  }

  /** Appending `n` zeros multiplies by the n-th power of ten. */
  lemma AppendZeros(s: string, n: nat)
    requires AllDigits(s)
    ensures AllDigits(s + Zeros(n)) && Value(s + Zeros(n)) == Shift(Value(s), n)
  {
    ValueConcat(s, Zeros(n));
    ZerosDenoteZero(n);
  }

  /** Prepending zeros changes nothing. */
  lemma PrependZeros(n: nat, s: string)
    requires AllDigits(s)
    ensures AllDigits(Zeros(n) + s) && Value(Zeros(n) + s) == Value(s)
  {
    ValueConcat(Zeros(n), s);
    ZerosDenoteZero(n);
    assert 0 * Pow(10, |s|) == 0;
  }

  lemma {:induction false} TrimEndCutsZeros(s: string)
    ensures s == TrimEnd(s) + Zeros(|s| - |TrimEnd(s)|)
  {
    if s != "" && s[|s| - 1] == '0' {
      TrimEndCutsZeros(s[..|s| - 1]);
      var t := TrimEnd(s);
      assert s == s[..|s| - 1] + "0";
      assert Zeros(|s| - |t|) == Zeros(|s| - 1 - |t|) + "0";
    } else {
      assert s == s + Zeros(0);
    }
  }

  /** A digit string without leading zeros, or the single zero, is the text of its value. */
  predicate CanonicalDigits(s: string) {
    s == "0" || (s != "" && s[0] != '0')
  }

  lemma CanonicalDigitsAreText(s: string)
    requires AllDigits(s) && CanonicalDigits(s)
    ensures NatText(Value(s)) == s
  {
    TrimIsCanonical(s);
    if s == "0" {
      assert Zeros(1) == "0";
      ZerosDenoteZero(1);
    } else {
      assert TrimZeros(s) == s;
    }
  }

  lemma TextIsCanonicalDigits(n: nat)
    ensures CanonicalDigits(NatText(n)) && Value(NatText(n)) == n
  {
    NatTextValue(n);
  }

  /** Equal values at equal length are equal strings. */
  lemma {:induction false} SameLengthInjective(s: string, t: string)
    requires AllDigits(s) && AllDigits(t) && |s| == |t| && Value(s) == Value(t)
    ensures s == t
  {
    if s != "" {
      var s', t' := s[..|s| - 1], t[..|t| - 1];
      LastDigit(s);
      LastDigit(t);
      DivideStep(10, Value(s'), s[|s| - 1] as int - '0' as int);
      DivideStep(10, Value(t'), t[|t| - 1] as int - '0' as int);
      SameLengthInjective(s', t');
      assert s == s' + [s[|s| - 1]] && t == t' + [t[|t| - 1]];
    }
  }

  lemma LastDigit(s: string)
    requires AllDigits(s) && s != ""
    ensures Value(s) == Value(s[..|s| - 1]) * 10 + (s[|s| - 1] as int - '0' as int)
  {
    assert Digits(s)[..|s| - 1] == Digits(s[..|s| - 1]);
  }

  // ---------------------------------------------------------------- canonical decimals

  /** No leading zeros but a lone one, a point only before a fraction, no trailing zeros in the fraction. */
  predicate CanonicalDecimal(s: string) {
    IsDecimal(s) && CanonicalDigits(Whole(s))
    && (Fraction(s) == "" ==> s == Whole(s))
    && (Fraction(s) != "" ==> Fraction(s)[|Fraction(s)| - 1] != '0')
  }

  /** The text of a whole part and a fraction. */
  function Pointed(whole: string, fraction: string): string {
    if fraction == "" then whole else whole + "." + fraction
  }

  lemma PointedParts(whole: string, fraction: string)
    requires AllDigits(whole) && AllDigits(fraction)
    ensures Whole(Pointed(whole, fraction)) == whole && Fraction(Pointed(whole, fraction)) == fraction
  {
    var s := Pointed(whole, fraction);
    forall k | 0 <= k < |whole| ensures s[k] != '.' {
      assert IsDigit(whole[k]) && s[k] == whole[k];
    }
    if fraction != "" {
      assert s[|whole|] == '.';
      assert FirstDot(s) == |whole|;
    }
  }

  lemma PartsOfCanonical(s: string)
    requires CanonicalDecimal(s)
    ensures s == Pointed(Whole(s), Fraction(s))
  {
  }

  /** Two canonical decimals of the same number are the same text. */
  lemma CanonicalIsUnique(s: string, t: string)
    requires CanonicalDecimal(s) && CanonicalDecimal(t) && Number(s) == Number(t)
    ensures s == t
  {
    hide Whole, Fraction, Frac, Value;
    if |Fraction(s)| < |Fraction(t)| {
      ShorterFractionDiffers(s, t);
    } else if |Fraction(t)| < |Fraction(s)| {
      ShorterFractionDiffers(t, s);
    } else {
      SameFractionLength(s, t);
    }
  }

  lemma SameFractionLength(s: string, t: string)
    requires CanonicalDecimal(s) && CanonicalDecimal(t) && Number(s) == Number(t) && |Fraction(s)| == |Fraction(t)|
    ensures s == t
  {
    hide Whole, Fraction, Frac, Value, Digits, NatText, Pow;
    var f := |Fraction(s)|;
    FracOrder(Value(Whole(s) + Fraction(s)), Value(Whole(t) + Fraction(t)), f);
    SplitValue(Whole(s), Fraction(s), Whole(t), Fraction(t));
    CanonicalDigitsAreText(Whole(s));
    CanonicalDigitsAreText(Whole(t));
    PartsOfCanonical(s);
    PartsOfCanonical(t);
  }

  lemma SplitValue(w: string, f: string, w': string, f': string)
    requires AllDigits(w) && AllDigits(f) && AllDigits(w') && AllDigits(f') && |f| == |f'|
    requires Value(w + f) == Value(w' + f')
    ensures Value(w) == Value(w') && f == f'
  {
    ValueConcat(w, f);
    ValueConcat(w', f');
    ValueBound(f);
    ValueBound(f');
    UniqueSplit(Pow(10, |f|), Value(w), Value(f), Value(w'), Value(f'));
    SameLengthInjective(f, f');
  }

  lemma ShorterFractionDiffers(s: string, t: string)
    requires CanonicalDecimal(s) && CanonicalDecimal(t) && |Fraction(s)| < |Fraction(t)|
    ensures Number(s) != Number(t)
  {
    hide Frac, Value, Shift, Whole, Fraction, Digits;
    var k := |Fraction(t)| - |Fraction(s)|;
    var m, n := Whole(s) + Fraction(s), Whole(t) + Fraction(t);
    FracExtend(Value(m), |Fraction(s)|, k);
    FracOrder(Shift(Value(m), k), Value(n), |Fraction(t)|);
    TrailingZeroDiffers(m, k, n);
  }

  lemma TrailingZeroDiffers(m: string, k: nat, n: string)
    requires AllDigits(m) && AllDigits(n) && k > 0 && n != "" && n[|n| - 1] != '0'
    ensures Shift(Value(m), k) != Value(n)
  {
    hide Value, Shift;
    AppendZeros(m, k);
    var long := m + Zeros(k);
    assert long[|long| - 1] == '0';
    if Value(long) == Value(n) {
      SameLastDigit(long, n);
    }
  }

  lemma SameLastDigit(s: string, t: string)
    requires AllDigits(s) && AllDigits(t) && s != "" && t != "" && Value(s) == Value(t)
    ensures s[|s| - 1] == t[|t| - 1]
  {
    LastDigit(s);
    LastDigit(t);
    DivideStep(10, Value(s[..|s| - 1]), s[|s| - 1] as int - '0' as int);
    DivideStep(10, Value(t[..|t| - 1]), t[|t| - 1] as int - '0' as int);
  }

  // ---------------------------------------------------------------- placing the point

  /** `{:0>width$}`: zeros on the left up to the width. */
  function PadLeft(s: string, width: nat): string {
    if |s| >= width then s else Zeros(width - |s|) + s
  }

  /** The shared tail of the formatters: pad to one digit more than the scale, set the point, drop the
      fraction's trailing zeros. */
  function PlacePoint(digits: string, scale: nat): string {
    var padded := PadLeft(digits, scale + 1);
    var split := |padded| - scale;
    Pointed(padded[..split], TrimEnd(padded[split..]))
  }

  lemma PaddedDigits(n: nat, scale: nat)
    ensures var padded := PadLeft(NatText(n), scale + 1);
            && AllDigits(padded) && |padded| > scale && Value(padded) == n
            && CanonicalDigits(padded[..|padded| - scale])
  {
    hide Value, NatText;
    TextIsCanonicalDigits(n);
    var text := NatText(n);
    if |text| < scale + 1 {
      PrependZeros(scale + 1 - |text|, text);
      assert PadLeft(text, scale + 1)[..1] == "0";
    } else if text != "0" {
      assert text[..|text| - scale][0] == text[0];
    } else {
      assert text[..1] == "0";
    }
  }

  lemma TrimmedFraction(whole: string, fraction: string)
    requires AllDigits(whole) && AllDigits(fraction)
    ensures var kept := TrimEnd(fraction);
            && AllDigits(kept) && |kept| <= |fraction|
            && Frac(Value(whole + kept), |kept|) == Frac(Value(whole + fraction), |fraction|)
  {
    hide Frac, Value, Shift;
    var kept := TrimEnd(fraction);
    TrimEndCutsZeros(fraction);
    assert AllDigits(kept) by { assert kept == fraction[..|kept|]; }
    var k := |fraction| - |kept|;
    assert whole + fraction == whole + kept + Zeros(k);
    AppendZeros(whole + kept, k);
    FracExtend(Value(whole + kept), |kept|, k);
  }

  /** The text so formed is the canonical decimal of `n` over ten to the scale. */
  lemma PlacePointDenotes(n: nat, scale: nat)
    ensures var s := PlacePoint(NatText(n), scale);
            CanonicalDecimal(s) && Number(s) == Frac(n, scale) && |Fraction(s)| <= scale
  {
    hide Value, NatText, Frac, TrimEnd, Whole, Fraction, PadLeft;
    PaddedDigits(n, scale);
    var padded := PadLeft(NatText(n), scale + 1);
    var split := |padded| - scale;
    var whole, fraction := padded[..split], padded[split..];
    assert padded == whole + fraction;
    TrimmedFraction(whole, fraction);
    PointedParts(whole, TrimEnd(fraction));
  }
}

/** Comparing and multiplying decimals as strings: crates/uniswap/src/amount.rs and crates/graph/src/lib.rs. */
module DecimalOrder {
  import opened Wrappers
  import opened Positional
  import opened Rounding
  import opened DecimalText
  import opened DecimalNumber
  import opened Widths

  datatype Ordering = Less | Equal | Greater {
    function Then(next: Ordering): Ordering {
      if Equal? then next else this
    }
  }

  function CompareNat(m: nat, n: nat): Ordering {
    if m < n then Less else if m == n then Equal else Greater
  }

  function CompareReal(x: real, y: real): Ordering {
    if x < y then Less else if x == y then Equal else Greater
  }

  /** The order of strings: by the first differing character, a proper prefix first. */
  function CompareText(s: string, t: string): Ordering {
    if s == "" && t == "" then Equal
    else if s == "" then Less
    else if t == "" then Greater
    else if s[0] < t[0] then Less
    else if s[0] > t[0] then Greater
    else CompareText(s[1..], t[1..])
  }

  function CompareDecimalIntegers(left: string, right: string): Ordering {
    var l, r := TrimZeros(left), TrimZeros(right);
    CompareNat(|l|, |r|).Then(CompareText(l, r))
  }

  function Max(j: nat, k: nat): nat {
    if j < k then k else j
  }

  function CompareScaledAmounts(left: string, leftDecimals: nat, right: string, rightDecimals: nat): Ordering {
    var decimals := Max(leftDecimals, rightDecimals);
    CompareDecimalIntegers(TrimZeros(left) + Zeros(decimals - leftDecimals),
                           TrimZeros(right) + Zeros(decimals - rightDecimals))
  }

  // ---------------------------------------------------------------- text order is numeric order

  lemma FirstDigit(s: string)
    requires AllDigits(s) && s != ""
    ensures AllDigits(s[1..]) && Value(s) == Shift(s[0] as int - '0' as int, |s| - 1) + Value(s[1..])
    ensures Value(s[1..]) < Pow(10, |s| - 1)
  {
    hide Value, Pow;
    assert s == [s[0]] + s[1..];
    ValueConcat([s[0]], s[1..]);
    ValueBound(s[1..]);
    OneDigit(s[0]);
  }

  lemma LeadDecides(d: nat, e: nat, k: nat, x: nat, y: nat)
    requires x < Pow(10, k) && y < Pow(10, k)
    ensures d < e ==> Shift(d, k) + x < Shift(e, k) + y
  {
    if d < e {
      MulStep(Pow(10, k), d, e);
    }
  }

  lemma {:induction false} SameLengthOrder(s: string, t: string)
    requires AllDigits(s) && AllDigits(t) && |s| == |t|
    ensures CompareText(s, t) == CompareNat(Value(s), Value(t))
  {
    hide Value, Shift;
    if s == "" {
      assert s == t;
    } else {
      FirstDigit(s);
      FirstDigit(t);
      var d: nat, e: nat := s[0] as int - '0' as int, t[0] as int - '0' as int;
      LeadDecides(d, e, |s| - 1, Value(s[1..]), Value(t[1..]));
      LeadDecides(e, d, |s| - 1, Value(t[1..]), Value(s[1..]));
      SameLengthOrder(s[1..], t[1..]);
    }
  }

  lemma LongerIsLarger(s: string, t: string)
    requires AllDigits(s) && AllDigits(t) && |s| < |t| && t[0] != '0'
    ensures Value(s) < Value(t)
  {
    hide Value, Shift;
    FirstDigit(t);
    ValueBound(s);
    PowMonotone(10, |s|, |t| - 1);
    AtLeastOne(t[0] as int - '0' as int, |t| - 1);
  }

  lemma AtLeastOne(d: nat, k: nat)
    requires d >= 1
    ensures Shift(d, k) >= Pow(10, k)
  {
  }

  lemma {:induction false} TrimmedLead(s: string)
    ensures TrimZeros(s) == "" || TrimZeros(s)[0] != '0'
  {
    if s != "" && s[0] == '0' {
      TrimmedLead(s[1..]);
    }
  }

  predicate NoLeadingZero(s: string) {
    s == "" || s[0] != '0'
  }

  lemma LengthThenText(s: string, t: string)
    requires AllDigits(s) && AllDigits(t) && NoLeadingZero(s) && NoLeadingZero(t)
    ensures CompareNat(|s|, |t|).Then(CompareText(s, t)) == CompareNat(Value(s), Value(t))
  {
    hide Value, CompareText;
    if |s| < |t| {
      LongerIsLarger(s, t);
    } else if |t| < |s| {
      LongerIsLarger(t, s);
    } else {
      SameLengthOrder(s, t);
    }
  }

  /** compare_decimal_integers decides the order of the integers denoted. */
  lemma IntegersCompareByValue(left: string, right: string)
    requires AllDigits(left) && AllDigits(right)
    ensures CompareDecimalIntegers(left, right) == CompareNat(Value(left), Value(right))
  {
    hide Value, CompareText, NatText;
    TrimmedLead(left);
    TrimmedLead(right);
    TrimIsCanonical(left);
    TrimIsCanonical(right);
    LengthThenText(TrimZeros(left), TrimZeros(right));
  }

  lemma TrimmedShift(s: string, k: nat)
    requires AllDigits(s)
    ensures AllDigits(TrimZeros(s) + Zeros(k)) && Value(TrimZeros(s) + Zeros(k)) == Shift(Value(s), k)
  {
    hide Value, NatText;
    TrimIsCanonical(s);
    AppendZeros(TrimZeros(s), k);
  }

  /** compare_scaled_amounts decides the order of the scaled amounts as rationals, so it is total and transitive. */
  lemma ScaledAmountsCompareByValue(left: string, leftDecimals: nat, right: string, rightDecimals: nat)
    requires AllDigits(left) && AllDigits(right)
    ensures CompareScaledAmounts(left, leftDecimals, right, rightDecimals) ==
            CompareReal(Frac(Value(left), leftDecimals), Frac(Value(right), rightDecimals))
  {
    hide Value, Frac, Shift, CompareDecimalIntegers;
    var decimals := Max(leftDecimals, rightDecimals);
    var j, k := decimals - leftDecimals, decimals - rightDecimals;
    TrimmedShift(left, j);
    TrimmedShift(right, k);
    IntegersCompareByValue(TrimZeros(left) + Zeros(j), TrimZeros(right) + Zeros(k));
    FracExtend(Value(left), leftDecimals, j);
    FracExtend(Value(right), rightDecimals, k);
    FracOrder(Shift(Value(left), j), Shift(Value(right), k), decimals);
  }

  // ---------------------------------------------------------------- decimal_cmp

  /** The graph crate's decimals need a whole part. */
  predicate IsGraphDecimal(s: string) {
    Whole(s) != "" && IsDecimal(s)
  }

  function Parts(value: string): Option<(string, string)> {
    if !IsGraphDecimal(value) then None
    else Some((TrimZeros(Whole(value)), TrimEnd(Fraction(value))))
  }

  /** `{:0<width$}`: zeros on the right up to the width. */
  function PadRight(s: string, width: nat): string {
    if |s| >= width then s else s + Zeros(width - |s|)
  }

  function DecimalCmp(left: string, right: string): Option<Ordering> {
    match (Parts(left), Parts(right))
    case (Some((leftWhole, leftFraction)), Some((rightWhole, rightFraction))) =>
      var byLength := CompareNat(|leftWhole|, |rightWhole|);
      if !byLength.Equal? then Some(byLength)
      else
        var byWhole := CompareText(leftWhole, rightWhole);
        if !byWhole.Equal? then Some(byWhole)
        else
          var width := Max(|leftFraction|, |rightFraction|);
          Some(CompareText(PadRight(leftFraction, width), PadRight(rightFraction, width)))
    case _ => None
  }

  /** Padding the trimmed fraction back out to any width keeps the number. */
  lemma PaddedNumber(s: string, width: nat)
    requires IsDecimal(s) && |TrimEnd(Fraction(s))| <= width
    ensures var padded := PadRight(TrimEnd(Fraction(s)), width);
            && AllDigits(padded) && |padded| == width && AllDigits(TrimZeros(Whole(s)))
            && Number(s) == Frac(Value(TrimZeros(Whole(s)) + padded), width)
  {
    hide Value, Frac, Shift, Whole, Fraction, TrimEnd, NatText;
    TrimmedFraction(Whole(s), Fraction(s));
    var kept := TrimEnd(Fraction(s));
    var k := width - |kept|;
    AppendZeros(Whole(s) + kept, k);
    FracExtend(Value(Whole(s) + kept), |kept|, k);
    assert PadRight(kept, width) == kept + Zeros(k);
    assert Whole(s) + kept + Zeros(k) == Whole(s) + (kept + Zeros(k));
    TrimmedWhole(Whole(s), PadRight(kept, width));
  }

  lemma TrimmedWhole(whole: string, rest: string)
    requires AllDigits(whole) && AllDigits(rest)
    ensures AllDigits(TrimZeros(whole)) && Value(TrimZeros(whole) + rest) == Value(whole + rest)
  {
    hide Value, NatText;
    TrimIsCanonical(whole);
    ValueConcat(whole, rest);
    ValueConcat(TrimZeros(whole), rest);
  }

  lemma {:induction false} CompareConcat(w: string, f: string, w': string, f': string)
    requires |w| == |w'|
    ensures CompareText(w + f, w' + f') == CompareText(w, w').Then(CompareText(f, f'))
  {
    if w == "" {
      assert w + f == f && w' + f' == f';
    } else {
      assert (w + f)[1..] == w[1..] + f && (w' + f')[1..] == w'[1..] + f';
      CompareConcat(w[1..], f, w'[1..], f');
    }
  }

  lemma PartsCompare(w: string, f: string, w': string, f': string)
    requires AllDigits(w) && AllDigits(w') && AllDigits(f) && AllDigits(f') && |f| == |f'|
    requires NoLeadingZero(w) && NoLeadingZero(w')
    ensures CompareNat(|w|, |w'|).Then(CompareText(w, w').Then(CompareText(f, f'))) ==
            CompareNat(Value(w + f), Value(w' + f'))
  {
    hide Value, CompareText;
    if |w| < |w'| {
      LongerIsLarger(w + f, w' + f');
    } else if |w'| < |w| {
      LongerIsLarger(w' + f', w + f);
    } else {
      CompareConcat(w, f, w', f');
      SameLengthOrder(w + f, w' + f');
    }
  }

  /** decimal_cmp answers exactly for unsigned decimals with a whole part, and answers the order of the
      rationals they denote. */
  lemma DecimalsCompareByNumber(left: string, right: string)
    ensures DecimalCmp(left, right).Some? <==>
            Whole(left) != "" && IsDecimal(left) && Whole(right) != "" && IsDecimal(right)
    ensures DecimalCmp(left, right).Some? ==>
              DecimalCmp(left, right).value == CompareReal(Number(left), Number(right))
  {
    hide Value, Frac, Number, CompareText, Whole, Fraction, TrimEnd, PadRight, IsDecimal;
    if IsGraphDecimal(left) && IsGraphDecimal(right) {
      var w, w' := TrimZeros(Whole(left)), TrimZeros(Whole(right));
      var f, f' := TrimEnd(Fraction(left)), TrimEnd(Fraction(right));
      var width := Max(|f|, |f'|);
      PaddedNumber(left, width);
      PaddedNumber(right, width);
      TrimmedLead(Whole(left));
      TrimmedLead(Whole(right));
      PartsCompare(w, PadRight(f, width), w', PadRight(f', width));
      FracOrder(Value(w + PadRight(f, width)), Value(w' + PadRight(f', width)), width);
    }
  }

  // ---------------------------------------------------------------- decimal_product

  function DecimalDigits(value: string): (r: Result<(string, nat), string>)
    ensures r.Ok? ==> AllDigits(r.value.0)
  {
    if !IsGraphDecimal(value) then Err("expected an unsigned decimal string")
    else Ok((Whole(value) + Fraction(value), |Fraction(value)|))
  }

  /** `U256::from_str_radix(_, 10)` on a string of digits. */
  function ParseU256(digits: string): Result<nat, string>
    requires AllDigits(digits)
  {
    if Value(digits) < TWO256 then Ok(Value(digits)) else Err("number too large")
  }

  function CheckedMul(m: nat, n: nat): Result<nat, string> {
    if m * n < TWO256 then Ok(m * n) else Err("decimal product overflow")
  }

  function DecimalProduct(left: string, right: string): Result<string, string> {
    var l :- DecimalDigits(left);
    var r :- DecimalDigits(right);
    var m :- ParseU256(l.0);
    var n :- ParseU256(r.0);
    var product :- CheckedMul(m, n);
    var scale := l.1 + r.1;
    if scale == 0 then Ok(NatText(product)) else Ok(PlacePoint(NatText(product), scale))
  }

  /** Without a fraction there is no point to place. */
  lemma NoPointToPlace(n: nat)
    ensures PlacePoint(NatText(n), 0) == NatText(n)
  {
    hide Value, NatText;
    TextIsCanonicalDigits(n);
    assert NatText(n)[..|NatText(n)|] == NatText(n);
  }

  /** The digits of a decimal read as one integer. */
  function Mantissa(s: string): nat
    requires IsDecimal(s)
  {
    Value(Whole(s) + Fraction(s))
  }

  /** decimal_product succeeds exactly when both factors are decimals and neither their digits nor the product
      of the digits leaves 256 bits, and then returns the canonical decimal of the exact product. */
  lemma ProductIsExact(left: string, right: string)
    ensures DecimalProduct(left, right).Ok? <==>
            && Whole(left) != "" && IsDecimal(left) && Whole(right) != "" && IsDecimal(right)
            && Mantissa(left) < TWO256 && Mantissa(right) < TWO256
            && Mantissa(left) * Mantissa(right) < TWO256
    ensures DecimalProduct(left, right).Ok? ==>
            var s := DecimalProduct(left, right).value;
            CanonicalDecimal(s) && Number(s) == Number(left) * Number(right)
  {
    hide Value, Frac, Whole, Fraction, NatText, PlacePoint, CanonicalDecimal;
    if DecimalProduct(left, right).Ok? {
      var m, n := Mantissa(left), Mantissa(right);
      var j, k := |Fraction(left)|, |Fraction(right)|;
      ProductNonNegative(m, n);
      NoPointToPlace(m * n);
      PlacePointDenotes(m * n, j + k);
      FracProduct(m, j, n, k);
    }
  }

  lemma ProductNonNegative(m: nat, n: nat)
    ensures m * n >= 0
  {
  }

  /** Equal products are equal texts, however the factors were written. */
  lemma ProductIsCommutative(left: string, right: string)
    requires DecimalProduct(left, right).Ok?
    ensures DecimalProduct(right, left) == DecimalProduct(left, right)
  {
    hide Value, Frac, Whole, Fraction, NatText, PlacePoint, CanonicalDecimal, DecimalProduct, Mantissa, Number;
    ProductIsExact(left, right);
    Commutes(Mantissa(left), Mantissa(right));
    ProductIsExact(right, left);
    CanonicalIsUnique(DecimalProduct(left, right).value, DecimalProduct(right, left).value);
  }

  lemma Commutes(m: nat, n: nat)
    ensures m * n == n * m
  {
  }
}

/** Slippage on base units, crates/domain/src/model.rs. */
module Slippage {
  import opened Wrappers
  import opened Positional
  import opened Rounding
  import opened LittleEndian
  import opened DecimalText
  import opened DecimalNumber
  import opened Widths


  /** apply_slippage: the product is formed in 128 bits and the quotient cast down to 64. */
  function ApplySlippage(raw: nat, bps: nat): Result<nat, string>
    requires raw < TWO64
  {
    if bps > 5_000 then Err("slippage_bps must not exceed 5000")
    else Ok(raw * (10_000 - bps) / 10_000 % TWO64)
  }

  /** What slippage on a decimal string is meant to be: the canonical text of the rounded-down amount. */
  function SlippageText(raw: string, bps: nat): Result<string, string> {
    if bps > 10_000 then Err("slippage_bps must not exceed 10000")
    else if raw == "" || !AllDigits(raw) then Err("base units must be an unsigned decimal integer")
    else Ok(NatText(Quot(10_000, Scaled(Value(raw), 10_000 - bps))))
  }

  function Scaled(amount: nat, multiplier: nat): nat {
    amount * multiplier
  }

  /** Cutting the last `k` digits divides by the k-th power of ten. */
  lemma CutDigits(s: string, k: nat)
    requires AllDigits(s) && 1 <= k <= |s|
    ensures Pow(10, k) > 1 && Value(s[..|s| - k]) == Quot(Pow(10, k), Value(s))
  {
    var head, tail := s[..|s| - k], s[|s| - k..];
    assert s == head + tail;
    ValueConcat(head, tail);
    ValueBound(tail);
    PowGrows(10, k);
    DivideStep(Pow(10, k), Value(head), Value(tail));
  }

  lemma FourPlaces()
    ensures Pow(10, 4) == 10_000
  {
    assert Pow(10, 2) == 100;
  }

  /** The quotient the code cuts off the product's text is the canonical text of the division. */
  lemma CutFourPlaces(product: string)
    requires AllDigits(product)
    ensures var head := if |product| <= 4 then "0" else TrimZeros(product[..|product| - 4]);
            (if head == "" then "0" else head) == NatText(Quot(10_000, Value(product)))
  {
    hide Quot, Value, NatText, Pow;
    FourPlaces();
    if |product| <= 4 {
      SmallQuotient(product);
    } else {
      CutDigits(product, 4);
      TrimIsCanonical(product[..|product| - 4]);
      ZeroText();
    }
  }

  lemma SmallQuotient(product: string)
    requires AllDigits(product) && |product| <= 4
    ensures NatText(Quot(10_000, Value(product))) == "0"
  {
    hide Value;
    ValueBound(product);
    FourPlaces();
    PowMonotone(10, |product|, 4);
    DivideStep(10_000, 0, Value(product));
    assert 0 * 10_000 == 0;
  }

  /** The digits of `raw` multiplied so far: those of its last `i` places. */
  function TailProduct(raw: string, i: nat, multiplier: nat): nat
    requires AllDigits(raw) && i <= |raw|
  {
    Scaled(Value(raw[|raw| - i..]), multiplier)
  }

  /** One digit of schoolbook multiplication, `|low|` places from the right. */
  lemma MultiplyStep(raw: string, multiplier: nat, low: seq<nat>, carry: nat)
    requires AllDigits(raw) && |low| < |raw|
    requires Held(low, carry) == TailProduct(raw, |low|, multiplier)
    ensures Held(low, DigitAt(raw, |low|) * multiplier + carry) == TailProduct(raw, |low| + 1, multiplier)
  {
    hide Value, Low, Pow;
    var i := |low|;
    var tail := raw[|raw| - i..];
    assert raw[|raw| - i - 1..] == [raw[|raw| - 1 - i]] + tail;
    ValueConcat([raw[|raw| - 1 - i]], tail);
    OneDigit(raw[|raw| - 1 - i]);
    Regroup(DigitAt(raw, i), multiplier, carry, Pow(10, i), Value(tail));
  }

  /** The digit `i` places from the right. */
  function DigitAt(raw: string, i: nat): nat
    requires AllDigits(raw) && i < |raw|
  {
    raw[|raw| - 1 - i] as int - '0' as int
  }

  lemma Regroup(d: nat, m: nat, carry: nat, p: nat, tail: nat)
    ensures (d * m + carry) * p == d * m * p + carry * p
    ensures (d * p + tail) * m == d * m * p + tail * m
  {
    Distribute(m, d * p, tail);
    Distribute(p, d * m, carry);
    assert d * p * m == d * m * p;
  }

  lemma CarryBelow(d: nat, multiplier: nat, carry: nat)
    requires d <= 9 && multiplier <= 10_000 && (carry < multiplier || carry == 0)
    ensures var product := d * multiplier + carry;
            0 <= product < TWO32 && (product / 10 < multiplier || product / 10 == 0)
  {
    assert d * multiplier <= 9 * multiplier;
  }

  /** apply_slippage_string. The carry stays below the multiplier, so no product leaves 32 bits. */
  method ApplySlippageString(raw: string, bps: nat) returns (r: Result<string, string>)
    ensures r == SlippageText(raw, bps)
  {
    if bps > 10_000 {
      return Err("slippage_bps must not exceed 10000");
    }
    if raw == "" || !AllDigits(raw) {
      return Err("base units must be an unsigned decimal integer");
    }
    var multiplier := 10_000 - bps;
    var product := Multiply(raw, multiplier);
    CutFourPlaces(product);
    var quotient := if |product| <= 4 then "0" else TrimZeros(product[..|product| - 4]);
    r := Ok(if quotient == "" then "0" else quotient);
  }

  /** The multiplication loops: digits from the right, then what is left of the carry. */
  method Multiply(raw: string, multiplier: nat) returns (product: string)
    requires AllDigits(raw) && multiplier <= 10_000
    ensures AllDigits(product) && Value(product) == Scaled(Value(raw), multiplier)
  {
    hide Held, Value, Low, TailProduct, ReadBack, Scaled;
    var carry: nat := 0;
    var reversed: seq<nat> := [];
    var i := 0;
    NothingYet(raw, multiplier);
    while i < |raw|
      invariant 0 <= i <= |raw| && |reversed| == i && InBase(10, reversed)
      invariant Held(reversed, carry) == TailProduct(raw, i, multiplier)
      invariant carry < multiplier || carry == 0
    {
      CarryBelow(DigitAt(raw, i), multiplier, carry);
      MultiplyStep(raw, multiplier, reversed, carry);
      var total := DigitAt(raw, i) * multiplier + carry;
      assert total < TWO32;
      HeldPush(reversed, total);
      reversed := reversed + [total % 10];
      carry := total / 10;
      i := i + 1;
    }
    WholeProduct(raw, multiplier);
    reversed := PushCarry(reversed, carry);
    ReadBackDenotes(reversed);
    product := ReadBack(reversed);
  }

  lemma NothingYet(raw: string, multiplier: nat)
    requires AllDigits(raw)
    ensures Held([], 0) == TailProduct(raw, 0, multiplier)
  {
    assert raw[|raw|..] == "";
    EmptyText();
  }

  lemma WholeProduct(raw: string, multiplier: nat)
    requires AllDigits(raw)
    ensures TailProduct(raw, |raw|, multiplier) == Scaled(Value(raw), multiplier)
  {
    assert raw[0..] == raw;
  }

  lemma EmptyText()
    ensures AllDigits("") && Value("") == 0
  {
  }

  /** The two versions agree on every 64-bit amount when both or neither accept the slippage: that is, unless
      it lies above 5000 and within 10000 basis points, where only the string version answers. */
  lemma SlippageVersionsAgreeIff(raw: nat, bps: nat)
    requires raw < TWO64
    ensures var text := SlippageText(NatText(raw), bps);
            var number := ApplySlippage(raw, bps);
            (match (text, number)
             case (Ok(t), Ok(n)) => t == NatText(n)
             case (Err(_), Err(_)) => true
             case _ => false)
            <==> bps <= 5_000 || bps > 10_000
  {
    NatTextValue(raw);
    if bps <= 5_000 {
      ScaledStaysSmall(raw, 10_000 - bps);
    }
  }

  lemma ScaledStaysSmall(raw: nat, m: nat)
    requires raw < TWO64 && m <= 10_000
    ensures raw * m / 10_000 % TWO64 == Quot(10_000, Scaled(raw, m))
  {
    ScaledBelow(raw, m, 10_000);
  }

  lemma ScaledBelow(raw: nat, m: nat, whole: nat)
    requires m <= whole && whole > 0
    ensures 0 <= raw * m / whole <= raw
  {
    assert raw * m <= raw * whole;
    DividesBack(raw * m, whole, raw);
  }

  lemma DividesBack(x: nat, whole: nat, q: nat)
    requires whole > 0 && x <= q * whole
    ensures 0 <= x / whole <= q
  {
    var k, r := x / whole, x % whole;
    assert x == k * whole + r;
    if k > q {
      MulStep(whole, q, k);
    }
  }

  /** Exactly which inputs are answered, and with what: the largest whole number of base units that is no more than
      the amount less the slippage. */
  lemma SlippageIsFloor(raw: string, bps: nat)
    ensures SlippageText(raw, bps).Ok? <==> bps <= 10_000 && raw != "" && AllDigits(raw)
    ensures SlippageText(raw, bps).Err? ==>
              SlippageText(raw, bps) == Err(if bps > 10_000 then "slippage_bps must not exceed 10000"
                                            else "base units must be an unsigned decimal integer")
    ensures SlippageText(raw, bps).Ok? ==>
              var text := SlippageText(raw, bps).value;
              && AllDigits(text) && CanonicalDigits(text)
              && Value(text) * 10_000 <= Value(raw) * (10_000 - bps) < (Value(text) + 1) * 10_000
  {
    hide Value, NatText, CanonicalDigits;
    if SlippageText(raw, bps).Ok? {
      TextIsCanonicalDigits(Quot(10_000, Scaled(Value(raw), 10_000 - bps)));
    }
  }

  /** The result never exceeds the input amount. */
  lemma SlippageNeverAdds(raw: string, bps: nat)
    requires SlippageText(raw, bps).Ok?
    ensures AllDigits(SlippageText(raw, bps).value) && Value(SlippageText(raw, bps).value) <= Value(raw)
  {
    NatTextValue(Quot(10_000, Scaled(Value(raw), 10_000 - bps)));
    ScaledBelow(Value(raw), 10_000 - bps, 10_000);
  }
}

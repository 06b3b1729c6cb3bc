/** One step of the swap: what the machine arithmetic computes, and what every caller may rely on. */
module SwapStep {
  import opened Wrappers
  import opened Rounding
  import opened CurveBounds
  import opened SwapMath
  import opened Widths

  predicate InRange(sqrtPrice: nat) {
    MIN_SQRT_PRICE <= sqrtPrice <= MAX_SQRT_PRICE
  }

  /** The liquidity a pool can hold without any intermediate reaching 2^256. */
  predicate Bearable(liquidity: int) {
    0 <= liquidity < TWO96
  }

  lemma WrapIsIdentity(n: nat)
    requires n < TWO256
    ensures Wrap256(n) == n
  {
  }

  lemma ShiftedProductFits(liquidity: nat, x: nat)
    requires Bearable(liquidity) && x < TWO96
    ensures Shl64(Wrap256(liquidity * x)) == liquidity * x * TWO64
    ensures Wrap256(liquidity * x) == liquidity * x
  {
    MulLess(liquidity, TWO96, x, TWO96);
    var product := liquidity * x;
    WrapIsIdentity(product);
    WrapIsIdentity(product * TWO64);
  }

  lemma NumeratorA(liquidity: nat, p: nat)
    requires Bearable(liquidity) && p < TWO96
    ensures Shl64(Wrap256(p * liquidity)) == p * (liquidity * TWO64)
  {
    hide Shl64, Wrap256;
    ShiftedProductFits(liquidity, p);
    assert liquidity * p == p * liquidity;
    assert p * (liquidity * TWO64) == (p * liquidity) * TWO64;
  }

  /** A quotient that fits u128 survives the checked division unchanged. */
  lemma DivisionExact(n: nat, d: nat, roundUp: bool)
    requires d > 0 && n <= (TWO128 - 1) * d
    ensures Quotient(n, d, roundUp) < TWO128
    ensures DivRoundUpIf(n, d, roundUp) == Ok(Quotient(n, d, roundUp))
  {
    CeilGalois(n, d, TWO128 - 1);
  }

  lemma QuotientAFits(low: nat, high: nat, liquidity: nat)
    requires InRange(low) && low <= high && Bearable(liquidity)
    ensures liquidity * (high - low) * TWO64 <= (TWO128 - 1) * (low * high)
  {
    var x := liquidity * TWO64;
    var y := (TWO128 - 1) * low;
    assert x <= y;
    MulMono(high - low, high, x);
    MulMono(x, y, high);
    assert liquidity * (high - low) * TWO64 == (high - low) * x;
    assert y * high == (TWO128 - 1) * (low * high);
  }

  lemma PricesMultiply(p: nat, q: nat)
    requires InRange(p) && InRange(q)
    ensures 0 < p * q && Wrap256(p * q) == p * q
  {
    MulLess(p, TWO128, q, TWO128);
    WrapIsIdentity(p * q);
    MulMono(1, p, q);
  }

  /** get_delta_a never truncates and never overflows u128 on a bearable position. */
  lemma GetDeltaAExact(p: u128, q: u128, liquidity: u128, roundUp: bool)
    requires InRange(p) && InRange(q) && Bearable(liquidity)
    ensures p * q > 0
    ensures GetDeltaA(p, q, liquidity, roundUp) == Ok(Quotient(liquidity * Gap(p, q) * TWO64, p * q, roundUp))
  {
    PricesMultiply(p, q);
    ShiftedProductFits(liquidity, Gap(p, q));
    var n, d := liquidity * Gap(p, q) * TWO64, p * q;
    assert n <= (TWO128 - 1) * d by {
      if p <= q { QuotientAFits(p, q, liquidity); } else { QuotientAFits(q, p, liquidity); assert q * p == p * q; }
    }
    DivisionExact(n, d, roundUp);
  }

  lemma GetDeltaBExact(p: u128, q: u128, liquidity: u128, roundUp: bool)
    requires InRange(p) && InRange(q) && Bearable(liquidity)
    ensures GetDeltaB(p, q, liquidity, roundUp) == Ok(Quotient(liquidity * Gap(p, q), TWO64, roundUp))
  {
    var product := liquidity * Gap(p, q);
    ShiftedProductFits(liquidity, Gap(p, q));
    MulLess(liquidity, TWO96, Gap(p, q), MAX_SQRT_PRICE + 1);
    CeilGalois(product, TWO64, TWO128 - 1);
  }

  /** A move over no distance, or through no liquidity, costs and pays nothing. */
  lemma FreeMove(d: bool, e: bool, p: nat, t: nat, liquidity: nat)
    requires p > 0 && t > 0 && (liquidity == 0 || p == t)
    ensures InputFor(d, p, t, liquidity, TWO64) == 0 == OutputFor(e, p, t, liquidity, TWO64)
  {
    assert liquidity * Gap(p, t) == 0;
  }

  /** The machine's input amount is the exact curve amount. */
  lemma InputExact(aToB: bool, p: u128, t: u128, liquidity: u128)
    requires InRange(p) && InRange(t) && Bearable(liquidity)
    ensures GetDeltaUpFromInput(p, t, liquidity, aToB) == Ok(InputFor(aToB, p, t, liquidity, TWO64))
  {
    hide GetDeltaA, GetDeltaB;
    if liquidity == 0 || p == t { FreeMove(aToB, aToB, p, t, liquidity); }
    if aToB {
      GetDeltaAExact(p, t, liquidity, true);
    } else {
      GetDeltaBExact(p, t, liquidity, true);
    }
  }

  lemma OutputExact(aToB: bool, p: u128, t: u128, liquidity: u128)
    requires InRange(p) && InRange(t) && Bearable(liquidity)
    ensures GetDeltaDownFromOutput(p, t, liquidity, aToB) == Ok(OutputFor(aToB, p, t, liquidity, TWO64))
  {
    hide GetDeltaA, GetDeltaB;
    if liquidity == 0 || p == t { FreeMove(aToB, aToB, p, t, liquidity); }
    if aToB {
      GetDeltaBExact(p, t, liquidity, false);
    } else {
      GetDeltaAExact(p, t, liquidity, false);
    }
  }

  lemma CeilOfMultiple(p: nat, d: nat)
    requires d > 0
    ensures Ceil(p * d, d) == p
  {
    CeilGalois(p * d, d, p);
    CeilBounds(p * d, d);
    MulCancel(p, Ceil(p * d, d), d);
  }

  function UpNumerator(p: nat, liquidity: nat): nat {
    p * (liquidity * TWO64)
  }

  function UpDenominator(p: nat, liquidity: nat, amount: nat): nat {
    liquidity * TWO64 + p * amount
  }

  /** With input, the A-side price is one division of exact products. */
  lemma AUpUnwrapped(p: u128, liquidity: u128, amount: u128)
    requires InRange(p) && Bearable(liquidity) && liquidity > 0 && amount > 0
    ensures UpDenominator(p, liquidity, amount) > 0
    ensures UpNumerator(p, liquidity) <= (TWO128 - 1) * UpDenominator(p, liquidity, amount) ==>
              var n := Quotient(UpNumerator(p, liquidity), UpDenominator(p, liquidity, amount), true);
              n < TWO128 && GetNextSqrtPriceAUp(p, liquidity, amount, true) == CheckSqrtPriceBounds(n)
  {
    NumeratorA(liquidity, p);
    DenominatorFits(p, liquidity, amount);
    if UpNumerator(p, liquidity) <= (TWO128 - 1) * UpDenominator(p, liquidity, amount) {
      DivisionExact(UpNumerator(p, liquidity), UpDenominator(p, liquidity, amount), true);
      hide DivRoundUpIf, Quotient, Wrap256;
    }
  }

  lemma DenominatorFits(p: nat, liquidity: nat, amount: nat)
    requires InRange(p) && Bearable(liquidity) && liquidity > 0 && amount < TWO128
    ensures UpDenominator(p, liquidity, amount) > 0
    ensures Wrap256(Shl64(liquidity) + Wrap256(p * amount)) == UpDenominator(p, liquidity, amount)
  {
    MulLess(p, TWO96, amount, TWO128);
    WrapIsIdentity(p * amount);
    WrapIsIdentity(liquidity * TWO64);
    WrapIsIdentity(UpDenominator(p, liquidity, amount));
    assert p * amount >= 0;
  }

  lemma NextAUpExact(p: u128, t: u128, liquidity: u128, amount: u128)
    requires InRange(p) && InRange(t) && Bearable(liquidity) && liquidity > 0
    requires t <= p && !Covers(true, p, t, liquidity, amount, TWO64)
    ensures GetNextSqrtPriceAUp(p, liquidity, amount, true) == Ok(PriceAfterInput(true, p, liquidity, amount, TWO64))
  {
    hide Covers, Ceil, Floor, Wrap256, Shl64, DivRoundUpIf;
    InputStopsShort(true, p, t, liquidity, amount, TWO64);
    if amount == 0 {
      CeilOfMultiple(p, liquidity * TWO64);
    } else {
      AUpUnwrapped(p, liquidity, amount);
      CeilGalois(UpNumerator(p, liquidity), UpDenominator(p, liquidity, amount), p);
      MulMono(p, TWO128 - 1, UpDenominator(p, liquidity, amount));
    }
  }

  lemma NextBUpExact(p: u128, t: u128, liquidity: u128, amount: u128)
    requires InRange(p) && InRange(t) && Bearable(liquidity) && liquidity > 0
    requires p <= t && !Covers(false, p, t, liquidity, amount, TWO64)
    ensures GetNextSqrtPriceBDown(p, liquidity, amount, true) == Ok(PriceAfterInput(false, p, liquidity, amount, TWO64))
  {
    InputStopsShort(false, p, t, liquidity, amount, TWO64);
    WrapIsIdentity(amount * TWO64);
  }

  lemma NextFromInputExact(aToB: bool, p: u128, t: u128, liquidity: u128, amount: u128)
    requires InRange(p) && InRange(t) && Bearable(liquidity) && liquidity > 0
    requires Onward(aToB, p, t) && !Covers(aToB, p, t, liquidity, amount, TWO64)
    ensures GetNextSqrtPriceFromInput(p, liquidity, amount, aToB)
            == Ok(PriceAfterInput(aToB, p, liquidity, amount, TWO64))
  {
    if aToB {
      NextAUpExact(p, t, liquidity, amount);
    } else {
      NextBUpExact(p, t, liquidity, amount);
    }
  }

  lemma NextBDownExact(p: u128, liquidity: u128, amount: u128)
    requires InRange(p) && liquidity > 0
    requires PriceAfterOutput(true, p, liquidity, amount, TWO64) > 0
    requires InRange(PriceAfterOutput(true, p, liquidity, amount, TWO64))
    ensures GetNextSqrtPriceBDown(p, liquidity, amount, false)
            == Ok(PriceAfterOutput(true, p, liquidity, amount, TWO64))
  {
    WrapIsIdentity(amount * TWO64);
  }

  /** With output, the A-side price is one division of exact products, if its quotient is a legal price. */
  lemma NextAPulledExact(p: u128, liquidity: u128, amount: u128)
    requires InRange(p) && Bearable(liquidity) && liquidity > 0 && p * amount < liquidity * TWO64
    requires PriceAfterOutput(false, p, liquidity, amount, TWO64) > 0
    requires InRange(PriceAfterOutput(false, p, liquidity, amount, TWO64))
    ensures GetNextSqrtPriceAUp(p, liquidity, amount, false) == Ok(PriceAfterOutput(false, p, liquidity, amount, TWO64))
  {
    var n := p * (liquidity * TWO64);
    var d := liquidity * TWO64 - p * amount;
    if amount == 0 {
      CeilOfMultiple(p, liquidity * TWO64);
    } else {
      NumeratorA(liquidity, p);
      WrapIsIdentity(liquidity * TWO64);
      WrapIsIdentity(p * amount);
      CeilGalois(n, d, TWO128 - 1);
      DivisionExact(n, d, true);
    }
  }

  // ---------------------------------------------------------------- fees

  lemma BudgetFits(amount: nat, feeRate: nat)
    requires feeRate <= FEE_RATE_DENOMINATOR
    ensures Floor(amount * (FEE_RATE_DENOMINATOR - feeRate), FEE_RATE_DENOMINATOR) <= amount
  {
    MulMono(FEE_RATE_DENOMINATOR - feeRate, FEE_RATE_DENOMINATOR, amount);
    FloorBounds(amount * (FEE_RATE_DENOMINATOR - feeRate), FEE_RATE_DENOMINATOR);
  }

  lemma AfterFeeExact(amount: u128, feeRate: u64)
    requires feeRate <= FEE_RATE_DENOMINATOR
    ensures var rest := Floor(amount * (FEE_RATE_DENOMINATOR - feeRate), FEE_RATE_DENOMINATOR);
            rest <= amount && AmountAfterFee(amount, feeRate) == Ok(rest)
  {
    BudgetFits(amount, feeRate);
    MulLess(amount, TWO128, FEE_RATE_DENOMINATOR - feeRate, FEE_RATE_DENOMINATOR + 1);
    WrapIsIdentity(amount * (FEE_RATE_DENOMINATOR - feeRate));
  }

  /** An input fits in what the fee leaves of an amount exactly when input plus fee fit in the amount. */
  lemma GrossGalois(amountIn: nat, amount: nat, feeRate: nat, keep: nat)
    requires keep > 0
    ensures amountIn <= Floor(amount * keep, feeRate + keep) <==> amountIn + Ceil(amountIn * feeRate, keep) <= amount
  {
    FloorGalois(amount * keep, feeRate + keep, amountIn);
    assert amountIn * (feeRate + keep) == amountIn * feeRate + amountIn * keep;
    if amountIn <= amount {
      assert (amount - amountIn) * keep == amount * keep - amountIn * keep;
      CeilGalois(amountIn * feeRate, keep, amount - amountIn);
    } else if amountIn * (feeRate + keep) <= amount * keep {
      MulCancel(amountIn, amount, keep);
    }
  }

  /** The fee charged on top of an input that the remaining amount covers always fits in that amount. */
  lemma FeeFits(amountIn: u128, amount: u128, feeRate: u64)
    requires feeRate < FEE_RATE_DENOMINATOR
    requires amountIn <= Floor(amount * (FEE_RATE_DENOMINATOR - feeRate), FEE_RATE_DENOMINATOR)
    ensures var fee := Ceil(amountIn * feeRate, FEE_RATE_DENOMINATOR - feeRate);
            amountIn + fee <= amount && FeeOnTop(amountIn, feeRate) == Ok(fee)
  {
    var keep := FEE_RATE_DENOMINATOR - feeRate;
    GrossGalois(amountIn, amount, feeRate, keep);
    MulMono(feeRate, FEE_RATE_DENOMINATOR, amountIn);
    WrapIsIdentity(amountIn * feeRate);
  }

  /** Whatever the prices, liquidity and fee rate, an exact-input step never spends more than it was given. */
  lemma StepSpendsNoMore(current: u128, target: u128, liquidity: u128, amount: u128, feeRate: u64)
    requires ComputeSwapStep(current, target, liquidity, amount, feeRate, true).Ok?
    ensures var step := ComputeSwapStep(current, target, liquidity, amount, feeRate, true).value;
            step.amountIn + step.feeAmount <= amount
  {
    if liquidity != 0 && feeRate <= FEE_RATE_DENOMINATOR {
      AfterFeeExact(amount, feeRate);
      var maxIn := GetDeltaUpFromInput(current, target, liquidity, current >= target).value;
      if maxIn <= AmountAfterFee(amount, feeRate).value && feeRate < FEE_RATE_DENOMINATOR {
        FeeFits(maxIn, amount, feeRate);
      }
    }
  }

  // ---------------------------------------------------------------- the whole step

  predicate StepInputs(aToB: bool, current: nat, target: nat, liquidity: int, feeRate: nat) {
    InRange(current) && InRange(target) && Onward(aToB, current, target)
    && Bearable(liquidity) && feeRate < FEE_RATE_DENOMINATOR
  }

  /** What the fee leaves of an amount. */
  function Budget(amount: nat, feeRate: nat): (budget: nat)
    requires feeRate < FEE_RATE_DENOMINATOR
    ensures budget <= amount
  {
    BudgetFits(amount, feeRate);
    Floor(amount * (FEE_RATE_DENOMINATOR - feeRate), FEE_RATE_DENOMINATOR)
  }

  /** The fee charged on top of an input that carries the price over a whole range. */
  function RangeFee(amountIn: nat, feeRate: nat): nat
    requires feeRate < FEE_RATE_DENOMINATOR
  {
    Ceil(amountIn * feeRate, FEE_RATE_DENOMINATOR - feeRate)
  }

  /** The gross cost of a whole range: the least covering input and the fee on top of it. */
  function RangeCost(aToB: bool, p: nat, t: nat, liquidity: nat, feeRate: nat): nat
    requires p > 0 && t > 0 && feeRate < FEE_RATE_DENOMINATOR
  {
    var needed := InputFor(aToB, p, t, liquidity, TWO64);
    needed + RangeFee(needed, feeRate)
  }

  /** An input is within the budget of an amount exactly when its gross cost is within the amount. */
  lemma BudgetIsGross(input: nat, amount: nat, feeRate: nat)
    requires feeRate < FEE_RATE_DENOMINATOR
    ensures input <= Budget(amount, feeRate) <==> input + RangeFee(input, feeRate) <= amount
  {
    GrossGalois(input, amount, feeRate, FEE_RATE_DENOMINATOR - feeRate);
  }

  datatype Leg = Leg(amountIn: nat, amountOut: nat, next: nat, fee: nat)

  /** An exact-input step in unbounded arithmetic. */
  function LegOf(aToB: bool, current: nat, target: nat, liquidity: nat, amount: nat, feeRate: nat): Leg
    requires current > 0 && target > 0 && feeRate < FEE_RATE_DENOMINATOR
  {
    if liquidity == 0 then Leg(0, 0, target, 0) else
    var budget := Budget(amount, feeRate);
    var needed := InputFor(aToB, current, target, liquidity, TWO64);
    if needed <= budget then
      Leg(needed, OutputFor(aToB, current, target, liquidity, TWO64), target, RangeFee(needed, feeRate))
    else
      InputMovesOnward(aToB, current, liquidity, budget, TWO64);
      var next := PriceAfterInput(aToB, current, liquidity, budget, TWO64);
      Leg(budget, OutputFor(aToB, current, next, liquidity, TWO64), next, amount - budget)
  }

  lemma LegSpends(aToB: bool, current: nat, target: nat, liquidity: nat, amount: nat, feeRate: nat)
    requires current > 0 && target > 0 && feeRate < FEE_RATE_DENOMINATOR
    ensures var leg := LegOf(aToB, current, target, liquidity, amount, feeRate);
            leg.amountIn + leg.fee <= amount && leg.amountIn <= Budget(amount, feeRate)
  {
    hide InputFor, OutputFor, PriceAfterInput;
    GrossGalois(InputFor(aToB, current, target, liquidity, TWO64), amount, feeRate, FEE_RATE_DENOMINATOR - feeRate);
  }

  /** The guarantees of an exact-input step: the price stays between current and target and reaches the
      target exactly when the amount covers the gross cost of the range; otherwise the whole amount is
      spent. The input covers the move made and the move affords the output. */
  lemma LegGuarantees(aToB: bool, current: nat, target: nat, liquidity: nat, amount: nat, feeRate: nat)
    requires StepInputs(aToB, current, target, liquidity, feeRate)
    ensures var leg := LegOf(aToB, current, target, liquidity, amount, feeRate);
            var needed := InputFor(aToB, current, target, liquidity, TWO64);
            && InRange(leg.next) && Onward(aToB, current, leg.next) && Onward(aToB, leg.next, target)
            && (leg.next == target <==> needed + RangeFee(needed, feeRate) <= amount)
            && (leg.next != target ==> leg.amountIn + leg.fee == amount && liquidity > 0)
            && Covers(aToB, current, leg.next, liquidity, leg.amountIn, TWO64)
            && Affordable(aToB, current, leg.next, liquidity, leg.amountOut, TWO64)
  {
    hide InputFor, OutputFor, PriceAfterInput, Covers, Affordable;
    var leg := LegOf(aToB, current, target, liquidity, amount, feeRate);
    var budget := Budget(amount, feeRate);
    var needed := InputFor(aToB, current, target, liquidity, TWO64);
    GrossGalois(needed, amount, feeRate, FEE_RATE_DENOMINATOR - feeRate);
    if liquidity == 0 {
      NothingToMove(aToB, current, target);
    } else {
      InputIsLeast(aToB, current, target, liquidity, budget, TWO64);
      InputIsLeast(aToB, current, target, liquidity, needed, TWO64);
      if needed > budget {
        InputStopsShort(aToB, current, target, liquidity, budget, TWO64);
      }
      OutputIsGreatest(aToB, current, leg.next, liquidity, leg.amountOut, TWO64);
    }
  }

  lemma NothingToMove(aToB: bool, p: nat, t: nat)
    requires p > 0 && t > 0
    ensures InputFor(aToB, p, t, 0, TWO64) == 0
    ensures Covers(aToB, p, t, 0, 0, TWO64) && Affordable(aToB, p, t, 0, 0, TWO64)
  {
  }

  /** On sound inputs the machine step succeeds and is the unbounded step. */
  lemma ExactInputStep(aToB: bool, current: u128, target: u128, liquidity: u128, amount: u128, feeRate: u64)
    requires StepInputs(aToB, current, target, liquidity, feeRate)
    ensures var leg := LegOf(aToB, current, target, liquidity, amount, feeRate);
            leg.amountIn + leg.fee <= amount && leg.amountOut < TWO128 && leg.next < TWO128
            && ComputeSwapStep(current, target, liquidity, amount, feeRate, true)
               == Ok(StepResult(leg.amountIn, leg.amountOut, leg.next, leg.fee))
  {
    hide InputFor, OutputFor, PriceAfterInput, Covers, Affordable;
    hide GetDeltaUpFromInput, GetDeltaDownFromOutput, GetNextSqrtPriceFromInput, AmountAfterFee, FeeOnTop;
    var budget := Budget(amount, feeRate);
    AfterFeeExact(amount, feeRate);
    LegSpends(aToB, current, target, liquidity, amount, feeRate);
    LegGuarantees(aToB, current, target, liquidity, amount, feeRate);
    if liquidity > 0 {
      var d := current >= target;
      if current == target {
        FreeMove(d, aToB, current, target, liquidity);
        FreeMove(aToB, d, current, target, liquidity);
      }
      var needed := InputFor(aToB, current, target, liquidity, TWO64);
      InputExact(d, current, target, liquidity);
      InputIsLeast(aToB, current, target, liquidity, budget, TWO64);
      if needed <= budget {
        FeeFits(needed, amount, feeRate);
        OutputExact(d, current, target, liquidity);
      } else {
        NextFromInputExact(aToB, current, target, liquidity, budget);
        OutputExact(aToB, current, PriceAfterInput(aToB, current, liquidity, budget, TWO64), liquidity);
      }
    }
  }
}

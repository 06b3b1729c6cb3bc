/** Exact-output steps, and how they agree with exact-input steps. */
module SwapExactOut {
  import opened Wrappers
  import opened Rounding
  import opened CurveBounds
  import opened SwapMath
  import opened SwapStep
  import opened SwapGuarantees
  import opened Widths

  /** If the price an output needs is a legal one, the machine finds exactly that price. */
  lemma NextFromOutputExact(aToB: bool, p: u128, liquidity: u128, amount: u128)
    requires InRange(p) && Bearable(liquidity) && liquidity > 0
    requires !aToB ==> p * amount < liquidity * TWO64
    requires PriceAfterOutput(aToB, p, liquidity, amount, TWO64) > 0
    requires InRange(PriceAfterOutput(aToB, p, liquidity, amount, TWO64))
    ensures GetNextSqrtPriceFromOutput(p, liquidity, amount, aToB)
            == Ok(PriceAfterOutput(aToB, p, liquidity, amount, TWO64))
  {
    hide GetNextSqrtPriceAUp, GetNextSqrtPriceBDown, PriceAfterOutput;
    if aToB {
      NextBDownExact(p, liquidity, amount);
    } else {
      NextAPulledExact(p, liquidity, amount);
    }
  }

  /** The fee on an input either fits u128 and is exact, or the step reports the overflow. */
  lemma FeeOnTopExact(amountIn: u128, feeRate: u64)
    requires feeRate < FEE_RATE_DENOMINATOR
    ensures var fee := RangeFee(amountIn, feeRate);
            FeeOnTop(amountIn, feeRate) == if fee < TWO128 then Ok(fee) else Err(Overflowed)
  {
    MulLess(amountIn, TWO128, feeRate, FEE_RATE_DENOMINATOR);
    WrapIsIdentity(amountIn * feeRate);
    CeilIsSmall(amountIn * feeRate, FEE_RATE_DENOMINATOR - feeRate);
  }

  lemma CeilIsSmall(n: nat, d: nat)
    requires d > 0 && n < TWO128 * FEE_RATE_DENOMINATOR
    ensures Wrap256(Floor(n, d) + 1) == Floor(n, d) + 1
  {
    FloorBounds(n, d);
    MulMono(1, d, Floor(n, d));
    WrapIsIdentity(Floor(n, d) + 1);
  }

  /** An exact-output step stays between current and target, delivers the requested amount unless the range
      runs out first, and charges the least input that covers the move it makes plus the fee on it. Its only
      error is a fee that does not fit u128. */
  lemma ExactOutputStep(aToB: bool, current: u128, target: u128, liquidity: u128, amount: u128, feeRate: u64)
    requires StepInputs(aToB, current, target, liquidity, feeRate) && liquidity > 0
    ensures var available := OutputFor(aToB, current, target, liquidity, TWO64);
            available > amount && !aToB ==> current * amount < liquidity * TWO64
    ensures var available := OutputFor(aToB, current, target, liquidity, TWO64);
            var next := if available > amount then PriceAfterOutput(aToB, current, liquidity, amount, TWO64)
                else target;
            var r := ComputeSwapStep(current, target, liquidity, amount, feeRate, false);
            && next > 0 && InRange(next) && Onward(aToB, current, next) && Onward(aToB, next, target)
            && var amountIn := InputFor(aToB, current, next, liquidity, TWO64);
               var amountOut := if available > amount then amount else available;
            && Affordable(aToB, current, next, liquidity, amountOut, TWO64)
            && amountIn < TWO128
            && (if RangeFee(amountIn, feeRate) < TWO128
                then r == Ok(StepResult(amountIn, amountOut, next, RangeFee(amountIn, feeRate)))
                else r == Err(Overflowed))
  {
    hide InputFor, OutputFor, PriceAfterOutput, Covers, Affordable, RangeFee;
    hide GetDeltaUpFromInput, GetDeltaDownFromOutput, GetNextSqrtPriceFromOutput, FeeOnTop;
    var d := current >= target;
    var available := OutputFor(aToB, current, target, liquidity, TWO64);
    if current == target {
      FreeMove(d, aToB, current, target, liquidity);
      FreeMove(aToB, d, current, target, liquidity);
    }
    OutputExact(d, current, target, liquidity);
    OutputIsGreatest(aToB, current, target, liquidity, amount, TWO64);
    OutputIsGreatest(aToB, current, target, liquidity, available, TWO64);
    if available > amount {
      OutputStopsInside(aToB, current, target, liquidity, amount, TWO64);
      NextFromOutputExact(aToB, current, liquidity, amount);
      var next := PriceAfterOutput(aToB, current, liquidity, amount, TWO64);
      InputExact(aToB, current, next, liquidity);
      FeeOnTopExact(InputFor(aToB, current, next, liquidity, TWO64), feeRate);
    } else {
      InputExact(d, current, target, liquidity);
      FeeOnTopExact(InputFor(aToB, current, target, liquidity, TWO64), feeRate);
    }
  }

  /** Paying what an exact-output step quotes, fee included, into an exact-input step buys at least the quoted
      output and moves the price at least as far. */
  lemma QuoteIsHonoured(aToB: bool, current: u128, target: u128, liquidity: u128, wanted: u128, feeRate: u64)
    requires StepInputs(aToB, current, target, liquidity, feeRate)
    ensures var quote := ComputeSwapStep(current, target, liquidity, wanted, feeRate, false);
            quote.Ok? && quote.value.amountIn + quote.value.feeAmount < TWO128 ==>
              var deal := ComputeSwapStep(current, target, liquidity, quote.value.amountIn + quote.value.feeAmount,
                                          feeRate, true);
              deal.Ok? && deal.value.amountOut >= quote.value.amountOut
              && Onward(aToB, quote.value.nextSqrtPrice, deal.value.nextSqrtPrice)
  {
    hide ComputeSwapStep, InputFor, OutputFor, PriceAfterOutput, Covers, Affordable, RangeFee, LegOf;
    var quote := ComputeSwapStep(current, target, liquidity, wanted, feeRate, false);
    if liquidity == 0 {
      EmptyStep(current, target, wanted, feeRate, false);
      EmptyStep(current, target, 0, feeRate, true);
      return;
    }
    ExactOutputStep(aToB, current, target, liquidity, wanted, feeRate);
    if quote.Ok? && quote.value.amountIn + quote.value.feeAmount < TWO128 {
      var n, paid := quote.value.nextSqrtPrice, quote.value.amountIn + quote.value.feeAmount;
      ExactInputStep(aToB, current, target, liquidity, paid, feeRate);
      LegReaches(aToB, current, n, target, liquidity, paid, feeRate);
      var leg := LegOf(aToB, current, target, liquidity, paid, feeRate);
      LongerMoveAffords(aToB, current, n, leg.next, liquidity, quote.value.amountOut, TWO64);
      LegPaysMost(aToB, current, target, liquidity, paid, feeRate);
      OutputIsGreatest(aToB, current, leg.next, liquidity, quote.value.amountOut, TWO64);
    }
  }

  /** Without liquidity a step goes to its target and trades nothing. */
  lemma EmptyStep(current: u128, target: u128, amount: u128, feeRate: u64, byAmountIn: bool)
    ensures ComputeSwapStep(current, target, 0, amount, feeRate, byAmountIn) == Ok(StepResult(0, 0, target, 0))
  {
  }

  /** An amount holding the gross cost of a move makes at least that move. */
  lemma LegReaches(aToB: bool, p: nat, n: nat, t: nat, liquidity: nat, amount: nat, feeRate: nat)
    requires StepInputs(aToB, p, t, liquidity, feeRate) && liquidity > 0
    requires n > 0 && Onward(aToB, p, n) && Onward(aToB, n, t)
    requires var needed := InputFor(aToB, p, n, liquidity, TWO64); needed + RangeFee(needed, feeRate) <= amount
    ensures var leg := LegOf(aToB, p, t, liquidity, amount, feeRate);
            InRange(leg.next) && Onward(aToB, p, leg.next) && Onward(aToB, n, leg.next)
  {
    hide InputFor, PriceAfterInput, Covers, Affordable, LegOf, Budget;
    var needed := InputFor(aToB, p, n, liquidity, TWO64);
    var leg := LegOf(aToB, p, t, liquidity, amount, feeRate);
    LegGuarantees(aToB, p, t, liquidity, amount, feeRate);
    if leg.next != t {
      PartialLeg(aToB, p, t, liquidity, amount, feeRate);
      BudgetIsGross(needed, amount, feeRate);
      InputIsLeast(aToB, p, n, liquidity, leg.amountIn, TWO64);
      FarthestCovered(aToB, p, n, liquidity, leg.amountIn, TWO64);
    }
  }
}

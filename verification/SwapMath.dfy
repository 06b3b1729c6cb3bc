/** The concentrated-liquidity swap formulas of crates/cetus/src/swap_math.rs, in Q64.64 fixed point.

    Machine arithmetic is written out: a 256-bit intermediate is reduced modulo 2^256 wherever the
    program computes with U256, and 128-bit sums are reduced modulo 2^128, which is what the release
    build does. Nothing here says the reduction never bites; SwapStep and SwapTheorems prove it. Reduction and
    division are written by subtraction; ReductionIsModulus and FloorIsDivision say they are the usual ones. */
module SwapMath {
  import opened Rounding
  import opened Widths
  import opened Wrappers

  const MIN_SQRT_PRICE: nat := 4_295_048_016
  const MAX_SQRT_PRICE: nat := 79_226_673_515_401_279_992_447_579_055
  const FEE_RATE_DENOMINATOR: nat := 1_000_000

  type u64 = n: int | 0 <= n < TWO64
  type u128 = n: int | 0 <= n < TWO128
  type i128 = n: int | -0x8000_0000_0000_0000_0000_0000_0000_0000 <= n < 0x8000_0000_0000_0000_0000_0000_0000_0000

  datatype TickData = TickData(index: int, sqrtPrice: u128, liquidityNet: i128)

  datatype PoolState = PoolState(currentSqrtPrice: u128, currentTickIndex: int, liquidity: u128, feeRate: u64)

  datatype SwapResult = SwapResult(
    amountIn: u128, amountOut: u128, feeAmount: u128, nextSqrtPrice: u128, crossTickCount: nat)

  datatype StepResult = StepResult(amountIn: u128, amountOut: u128, nextSqrtPrice: u128, feeAmount: u128)

  datatype SwapError =
    | DivisionByZero
    | Overflowed
    | OutOfBounds
    | InsufficientOutputLiquidity
    | PriceOverflow
    | PriceUnderflow
    | FeeRateTooLarge
    | FeeUnderflow
    | ConsumedTooMuch
    | Unfilled(remaining: u128, amount: u128, crossed: nat)

  function Wrap256(n: nat): nat {
    if n < TWO256 then n else Wrap256(n - TWO256)
  }

  function Wrap128(n: int): u128
    decreases if n < 0 then TWO128 - n else n
  {
    if n < 0 then Wrap128(n + TWO128) else if n < TWO128 then n else Wrap128(n - TWO128)
  }

  function Shl64(n: nat): nat {
    Wrap256(n * TWO64)
  }

  lemma {:induction false} Reduction256(n: nat)
    ensures Wrap256(n) == n % TWO256
  {
    if n >= TWO256 {
      Reduction256(n - TWO256);
    }
  }

  /** The machine's reductions. */
  lemma {:induction false} ReductionIsModulus(n: int)
    ensures Wrap128(n) == n % TWO128 && (n >= 0 ==> Wrap256(n) == n % TWO256)
    decreases if n < 0 then TWO128 - n else n
  {
    if n >= 0 { Reduction256(n); }
    if n < 0 {
      ReductionIsModulus(n + TWO128);
    } else if n >= TWO128 {
      ReductionIsModulus(n - TWO128);
    }
  }

  function AbsDiff(x: nat, y: nat): nat {
    if x <= y then y - x else x - y
  }

  function ToU128(n: nat): Result<u128, SwapError> {
    if n < TWO128 then Ok(n) else Err(Overflowed)
  }

  function DivRoundUpIf(numerator: nat, denominator: nat, roundUp: bool): Result<nat, SwapError> {
    if denominator == 0 then Err(DivisionByZero)
    else if roundUp && Remainder(numerator, denominator) != 0 then Ok(Wrap256(Floor(numerator, denominator) + 1))
    else Ok(Floor(numerator, denominator))
  }

  function GetDeltaA(sqrtPrice0: u128, sqrtPrice1: u128, liquidity: u128, roundUp: bool): Result<u128, SwapError> {
    var diff := AbsDiff(sqrtPrice0, sqrtPrice1);
    var numerator := Shl64(Wrap256(liquidity * diff));
    var denominator := Wrap256(sqrtPrice0 * sqrtPrice1);
    var quotient :- DivRoundUpIf(numerator, denominator, roundUp);
    ToU128(quotient)
  }

  function GetDeltaB(sqrtPrice0: u128, sqrtPrice1: u128, liquidity: u128, roundUp: bool): Result<u128, SwapError> {
    var diff := AbsDiff(sqrtPrice0, sqrtPrice1);
    if liquidity == 0 || diff == 0 then Ok(0) else
    var product := Wrap256(liquidity * diff);
    var shifted := Floor(product, TWO64);
    ToU128(if roundUp && Remainder(product, TWO64) > 0 then shifted + 1 else shifted)
  }

  function CheckSqrtPriceBounds(sqrtPrice: u128): Result<u128, SwapError> {
    if MIN_SQRT_PRICE <= sqrtPrice <= MAX_SQRT_PRICE then Ok(sqrtPrice) else Err(OutOfBounds)
  }

  function GetNextSqrtPriceAUp(sqrtPrice: u128, liquidity: u128, amount: u128, byAmountIn: bool)
    : Result<u128, SwapError>
  {
    if amount == 0 then Ok(sqrtPrice) else
    var numerator := Shl64(Wrap256(sqrtPrice * liquidity));
    var liquidityShl64 := Shl64(liquidity);
    var product := Wrap256(sqrtPrice * amount);
    if !byAmountIn && liquidityShl64 <= product then Err(InsufficientOutputLiquidity) else
    var denominator := if byAmountIn then Wrap256(liquidityShl64 + product) else liquidityShl64 - product;
    var quotient :- DivRoundUpIf(numerator, denominator, true);
    var next :- ToU128(quotient);
    CheckSqrtPriceBounds(next)
  }

  function GetNextSqrtPriceBDown(sqrtPrice: u128, liquidity: u128, amount: u128, byAmountIn: bool)
    : Result<u128, SwapError>
  {
    var quotient :- DivRoundUpIf(Shl64(amount), liquidity, !byAmountIn);
    var delta :- ToU128(quotient);
    if byAmountIn && sqrtPrice + delta >= TWO128 then Err(PriceOverflow)
    else if !byAmountIn && sqrtPrice < delta then Err(PriceUnderflow)
    else CheckSqrtPriceBounds(if byAmountIn then sqrtPrice + delta else sqrtPrice - delta)
  }

  function GetNextSqrtPriceFromInput(sqrtPrice: u128, liquidity: u128, amount: u128, aToB: bool)
    : Result<u128, SwapError>
  {
    if aToB then GetNextSqrtPriceAUp(sqrtPrice, liquidity, amount, true)
    else GetNextSqrtPriceBDown(sqrtPrice, liquidity, amount, true)
  }

  function GetNextSqrtPriceFromOutput(sqrtPrice: u128, liquidity: u128, amount: u128, aToB: bool)
    : Result<u128, SwapError>
  {
    if aToB then GetNextSqrtPriceBDown(sqrtPrice, liquidity, amount, false)
    else GetNextSqrtPriceAUp(sqrtPrice, liquidity, amount, false)
  }

  function GetDeltaUpFromInput(current: u128, target: u128, liquidity: u128, aToB: bool): Result<u128, SwapError> {
    if liquidity == 0 || current == target then Ok(0)
    else if aToB then GetDeltaA(current, target, liquidity, true)
    else GetDeltaB(current, target, liquidity, true)
  }

  function GetDeltaDownFromOutput(current: u128, target: u128, liquidity: u128, aToB: bool): Result<u128, SwapError> {
    if liquidity == 0 || current == target then Ok(0)
    else if aToB then GetDeltaB(current, target, liquidity, false)
    else GetDeltaA(current, target, liquidity, false)
  }

  function MulDivFloor(a: u128, b: u64, denominator: u64): Result<u128, SwapError>
    requires denominator > 0
  {
    ToU128(Floor(Wrap256(a * b), denominator))
  }

  function MulDivCeil(a: u128, b: u64, denominator: u64): Result<u128, SwapError> {
    var quotient :- DivRoundUpIf(Wrap256(a * b), denominator, true);
    ToU128(quotient)
  }

  /** The part of `amount` left after the fee, as the step computes it. */
  function AmountAfterFee(amount: u128, feeRate: u64): Result<u128, SwapError> {
    if FEE_RATE_DENOMINATOR < feeRate then Err(FeeRateTooLarge)
    else MulDivFloor(amount, FEE_RATE_DENOMINATOR - feeRate, FEE_RATE_DENOMINATOR)
  }

  function FeeOnTop(amountIn: u128, feeRate: u64): Result<u128, SwapError> {
    if FEE_RATE_DENOMINATOR < feeRate then Err(FeeRateTooLarge)
    else MulDivCeil(amountIn, feeRate, FEE_RATE_DENOMINATOR - feeRate)
  }

  function ComputeSwapStep(
    current: u128, target: u128, liquidity: u128, amount: u128, feeRate: u64, byAmountIn: bool)
    : Result<StepResult, SwapError>
  {
    if liquidity == 0 then Ok(StepResult(0, 0, target, 0)) else
    var aToB := current >= target;
    if byAmountIn then ExactInStep(current, target, liquidity, amount, feeRate, aToB)
    else ExactOutStep(current, target, liquidity, amount, feeRate, aToB)
  }

  function ExactInStep(current: u128, target: u128, liquidity: u128, amount: u128, feeRate: u64, aToB: bool)
    : Result<StepResult, SwapError>
  {
    var amountRemain :- AmountAfterFee(amount, feeRate);
    var maxAmountIn :- GetDeltaUpFromInput(current, target, liquidity, aToB);
    if maxAmountIn > amountRemain then
      if amount < amountRemain then Err(FeeUnderflow) else
      var next :- GetNextSqrtPriceFromInput(current, liquidity, amountRemain, aToB);
      var amountOut :- GetDeltaDownFromOutput(current, next, liquidity, aToB);
      Ok(StepResult(amountRemain, amountOut, next, amount - amountRemain))
    else
      var fee :- FeeOnTop(maxAmountIn, feeRate);
      var amountOut :- GetDeltaDownFromOutput(current, target, liquidity, aToB);
      Ok(StepResult(maxAmountIn, amountOut, target, fee))
  }

  function ExactOutStep(current: u128, target: u128, liquidity: u128, amount: u128, feeRate: u64, aToB: bool)
    : Result<StepResult, SwapError>
  {
    var maxAmountOut :- GetDeltaDownFromOutput(current, target, liquidity, aToB);
    var next :- if maxAmountOut > amount
                then GetNextSqrtPriceFromOutput(current, liquidity, amount, aToB)
                else Ok(target);
    var amountOut := if maxAmountOut > amount then amount else maxAmountOut;
    var amountIn :- GetDeltaUpFromInput(current, next, liquidity, aToB);
    var fee :- FeeOnTop(amountIn, feeRate);
    Ok(StepResult(amountIn, amountOut, next, fee))
  }
}

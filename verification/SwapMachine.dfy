/** What the swap formulas return on any arguments at all: where the machine's 256-bit reduction can bite, and the
    price bounds that hold on every pool. */
module SwapMachine {
  import opened Wrappers
  import opened Rounding
  import opened Widths
  import opened CurveBounds
  import opened SwapMath
  import opened SwapStep
  import opened SwapWalk

  // ---------------------------------------------------------------- the two deltas

  lemma ProductFits(x: nat, y: nat)
    requires x < TWO128 && y < TWO128
    ensures Wrap256(x * y) == x * y < TWO256
  {
    MulLess(x, TWO128, y, TWO128);
    WrapIsIdentity(x * y);
  }

  /** The checked division of two 256-bit integers. */
  lemma CheckedQuotient(n: nat, d: nat, roundUp: bool)
    requires d > 0 && n < TWO256
    ensures DivRoundUpIf(n, d, roundUp) == Ok(Quotient(n, d, roundUp))
  {
    hide Floor, Remainder;
    FloorBounds(n, d);
    DivisionLaw(n, d);
    if d == 1 {
      CeilGalois(n, d, n);
    } else {
      MulMono(2, d, Floor(n, d));
    }
    if Floor(n, d) + 1 < TWO256 {
      WrapIsIdentity(Floor(n, d) + 1);
    }
  }

  /** For any prices and liquidity: only the shift by 64 bits can lose anything, and a quotient beyond 128 bits is an
      error. */
  lemma DeltaAOnAnyInput(p: u128, q: u128, liquidity: u128, roundUp: bool)
    ensures GetDeltaA(p, q, liquidity, roundUp) ==
            if p * q == 0 then Err(DivisionByZero)
            else
              var quotient := Quotient(Wrap256(liquidity * Gap(p, q) * TWO64), p * q, roundUp);
              if quotient < TWO128 then Ok(quotient) else Err(Overflowed)
  {
    hide Wrap256, DivRoundUpIf, Quotient;
    ProductFits(p, q);
    ProductFits(liquidity, Gap(p, q));
    ReducedBelow(liquidity * Gap(p, q) * TWO64);
    if p * q > 0 {
      CheckedQuotient(Wrap256(liquidity * Gap(p, q) * TWO64), p * q, roundUp);
    } else {
      NoQuotient(Wrap256(liquidity * Gap(p, q) * TWO64), roundUp);
    }
  }

  lemma {:induction false} ReducedBelow(n: nat)
    ensures Wrap256(n) < TWO256
  {
    if n >= TWO256 {
      ReducedBelow(n - TWO256);
    }
  }

  lemma NoQuotient(n: nat, roundUp: bool)
    ensures DivRoundUpIf(n, 0, roundUp) == Err(DivisionByZero)
  {
  }

  /** The shift keeps the product exactly when the product is below 2^192. */
  lemma ShiftKeepsIff(product: nat)
    ensures Shl64(product) == product * TWO64 <==> product < TWO128 * TWO64
  {
    ReducedBelow(product * TWO64);
    if product * TWO64 < TWO256 {
      WrapIsIdentity(product * TWO64);
    }
  }

  /** Where it does not, the price of a move can come out as nothing at all: at liquidity 2^100 and a gap of 2^92. */
  lemma DeltaACanVanish(p: u128, roundUp: bool)
    requires 0 < p < TWO96
    ensures GetDeltaA(p, p + TWO96 / 16, TWO96 * 16, roundUp) == Ok(0)
  {
    var gap := TWO96 / 16;
    var q: u128 := p + gap;
    DeltaAOnAnyInput(p, q, TWO96 * 16, roundUp);
    assert TWO96 * 16 * gap * TWO64 == TWO256;
    assert Wrap256(TWO256) == 0;
    PositivePrices(p, q);
  }

  lemma PositivePrices(p: nat, q: nat)
    requires p > 0 && q > 0
    ensures p * q > 0
  {
  }

  /** The other delta needs no shift and loses nothing for any prices and liquidity. */
  lemma DeltaBOnAnyInput(p: u128, q: u128, liquidity: u128, roundUp: bool)
    ensures GetDeltaB(p, q, liquidity, roundUp) ==
            var quotient := Quotient(liquidity * Gap(p, q), TWO64, roundUp);
            if quotient < TWO128 then Ok(quotient) else Err(Overflowed)
  {
    hide Wrap256, Floor, Remainder;
    ProductFits(liquidity, Gap(p, q));
    if liquidity == 0 || Gap(p, q) == 0 {
      assert liquidity * Gap(p, q) == 0;
      NothingOver(TWO64);
    }
  }

  lemma NothingOver(d: nat)
    requires d > 0
    ensures Floor(0, d) == 0 && Remainder(0, d) == 0
  {
  }

  // ---------------------------------------------------------------- the next price

  /** For any arguments a price found from the B side is legal, and is the current one moved by the exact quotient. */
  lemma PriceBOnAnyInput(p: u128, liquidity: u128, amount: u128, byAmountIn: bool)
    ensures var r := GetNextSqrtPriceBDown(p, liquidity, amount, byAmountIn);
            && (liquidity == 0 ==> r == Err(DivisionByZero))
            && (liquidity > 0 ==>
                  var moved := Quotient(amount * TWO64, liquidity, !byAmountIn);
                  var next := if byAmountIn then p + moved else p - moved;
                  && (r.Ok? <==> 4_295_048_016 <= next <= 79_226_673_515_401_279_992_447_579_055)
                  && (r.Ok? ==> r.value == next))
  {
    hide Wrap256, DivRoundUpIf, Quotient;
    WrapIsIdentity(amount * TWO64);
    if liquidity > 0 {
      CheckedQuotient(amount * TWO64, liquidity, !byAmountIn);
    } else {
      NoQuotient(amount * TWO64, !byAmountIn);
    }
  }

  /** For any arguments a price found from the A side by a positive amount is legal, and is the rounded-up quotient of
      the numerator, reduced to 256 bits, by the denominator, which only an input can make overflow. */
  lemma PriceAOnAnyInput(p: u128, liquidity: u128, amount: u128, byAmountIn: bool)
    ensures var r := GetNextSqrtPriceAUp(p, liquidity, amount, byAmountIn);
            && (amount == 0 ==> r == Ok(p))
            && (amount > 0 && !byAmountIn && liquidity * TWO64 <= p * amount ==>
                  r == Err(InsufficientOutputLiquidity))
            && (amount > 0 && (byAmountIn || liquidity * TWO64 > p * amount) ==>
                  var numerator := Wrap256(p * liquidity * TWO64);
                  var denominator := if byAmountIn then Wrap256(liquidity * TWO64 + p * amount)
                                     else liquidity * TWO64 - p * amount;
                  if denominator == 0 then r == Err(DivisionByZero)
                  else
                    var next := Ceil(numerator, denominator);
                    && (r.Ok? <==> 4_295_048_016 <= next <= 79_226_673_515_401_279_992_447_579_055)
                    && (r.Ok? ==> r.value == next))
  {
    hide Wrap256, DivRoundUpIf, Ceil;
    ProductFits(p, amount);
    ProductFits(p, liquidity);
    WrapIsIdentity(liquidity * TWO64);
    ReducedBelow(p * liquidity * TWO64);
    if amount > 0 && (byAmountIn || liquidity * TWO64 > p * amount) {
      var denominator := if byAmountIn then Wrap256(liquidity * TWO64 + p * amount)
                         else liquidity * TWO64 - p * amount;
      if denominator == 0 {
        NoQuotient(Wrap256(p * liquidity * TWO64), true);
      } else {
        CheckedQuotient(Wrap256(p * liquidity * TWO64), denominator, true);
      }
    }
  }

  lemma PriceAIsLegal(p: u128, liquidity: u128, amount: u128, byAmountIn: bool)
    ensures var r := GetNextSqrtPriceAUp(p, liquidity, amount, byAmountIn);
            && (amount == 0 ==> r == Ok(p))
            && (amount > 0 && r.Ok? ==> InRange(r.value))
  {
    hide Wrap256, DivRoundUpIf;
  }

  /** The fee is taken in millionths, rounded against the trader both ways; a fee of everything cannot be put on top. */
  lemma FeesOnAnyInput(amount: u128, feeRate: u64)
    ensures AmountAfterFee(amount, feeRate) ==
            if feeRate > 1_000_000 then Err(FeeRateTooLarge)
            else
              var rest := Floor(amount * (1_000_000 - feeRate), 1_000_000);
              if rest < TWO128 then Ok(rest) else Err(Overflowed)
    ensures FeeOnTop(amount, feeRate) ==
            if feeRate > 1_000_000 then Err(FeeRateTooLarge)
            else if feeRate == 1_000_000 then Err(DivisionByZero)
            else
              var fee := Ceil(amount * feeRate, 1_000_000 - feeRate);
              if fee < TWO128 then Ok(fee) else Err(Overflowed)
  {
    hide Wrap256, DivRoundUpIf, Floor, Ceil;
    if feeRate <= 1_000_000 {
      ProductFits(amount, 1_000_000 - feeRate);
      ProductFits(amount, feeRate);
      if feeRate == 1_000_000 {
        NoQuotient(amount * feeRate, true);
      } else {
        CheckedQuotient(amount * feeRate, 1_000_000 - feeRate, true);
      }
    }
  }

  // ---------------------------------------------------------------- prices stay legal on every pool

  lemma StepStaysLegal(aToB: bool, current: u128, target: u128, liquidity: u128, amount: u128, feeRate: u64)
    requires Legal(aToB, current) && Legal(aToB, target)
    ensures var r := ComputeSwapStep(current, target, liquidity, amount, feeRate, true);
            r.Ok? ==> Legal(aToB, r.value.nextSqrtPrice)
  {
    hide GetNextSqrtPriceAUp, GetNextSqrtPriceBDown, AmountAfterFee, FeeOnTop;
    hide GetDeltaUpFromInput, GetDeltaDownFromOutput;
    if AmountAfterFee(amount, feeRate).Ok? {
      PriceAIsLegal(current, liquidity, AmountAfterFee(amount, feeRate).value, true);
      PriceBIsLegal(current, liquidity, AmountAfterFee(amount, feeRate).value);
    }
  }

  lemma PriceBIsLegal(p: u128, liquidity: u128, amount: u128)
    ensures var r := GetNextSqrtPriceBDown(p, liquidity, amount, true); r.Ok? ==> InRange(r.value)
  {
    hide Quotient;
    PriceBOnAnyInput(p, liquidity, amount, true);
  }

  /** Not past the end of the price range that the direction leads to. */
  predicate Legal(aToB: bool, price: nat) {
    if aToB then price >= MIN_SQRT_PRICE else price <= MAX_SQRT_PRICE
  }

  lemma {:induction false} WalkStaysLegal(aToB: bool, feeRate: u64, path: seq<TickData>, s: LoopState)
    requires Legal(aToB, s.sqrtPrice)
    ensures var walk := Walk(aToB, feeRate, path, s); walk.Ok? ==> Legal(aToB, walk.value.sqrtPrice)
    decreases |path|
  {
    hide ComputeSwapStep, Wrap128, Crossed;
    if path != [] && s.remaining != 0 {
      StepStaysLegal(aToB, s.sqrtPrice, Target(aToB, path[0]), s.liquidity, s.remaining, feeRate);
      var visit := Visit(aToB, feeRate, path[0], s);
      if visit.Ok? {
        WalkStaysLegal(aToB, feeRate, path[1..], visit.value);
      }
    }
  }

  /** A tick beyond the bound is never crossed, whatever the pool. */
  lemma TickBeyondBoundIsNotCrossed(aToB: bool, feeRate: u64, tick: TickData, s: LoopState)
    requires Legal(aToB, s.sqrtPrice) && !Legal(aToB, tick.sqrtPrice)
    ensures var visit := Visit(aToB, feeRate, tick, s);
            visit.Ok? ==> visit.value.liquidity == s.liquidity && visit.value.sqrtPrice != tick.sqrtPrice
  {
    hide ComputeSwapStep, Wrap128, Crossed;
    StepStaysLegal(aToB, s.sqrtPrice, Target(aToB, tick), s.liquidity, s.remaining, feeRate);
  }

  /** For every pool and any ticks, in range or not: a swap that succeeds never leaves the price beyond the bound it
      moves towards. */
  lemma SwapStaysLegal(aToB: bool, amount: u128, pool: PoolState, ticks: seq<TickData>)
    requires Legal(aToB, pool.currentSqrtPrice)
    ensures var r := Swap(aToB, amount, pool, ticks); r.Ok? ==> Legal(aToB, r.value.nextSqrtPrice)
  {
    hide Walk, Wrap128;
    WalkStaysLegal(aToB, pool.feeRate, Path(aToB, pool.currentTickIndex, ticks), Start(amount, pool));
  }
}

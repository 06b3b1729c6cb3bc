/** Economic guarantees of a whole swap on a well-formed pool. */
module SwapGuarantees {
  import opened Rounding
  import opened CurveBounds
  import opened SwapMath
  import opened SwapStep
  import opened SwapWalk
  import opened SwapTrade
  import opened SwapTheorems
  import opened Widths

  // ---------------------------------------------------------------- no trade beats the starting price

  lemma WorseFromFurther(aToB: bool, p0: nat, p: nat, amountIn: nat, amountOut: nat, S: nat)
    requires Onward(aToB, p0, p) && NoBetterThan(aToB, p, amountIn, amountOut, S)
    ensures NoBetterThan(aToB, p0, amountIn, amountOut, S)
  {
    if aToB {
      MulMono(p, p0, p);
      MulMono(p, p0, p0);
      MulMono(p * p, p0 * p0, amountIn);
    } else {
      MulMono(p0, p, p);
      MulMono(p0, p, p0);
      MulMono(p0 * p0, p * p, amountOut);
    }
  }

  lemma NoBetterAdds(aToB: bool, p: nat, in1: nat, out1: nat, in2: nat, out2: nat, S: nat)
    requires NoBetterThan(aToB, p, in1, out1, S) && NoBetterThan(aToB, p, in2, out2, S)
    ensures NoBetterThan(aToB, p, in1 + in2, out1 + out2, S)
  {
    Distribute(p * p, in1, in2);
    Distribute(S * S, out1, out2);
    Distribute(S * S, in1, in2);
    Distribute(p * p, out1, out2);
  }

  lemma TradingNeverBeats(aToB: bool, feeRate: nat, path: seq<TickData>, p: nat, liquidity: nat, amount: nat)
    requires Sound(aToB, p, liquidity, path) && feeRate < FEE_RATE_DENOMINATOR
    ensures var trade := Trading(aToB, feeRate, path, p, liquidity, amount);
            trade.Fills? ==>
              && trade.fee <= amount && InRange(trade.price) && Onward(aToB, p, trade.price)
              && NoBetterThan(aToB, p, amount - trade.fee, trade.amountOut, TWO64)
    decreases |path|
  {
    hide LegOf, NoBetterThan, Covers, Affordable, InputFor;
    if amount == 0 {
      NothingIsNoBetter(aToB, p);
    } else if path != [] {
      var t := path[0].sqrtPrice;
      var leg := LegOf(aToB, p, t, liquidity, amount, feeRate);
      LegGuarantees(aToB, p, t, liquidity, amount, feeRate);
      LegSpends(aToB, p, t, liquidity, amount, feeRate);
      MoveNeverBeatsStart(aToB, p, leg.next, liquidity, leg.amountIn, leg.amountOut, TWO64);
      if leg.next == t {
        var left := amount - leg.amountIn - leg.fee;
        var beyond := LiquidityBeyond(aToB, liquidity, path[0]);
        assert Sound(aToB, t, beyond, path[1..]);
        TradingNeverBeats(aToB, feeRate, path[1..], t, beyond, left);
        var rest := Trading(aToB, feeRate, path[1..], t, beyond, left);
        if rest.Fills? {
          WorseFromFurther(aToB, p, t, left - rest.fee, rest.amountOut, TWO64);
          NoBetterAdds(aToB, p, leg.amountIn, leg.amountOut, left - rest.fee, rest.amountOut, TWO64);
        }
      }
    }
  }

  lemma NothingIsNoBetter(aToB: bool, p: nat)
    ensures NoBetterThan(aToB, p, 0, 0, TWO64)
  {
  }

  /** A swap that fills never beats the spot price it started from, however many ticks it crosses, and its
      price moves only in the requested direction and inside the legal range. */
  lemma SwapNeverBeatsSpot(aToB: bool, amount: u128, pool: PoolState, ticks: seq<TickData>)
    requires WellFormed(aToB, pool, ticks)
    ensures var r := Swap(aToB, amount, pool, ticks);
            r.Ok? ==>
              && r.value.feeAmount <= r.value.amountIn
              && NoBetterThan(aToB, pool.currentSqrtPrice, r.value.amountIn - r.value.feeAmount, r.value.amountOut,
                              TWO64)
              && InRange(r.value.nextSqrtPrice) && Onward(aToB, pool.currentSqrtPrice, r.value.nextSqrtPrice)
  {
    hide Swap, Trading;
    SwapIsExact(aToB, amount, pool, ticks);
    WellFormedIsSound(aToB, pool, ticks);
    TradingNeverBeats(aToB, pool.feeRate, Path(aToB, pool.currentTickIndex, ticks), pool.currentSqrtPrice,
                      pool.liquidity, amount);
  }

  // ---------------------------------------------------------------- more in, more out

  lemma PartialLegsCompare(aToB: bool, p: nat, t: nat, liquidity: nat, x1: nat, x2: nat, feeRate: nat)
    requires StepInputs(aToB, p, t, liquidity, feeRate) && x1 <= x2
    requires LegOf(aToB, p, t, liquidity, x1, feeRate).next != t
    ensures var leg1 := LegOf(aToB, p, t, liquidity, x1, feeRate);
            var leg2 := LegOf(aToB, p, t, liquidity, x2, feeRate);
            Onward(aToB, leg1.next, leg2.next) && leg1.amountOut <= leg2.amountOut
  {
    hide LegOf, InputFor, OutputFor, Covers, Affordable;
    var leg1 := LegOf(aToB, p, t, liquidity, x1, feeRate);
    var leg2 := LegOf(aToB, p, t, liquidity, x2, feeRate);
    LegGuarantees(aToB, p, t, liquidity, x1, feeRate);
    LegGuarantees(aToB, p, t, liquidity, x2, feeRate);
    if leg2.next != t {
      PartialLeg(aToB, p, t, liquidity, x1, feeRate);
      PartialLeg(aToB, p, t, liquidity, x2, feeRate);
      BudgetGrows(x1, x2, feeRate);
      CoverMore(aToB, p, leg1.next, liquidity, leg1.amountIn, leg2.amountIn);
      FarthestCovered(aToB, p, leg1.next, liquidity, leg2.amountIn, TWO64);
    }
    LongerMoveAffords(aToB, p, leg1.next, leg2.next, liquidity, leg1.amountOut, TWO64);
    LegPaysMost(aToB, p, t, liquidity, x2, feeRate);
    OutputIsGreatest(aToB, p, leg2.next, liquidity, leg1.amountOut, TWO64);
  }

  lemma PartialLeg(aToB: bool, p: nat, t: nat, liquidity: nat, amount: nat, feeRate: nat)
    requires StepInputs(aToB, p, t, liquidity, feeRate)
    ensures var leg := LegOf(aToB, p, t, liquidity, amount, feeRate);
            leg.next != t ==>
              && liquidity > 0 && leg.amountIn == Budget(amount, feeRate)
              && leg.next == PriceAfterInput(aToB, p, liquidity, leg.amountIn, TWO64)
  {
    hide InputFor, OutputFor, PriceAfterInput, Budget;
  }

  lemma LegPaysMost(aToB: bool, p: nat, t: nat, liquidity: nat, amount: nat, feeRate: nat)
    requires StepInputs(aToB, p, t, liquidity, feeRate)
    ensures var leg := LegOf(aToB, p, t, liquidity, amount, feeRate);
            leg.next > 0 && leg.amountOut == OutputFor(aToB, p, leg.next, liquidity, TWO64)
  {
    hide InputFor, OutputFor, PriceAfterInput, Budget;
    if liquidity == 0 {
      FreeMove(aToB, aToB, p, t, liquidity);
    } else {
      InputMovesOnward(aToB, p, liquidity, Budget(amount, feeRate), TWO64);
    }
  }

  lemma BudgetGrows(x1: nat, x2: nat, feeRate: nat)
    requires x1 <= x2 && feeRate < FEE_RATE_DENOMINATOR
    ensures Budget(x1, feeRate) <= Budget(x2, feeRate)
  {
    var keep := FEE_RATE_DENOMINATOR - feeRate;
    MulMono(x1, x2, keep);
    FloorGalois(x1 * keep, FEE_RATE_DENOMINATOR, Floor(x1 * keep, FEE_RATE_DENOMINATOR));
    FloorGalois(x2 * keep, FEE_RATE_DENOMINATOR, Floor(x1 * keep, FEE_RATE_DENOMINATOR));
  }

  lemma CoverMore(aToB: bool, p: nat, n: nat, liquidity: nat, less: nat, more: nat)
    requires less <= more && Covers(aToB, p, n, liquidity, less, TWO64)
    ensures Covers(aToB, p, n, liquidity, more, TWO64)
  {
    MulMono(less, more, p * n);
  }

  lemma TradingMonotone(aToB: bool, feeRate: nat, path: seq<TickData>, p: nat, liquidity: nat, x1: nat, x2: nat)
    requires Sound(aToB, p, liquidity, path) && feeRate < FEE_RATE_DENOMINATOR && x1 <= x2
    ensures var trade1 := Trading(aToB, feeRate, path, p, liquidity, x1);
            var trade2 := Trading(aToB, feeRate, path, p, liquidity, x2);
            trade1.Fills? && trade2.Fills? ==>
              trade1.amountOut <= trade2.amountOut && Onward(aToB, trade1.price, trade2.price)
    decreases |path|
  {
    hide LegOf, Covers, Affordable, InputFor, RangeFee, NoBetterThan;
    TradingNeverBeats(aToB, feeRate, path, p, liquidity, x2);
    if x1 != 0 && path != [] {
      var t := path[0].sqrtPrice;
      var leg1 := LegOf(aToB, p, t, liquidity, x1, feeRate);
      var leg2 := LegOf(aToB, p, t, liquidity, x2, feeRate);
      LegGuarantees(aToB, p, t, liquidity, x1, feeRate);
      LegGuarantees(aToB, p, t, liquidity, x2, feeRate);
      LegSpends(aToB, p, t, liquidity, x1, feeRate);
      LegSpends(aToB, p, t, liquidity, x2, feeRate);
      var beyond := LiquidityBeyond(aToB, liquidity, path[0]);
      assert Sound(aToB, t, beyond, path[1..]);
      if leg1.next == t {
        FullLegsAgree(aToB, p, t, liquidity, x1, x2, feeRate);
        TradingMonotone(aToB, feeRate, path[1..], t, beyond, x1 - leg1.amountIn - leg1.fee,
                        x2 - leg2.amountIn - leg2.fee);
      } else {
        PartialLegsCompare(aToB, p, t, liquidity, x1, x2, feeRate);
        TradingNeverBeats(aToB, feeRate, path[1..], t, beyond, x2 - leg2.amountIn - leg2.fee);
      }
    }
  }

  /** Reaching the target costs and pays the same whatever amount is offered. */
  lemma FullLegsAgree(aToB: bool, p: nat, t: nat, liquidity: nat, x1: nat, x2: nat, feeRate: nat)
    requires StepInputs(aToB, p, t, liquidity, feeRate) && x1 <= x2
    requires LegOf(aToB, p, t, liquidity, x1, feeRate).next == t
    ensures LegOf(aToB, p, t, liquidity, x1, feeRate) == LegOf(aToB, p, t, liquidity, x2, feeRate)
  {
    FullLeg(aToB, p, t, liquidity, x1, feeRate);
    FullLeg(aToB, p, t, liquidity, x2, feeRate);
  }

  lemma FullLeg(aToB: bool, p: nat, t: nat, liquidity: nat, amount: nat, feeRate: nat)
    requires StepInputs(aToB, p, t, liquidity, feeRate)
    ensures var leg := LegOf(aToB, p, t, liquidity, amount, feeRate);
            var needed := InputFor(aToB, p, t, liquidity, TWO64);
            && (leg.next == t <==> needed + RangeFee(needed, feeRate) <= amount)
            && (leg.next == t ==> leg == Leg(needed, OutputFor(aToB, p, t, liquidity, TWO64), t,
                                             RangeFee(needed, feeRate)))
  {
    hide InputFor, OutputFor, PriceAfterInput, Covers, Affordable, Onward;
    LegGuarantees(aToB, p, t, liquidity, amount, feeRate);
    var needed := InputFor(aToB, p, t, liquidity, TWO64);
    if liquidity == 0 {
      FreeMove(aToB, aToB, p, t, liquidity);
      NoFeeOnNothing(feeRate);
    } else {
      GrossGalois(needed, amount, feeRate, FEE_RATE_DENOMINATOR - feeRate);
    }
  }

  /** Of two amounts that both fill, the larger buys at least as much and moves the price at least as far. */
  lemma SwapMonotone(aToB: bool, x1: u128, x2: u128, pool: PoolState, ticks: seq<TickData>)
    requires WellFormed(aToB, pool, ticks) && x1 <= x2
    ensures var r1 := Swap(aToB, x1, pool, ticks);
            var r2 := Swap(aToB, x2, pool, ticks);
            r1.Ok? && r2.Ok? ==>
              r1.value.amountOut <= r2.value.amountOut && Onward(aToB, r1.value.nextSqrtPrice, r2.value.nextSqrtPrice)
  {
    hide Swap, Trading;
    SwapIsExact(aToB, x1, pool, ticks);
    SwapIsExact(aToB, x2, pool, ticks);
    WellFormedIsSound(aToB, pool, ticks);
    TradingMonotone(aToB, pool.feeRate, Path(aToB, pool.currentTickIndex, ticks), pool.currentSqrtPrice, pool.liquidity,
                    x1, x2);
  }
}

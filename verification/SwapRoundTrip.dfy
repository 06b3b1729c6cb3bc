/** Swapping the whole proceeds of a swap back through the pool it left never returns more than went in. */
module SwapRoundTrip {
  import opened Rounding
  import opened CurveBounds
  import opened SwapMath
  import opened SwapStep
  import opened SwapWalk
  import opened SwapTrade
  import opened SwapTheorems
  import opened SwapGuarantees
  import opened SwapPosition
  import opened Widths

  // ---------------------------------------------------------------- one step

  /** At one liquidity: swap in, then swap the whole output back toward any price not short of the start. */
  lemma StepRoundTrip(aToB: bool, p: u128, t: u128, t': u128, liquidity: u128, amount: u128, feeRate: u64)
    requires StepInputs(aToB, p, t, liquidity, feeRate)
    requires InRange(t') && Onward(!aToB, p, t')
    ensures var there := ComputeSwapStep(p, t, liquidity, amount, feeRate, true);
            && there.Ok?
            && var back := ComputeSwapStep(there.value.nextSqrtPrice, t', liquidity, there.value.amountOut, feeRate,
                                           true);
            && back.Ok?
            && (liquidity > 0 ==>
                  && back.value.amountOut <= there.value.amountIn <= amount
                  && Onward(aToB, p, back.value.nextSqrtPrice))
            && (liquidity == 0 ==> back.value.amountOut == 0)
  {
    hide LegOf, ComputeSwapStep, Covers, Affordable;
    ExactInputStep(aToB, p, t, liquidity, amount, feeRate);
    LegGuarantees(aToB, p, t, liquidity, amount, feeRate);
    var there := LegOf(aToB, p, t, liquidity, amount, feeRate);
    ExactInputStep(!aToB, there.next, t', liquidity, there.amountOut, feeRate);
    LegGuarantees(!aToB, there.next, t', liquidity, there.amountOut, feeRate);
    var back := LegOf(!aToB, there.next, t', liquidity, there.amountOut, feeRate);
    if liquidity > 0 {
      LegSpends(!aToB, there.next, t', liquidity, there.amountOut, feeRate);
      CoverMore(!aToB, there.next, back.next, liquidity, back.amountIn, there.amountOut);
      ReturnTripLoses(aToB, p, there.next, back.next, liquidity, there.amountIn, there.amountOut, back.amountOut,
                      TWO64);
    } else {
      EmptyLeg(!aToB, there.next, t', there.amountOut, feeRate);
    }
  }

  lemma EmptyLeg(aToB: bool, p: nat, t: nat, amount: nat, feeRate: nat)
    requires p > 0 && t > 0 && feeRate < FEE_RATE_DENOMINATOR
    ensures LegOf(aToB, p, t, 0, amount, feeRate) == Leg(0, 0, t, 0)
  {
  }

  // ---------------------------------------------------------------- across ticks

  /** Whatever part of `credit` is traded along `home`, no more than `bound` comes out. */
  ghost predicate Bounded(aToB: bool, feeRate: nat, home: seq<TickData>, p: nat, liquidity: nat, credit: nat,
                          bound: nat)
    requires Sound(aToB, p, liquidity, home) && feeRate < FEE_RATE_DENOMINATOR
  {
    forall y: nat :: y <= credit && Trading(aToB, feeRate, home, p, liquidity, y).Fills?
                     ==> Trading(aToB, feeRate, home, p, liquidity, y).amountOut <= bound
  }

  /** A leg that paid `got` for `spent` leaves a pool from which `got` buys at most `spent` back. */
  lemma FirstLegBounds(aToB: bool, feeRate: nat, home: seq<TickData>, p: nat, n: nat, liquidity: nat, spent: nat,
                       got: nat)
    requires Sound(!aToB, p, liquidity, home) && Sound(!aToB, n, liquidity, home) && feeRate < FEE_RATE_DENOMINATOR
    requires Onward(aToB, p, n)
    requires Covers(aToB, p, n, liquidity, spent, TWO64) && Affordable(aToB, p, n, liquidity, got, TWO64)
    ensures Bounded(!aToB, feeRate, home, n, liquidity, got, spent)
  {
    var back := !aToB;
    forall y: nat | y <= got && Trading(back, feeRate, home, n, liquidity, y).Fills?
      ensures Trading(back, feeRate, home, n, liquidity, y).amountOut <= spent
    {
      hide LegOf, Covers, Affordable;
      if y > 0 && home != [] {
        FirstLegReturns(aToB, feeRate, home, p, n, liquidity, spent, got, y);
      }
    }
  }

  lemma PositiveNeedsLiquidity(aToB: bool, p: nat, n: nat, liquidity: nat, got: nat)
    requires p > 0 && n > 0 && got > 0 && Affordable(aToB, p, n, liquidity, got, TWO64)
    ensures liquidity > 0
  {
    assert p * n > 0;
    assert got * (p * n) > 0;
  }

  lemma FirstLegReturns(aToB: bool, feeRate: nat, home: seq<TickData>, p: nat, n: nat, liquidity: nat, spent: nat,
                        got: nat, y: nat)
    requires Sound(!aToB, p, liquidity, home) && Sound(!aToB, n, liquidity, home) && feeRate < FEE_RATE_DENOMINATOR
    requires Onward(aToB, p, n) && 0 < y <= got && home != []
    requires Covers(aToB, p, n, liquidity, spent, TWO64) && Affordable(aToB, p, n, liquidity, got, TWO64)
    ensures var trade := Trading(!aToB, feeRate, home, n, liquidity, y);
            trade.Fills? ==> trade.amountOut <= spent
  {
    hide LegOf, Covers, Affordable, InputFor;
    var t := home[0].sqrtPrice;
    PositiveNeedsLiquidity(aToB, p, n, liquidity, got);
    var leg := LegOf(!aToB, n, t, liquidity, y, feeRate);
    LegGuarantees(!aToB, n, t, liquidity, y, feeRate);
    LegSpends(!aToB, n, t, liquidity, y, feeRate);
    CoverMore(!aToB, n, leg.next, liquidity, leg.amountIn, got);
    ReturnTripLoses(aToB, p, n, leg.next, liquidity, spent, got, leg.amountOut, TWO64);
    if leg.next == t {
      // Reaching the target means it was the starting price itself, and took everything.
      assert t == p;
      FullLeg(!aToB, n, t, liquidity, y, feeRate);
      WayBackCosts(aToB, p, n, liquidity, got);
      assert y == leg.amountIn + leg.fee;
      assert Sound(!aToB, t, LiquidityBeyond(!aToB, liquidity, home[0]), home[1..]);
    }
  }

  /** Retracing a move costs at least what the move paid. */
  lemma WayBackCosts(aToB: bool, p: nat, n: nat, liquidity: nat, got: nat)
    requires p > 0 && n > 0 && Onward(aToB, p, n) && Affordable(aToB, p, n, liquidity, got, TWO64)
    ensures got <= InputFor(!aToB, n, p, liquidity, TWO64)
  {
    hide InputFor;
    var cost := InputFor(!aToB, n, p, liquidity, TWO64);
    InputIsLeast(!aToB, n, p, liquidity, cost, TWO64);
    assert p * n == n * p > 0;
    if aToB {
      MulCancel(got, cost, TWO64);
    } else {
      MulCancel(got, cost, p * n);
    }
  }

  /** Retracing a move pays at most what the move cost. */
  lemma WayBackPays(aToB: bool, p: nat, n: nat, liquidity: nat, spent: nat)
    requires p > 0 && n > 0 && Onward(aToB, p, n) && Covers(aToB, p, n, liquidity, spent, TWO64)
    ensures OutputFor(!aToB, n, p, liquidity, TWO64) <= spent
  {
    hide OutputFor;
    var pay := OutputFor(!aToB, n, p, liquidity, TWO64);
    OutputIsGreatest(!aToB, n, p, liquidity, pay, TWO64);
    assert p * n == n * p > 0;
    if aToB {
      MulCancel(pay, spent, p * n);
    } else {
      MulCancel(pay, spent, TWO64);
    }
  }

  lemma SoundHomeward(aToB: bool, tick: TickData, home: seq<TickData>, liquidity: int, inner: int, n: nat)
    requires Sound(!aToB, tick.sqrtPrice, liquidity, home)
    requires inner == LiquidityBeyond(aToB, liquidity, tick) && Bearable(inner) && InRange(n)
             && Onward(aToB, tick.sqrtPrice, n)
    ensures LiquidityBeyond(!aToB, inner, tick) == liquidity
    ensures Sound(!aToB, n, inner, [tick] + home)
  {
    assert ([tick] + home)[1..] == home;
  }

  /** Beyond a crossed tick, a further leg raises the credit by its output and the bound by its input. */
  lemma NextLegBounds(aToB: bool, feeRate: nat, tick: TickData, home: seq<TickData>, liquidity: nat, inner: nat,
                      n: nat, spent: nat, got: nat, credit: nat, bound: nat)
    requires feeRate < FEE_RATE_DENOMINATOR && Sound(!aToB, tick.sqrtPrice, liquidity, home)
    requires inner == LiquidityBeyond(aToB, liquidity, tick) && Bearable(inner)
    requires InRange(n) && Onward(aToB, tick.sqrtPrice, n)
    requires Covers(aToB, tick.sqrtPrice, n, inner, spent, TWO64)
             && Affordable(aToB, tick.sqrtPrice, n, inner, got, TWO64)
    requires Bounded(!aToB, feeRate, home, tick.sqrtPrice, liquidity, credit, bound)
    ensures Sound(!aToB, n, inner, [tick] + home)
    ensures Bounded(!aToB, feeRate, [tick] + home, n, inner, credit + got, bound + spent)
  {
    SoundHomeward(aToB, tick, home, liquidity, inner, n);
    var back, retraced := !aToB, [tick] + home;
    forall y: nat | y <= credit + got && Trading(back, feeRate, retraced, n, inner, y).Fills?
      ensures Trading(back, feeRate, retraced, n, inner, y).amountOut <= bound + spent
    {
      hide LegOf, Covers, Affordable, InputFor, OutputFor, Onward, Sound;
      if y > 0 {
        NextLegReturns(aToB, feeRate, tick, home, liquidity, inner, n, spent, got, credit, bound, y);
      }
    }
  }

  lemma NextLegReturns(aToB: bool, feeRate: nat, tick: TickData, home: seq<TickData>, liquidity: nat, inner: nat,
                       n: nat, spent: nat, got: nat, credit: nat, bound: nat, y: nat)
    requires feeRate < FEE_RATE_DENOMINATOR && Sound(!aToB, tick.sqrtPrice, liquidity, home)
    requires inner == LiquidityBeyond(aToB, liquidity, tick) && Bearable(inner)
    requires InRange(n) && Onward(aToB, tick.sqrtPrice, n)
    requires Covers(aToB, tick.sqrtPrice, n, inner, spent, TWO64)
             && Affordable(aToB, tick.sqrtPrice, n, inner, got, TWO64)
    requires Bounded(!aToB, feeRate, home, tick.sqrtPrice, liquidity, credit, bound)
    requires Sound(!aToB, n, inner, [tick] + home) && 0 < y <= credit + got
    ensures var trade := Trading(!aToB, feeRate, [tick] + home, n, inner, y);
            trade.Fills? ==> trade.amountOut <= bound + spent
  {
    hide LegOf, Covers, Affordable, InputFor, OutputFor, RangeFee;
    var t := tick.sqrtPrice;
    assert ([tick] + home)[1..] == home;
    var leg := LegOf(!aToB, n, t, inner, y, feeRate);
    LegGuarantees(!aToB, n, t, inner, y, feeRate);
    LegSpends(!aToB, n, t, inner, y, feeRate);
    WayBackPays(aToB, t, n, inner, spent);
    LegPaysMost(!aToB, n, t, inner, y, feeRate);
    LongerMoveAffords(!aToB, n, leg.next, t, inner, leg.amountOut, TWO64);
    OutputIsGreatest(!aToB, n, t, inner, leg.amountOut, TWO64);
    if leg.next == t {
      FullLeg(!aToB, n, t, inner, y, feeRate);
      WayBackCosts(aToB, t, n, inner, got);
      var left := y - leg.amountIn - leg.fee;
      assert left <= credit;
      assert LiquidityBeyond(!aToB, inner, tick) == liquidity;
    }
  }

  // ---------------------------------------------------------------- the whole swap

  /** The way back from where a trade along `path` ends, having just crossed `tick` into it. */
  lemma WayBackBounded(aToB: bool, feeRate: nat, ticks: seq<TickData>, index: int, tick: TickData, home: seq<TickData>,
                       liquidity: nat, inner: nat, amount: nat, credit: nat, bound: nat)
    requires feeRate < FEE_RATE_DENOMINATOR && Indexed(ticks)
    requires Path(!aToB, index, ticks) == [tick] + home && Sound(!aToB, tick.sqrtPrice, liquidity, home)
    requires inner == LiquidityBeyond(aToB, liquidity, tick)
    requires Sound(aToB, tick.sqrtPrice, inner, Path(aToB, index, ticks))
    requires Bounded(!aToB, feeRate, home, tick.sqrtPrice, liquidity, credit, bound)
    requires Trading(aToB, feeRate, Path(aToB, index, ticks), tick.sqrtPrice, inner, amount).Fills?
    ensures var trade := Trading(aToB, feeRate, Path(aToB, index, ticks), tick.sqrtPrice, inner, amount);
            var end := EndPosition(aToB, feeRate, Path(aToB, index, ticks), tick.sqrtPrice, inner, index, amount);
            && end.price == trade.price && end.liquidity >= 0 && trade.fee <= amount
            && Sound(!aToB, end.price, end.liquidity, Path(!aToB, end.index, ticks))
            && Bounded(!aToB, feeRate, Path(!aToB, end.index, ticks), end.price, end.liquidity,
                       credit + trade.amountOut, bound + (amount - trade.fee))
    decreases |Path(aToB, index, ticks)|
  {
    hide LegOf, Covers, Affordable, InputFor, OutputFor, RangeFee, Bounded, Budget, Path, Indexed;
    var path := Path(aToB, index, ticks);
    if amount == 0 {
      NothingMoves(aToB, tick.sqrtPrice, inner);
      NextLegBounds(aToB, feeRate, tick, home, liquidity, inner, tick.sqrtPrice, 0, 0, credit, bound);
    } else {
      var t := path[0].sqrtPrice;
      var leg := LegOf(aToB, tick.sqrtPrice, t, inner, amount, feeRate);
      LegGuarantees(aToB, tick.sqrtPrice, t, inner, amount, feeRate);
      LegSpends(aToB, tick.sqrtPrice, t, inner, amount, feeRate);
      NextLegBounds(aToB, feeRate, tick, home, liquidity, inner, leg.next, leg.amountIn, leg.amountOut, credit, bound);
      if leg.next == t {
        CrossingTurnsTick(aToB, index, ticks);
        assert Sound(aToB, t, LiquidityBeyond(aToB, inner, path[0]), path[1..]);
        WayBackBounded(aToB, feeRate, ticks, IndexBeyond(aToB, path[0]), path[0], [tick] + home, inner,
                       LiquidityBeyond(aToB, inner, path[0]), amount - leg.amountIn - leg.fee,
                       credit + leg.amountOut, bound + leg.amountIn);
      }
    }
  }

  lemma NothingMoves(aToB: bool, p: nat, liquidity: nat)
    ensures Covers(aToB, p, p, liquidity, 0, TWO64) && Affordable(aToB, p, p, liquidity, 0, TWO64)
  {
    assert liquidity * Gap(p, p) == 0;
  }

  lemma SoundFromFurther(aToB: bool, p: nat, n: nat, liquidity: int, home: seq<TickData>)
    requires Sound(aToB, p, liquidity, home) && InRange(n) && Onward(aToB, n, p)
    ensures Sound(aToB, n, liquidity, home)
  {
  }

  lemma TradeWayBack(aToB: bool, feeRate: nat, ticks: seq<TickData>, index: int, p: nat, liquidity: nat, amount: nat)
    requires feeRate < FEE_RATE_DENOMINATOR && Indexed(ticks)
    requires Sound(aToB, p, liquidity, Path(aToB, index, ticks))
             && Sound(!aToB, p, liquidity, Path(!aToB, index, ticks))
    requires Trading(aToB, feeRate, Path(aToB, index, ticks), p, liquidity, amount).Fills?
    ensures var trade := Trading(aToB, feeRate, Path(aToB, index, ticks), p, liquidity, amount);
            var end := EndPosition(aToB, feeRate, Path(aToB, index, ticks), p, liquidity, index, amount);
            && end.price == trade.price && end.liquidity >= 0 && trade.fee <= amount
            && Sound(!aToB, end.price, end.liquidity, Path(!aToB, end.index, ticks))
            && Bounded(!aToB, feeRate, Path(!aToB, end.index, ticks), end.price, end.liquidity, trade.amountOut,
                       amount - trade.fee)
  {
    hide LegOf, Covers, Affordable, InputFor, OutputFor, RangeFee, Bounded, Budget, Path, Indexed;
    var path, home := Path(aToB, index, ticks), Path(!aToB, index, ticks);
    if amount == 0 {
      NothingMoves(aToB, p, liquidity);
      FirstLegBounds(aToB, feeRate, home, p, p, liquidity, 0, 0);
    } else {
      var t := path[0].sqrtPrice;
      var leg := LegOf(aToB, p, t, liquidity, amount, feeRate);
      LegGuarantees(aToB, p, t, liquidity, amount, feeRate);
      LegSpends(aToB, p, t, liquidity, amount, feeRate);
      SoundFromFurther(!aToB, p, leg.next, liquidity, home);
      FirstLegBounds(aToB, feeRate, home, p, leg.next, liquidity, leg.amountIn, leg.amountOut);
      if leg.next == t {
        CrossingTurnsTick(aToB, index, ticks);
        assert Sound(aToB, t, LiquidityBeyond(aToB, liquidity, path[0]), path[1..]);
        WayBackBounded(aToB, feeRate, ticks, IndexBeyond(aToB, path[0]), path[0], home, liquidity,
                       LiquidityBeyond(aToB, liquidity, path[0]), amount - leg.amountIn - leg.fee,
                       leg.amountOut, leg.amountIn);
      }
    }
  }

  /** The pool a filled swap leaves behind is sound for the way back. */
  lemma AfterIsSoundBack(aToB: bool, amount: u128, pool: PoolState, ticks: seq<TickData>)
    requires WellFormed(aToB, pool, ticks) && WellFormed(!aToB, pool, ticks) && Swap(aToB, amount, pool, ticks).Ok?
    ensures var after := PoolAfter(aToB, amount, pool, ticks);
            Sound(!aToB, after.currentSqrtPrice, after.liquidity, Path(!aToB, after.currentTickIndex, ticks))
  {
    hide Swap, Trading, EndPosition, Bounded;
    WellFormedIsSound(aToB, pool, ticks);
    WellFormedIsSound(!aToB, pool, ticks);
    SwapIsExact(aToB, amount, pool, ticks);
    TradeWayBack(aToB, pool.feeRate, ticks, pool.currentTickIndex, pool.currentSqrtPrice, pool.liquidity, amount);
  }

  /** Swapping the whole output back through the pool the swap left behind returns at most what the swap
      spent net of its fee, in both directions, for every fee rate and across any number of ticks. */
  lemma SwapRoundTripLoses(aToB: bool, amount: u128, pool: PoolState, ticks: seq<TickData>)
    requires WellFormed(aToB, pool, ticks) && WellFormed(!aToB, pool, ticks)
    ensures var there := Swap(aToB, amount, pool, ticks);
            there.Ok? ==>
              var back := Swap(!aToB, there.value.amountOut, PoolAfter(aToB, amount, pool, ticks), ticks);
              back.Ok? ==> there.value.feeAmount <= amount && back.value.amountOut <= amount - there.value.feeAmount
  {
    hide Swap, Trading, EndPosition;
    WellFormedIsSound(aToB, pool, ticks);
    WellFormedIsSound(!aToB, pool, ticks);
    SwapIsExact(aToB, amount, pool, ticks);
    var there := Swap(aToB, amount, pool, ticks);
    if there.Ok? {
      TradeWayBack(aToB, pool.feeRate, ticks, pool.currentTickIndex, pool.currentSqrtPrice, pool.liquidity, amount);
      AfterIsSoundBack(aToB, amount, pool, ticks);
      SwapIsTrading(!aToB, there.value.amountOut, PoolAfter(aToB, amount, pool, ticks), ticks);
    }
  }
}

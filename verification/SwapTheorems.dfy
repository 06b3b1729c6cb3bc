/** What a caller may rely on when compute_swap returns. */
module SwapTheorems {
  import opened Wrappers
  import opened Rounding
  import opened CurveBounds
  import opened SwapMath
  import opened SwapStep
  import opened SwapWalk
  import opened SwapTrade
  import opened Widths

  // ---------------------------------------------------------------- conservation, on any pool at all

  /** The fee takes everything: no step can spend any of `remaining`. */
  predicate Stranded(remaining: nat, feeRate: nat) {
    remaining > 0 && feeRate <= FEE_RATE_DENOMINATOR
    && remaining * (FEE_RATE_DENOMINATOR - feeRate) < FEE_RATE_DENOMINATOR
  }

  predicate Balanced(amount: nat, feeRate: nat, s: LoopState) {
    s.result.amountIn + s.result.feeAmount + s.remaining == amount || Stranded(s.remaining, feeRate)
  }

  /** A step that books no input books no fee either, unless the remainder is stranded. */
  lemma StepOnNothing(current: u128, target: u128, liquidity: u128, amount: u128, feeRate: u64)
    requires amount > 0 && ComputeSwapStep(current, target, liquidity, amount, feeRate, true).Ok?
    ensures var step := ComputeSwapStep(current, target, liquidity, amount, feeRate, true).value;
            && (Stranded(amount, feeRate) ==> step.amountIn == 0)
            && (step.amountIn == 0 ==> step.feeAmount == 0 || Stranded(amount, feeRate))
  {
    hide GetDeltaUpFromInput, GetDeltaDownFromOutput, GetNextSqrtPriceFromInput, AmountAfterFee, FeeOnTop;
    FeeOnNothing(feeRate);
    if liquidity != 0 && feeRate <= FEE_RATE_DENOMINATOR {
      AfterFeeExact(amount, feeRate);
      FloorGalois(amount * (FEE_RATE_DENOMINATOR - feeRate), FEE_RATE_DENOMINATOR, 1);
    }
    if feeRate > FEE_RATE_DENOMINATOR {
      FeeTooLarge(amount, feeRate);
    }
  }

  lemma FeeTooLarge(amount: u128, feeRate: u64)
    requires feeRate > FEE_RATE_DENOMINATOR
    ensures AmountAfterFee(amount, feeRate).Err?
  {
  }

  lemma FeeOnNothing(feeRate: u64)
    ensures FeeOnTop(0, feeRate).Ok? ==> FeeOnTop(0, feeRate).value == 0
  {
  }

  lemma VisitBalances(aToB: bool, feeRate: u64, tick: TickData, s: LoopState, amount: nat)
    requires s.remaining > 0 && amount < TWO128 && Balanced(amount, feeRate, s)
    ensures Visit(aToB, feeRate, tick, s) != Err(ConsumedTooMuch)
    ensures Visit(aToB, feeRate, tick, s).Ok? ==> Balanced(amount, feeRate, Visit(aToB, feeRate, tick, s).value)
  {
    hide ComputeSwapStep, Wrap128, Stranded;
    var target := Target(aToB, tick);
    var r := ComputeSwapStep(s.sqrtPrice, target, s.liquidity, s.remaining, feeRate, true);
    if r.Ok? {
      var step := r.value;
      StepSpendsNoMore(s.sqrtPrice, target, s.liquidity, s.remaining, feeRate);
      StepOnNothing(s.sqrtPrice, target, s.liquidity, s.remaining, feeRate);
      WrapKeeps(step.amountIn + step.feeAmount);
      if !Stranded(s.remaining, feeRate) {
        WrapKeeps(s.result.amountIn + step.amountIn);
        WrapKeeps(s.result.feeAmount + step.feeAmount);
      }
    } else {
      StepNeverOverspends(s.sqrtPrice, target, s.liquidity, s.remaining, feeRate);
    }
  }

  lemma StepNeverOverspends(current: u128, target: u128, liquidity: u128, amount: u128, feeRate: u64)
    ensures ComputeSwapStep(current, target, liquidity, amount, feeRate, true) != Err(ConsumedTooMuch)
  {
    hide Wrap256, Shl64;
  }

  lemma WalkBalances(aToB: bool, feeRate: u64, path: seq<TickData>, s: LoopState, amount: nat)
    requires amount < TWO128 && Balanced(amount, feeRate, s)
    ensures Walk(aToB, feeRate, path, s) != Err(ConsumedTooMuch)
    ensures Walk(aToB, feeRate, path, s).Ok? ==> Balanced(amount, feeRate, Walk(aToB, feeRate, path, s).value)
    decreases |path|
  {
    hide Visit, Balanced;
    if path != [] && s.remaining != 0 {
      VisitBalances(aToB, feeRate, path[0], s, amount);
      if Visit(aToB, feeRate, path[0], s).Ok? {
        WalkBalances(aToB, feeRate, path[1..], Visit(aToB, feeRate, path[0], s).value, amount);
      }
    }
  }

  /** For every pool, sound or not: a swap that succeeds reports exactly the requested input, the fee is
      part of it, and the swap never claims to have consumed more than was left. */
  lemma Conservation(aToB: bool, amount: u128, pool: PoolState, ticks: seq<TickData>)
    ensures var r := Swap(aToB, amount, pool, ticks);
            && r != Err(ConsumedTooMuch)
            && (r.Ok? ==> r.value.amountIn == amount && r.value.feeAmount <= amount)
  {
    hide Walk, Wrap128;
    var path := Path(aToB, pool.currentTickIndex, ticks);
    WalkBalances(aToB, pool.feeRate, path, Start(amount, pool), amount);
    var walk := Walk(aToB, pool.feeRate, path, Start(amount, pool));
    if walk.Ok? && walk.value.remaining == 0 {
      WrapKeeps(walk.value.result.amountIn + walk.value.result.feeAmount);
    }
  }

  // ---------------------------------------------------------------- sound pools

  predicate Ascending(ticks: seq<TickData>) {
    forall i, j :: 0 <= i < j < |ticks| ==> ticks[i].sqrtPrice < ticks[j].sqrtPrice
  }

  /** Every tick the walk will visit is in range and on the way from `p`. */
  predicate Leads(aToB: bool, p: nat, currentTick: int, ticks: seq<TickData>) {
    forall t :: t in ticks && !Skipped(aToB, currentTick, t) ==> InRange(t.sqrtPrice) && Onward(aToB, p, t.sqrtPrice)
  }

  lemma HeadLeads(aToB: bool, p: nat, currentTick: int, ticks: seq<TickData>)
    requires ticks != [] && Ascending(ticks) && Leads(aToB, p, currentTick, ticks)
    ensures var rest := if aToB then ticks[..|ticks| - 1] else ticks[1..];
            var head := if aToB then ticks[|ticks| - 1] else ticks[0];
            && Ascending(rest) && Leads(aToB, p, currentTick, rest) && Leads(aToB, head.sqrtPrice, currentTick, rest)
            && (!Skipped(aToB, currentTick, head) ==> InRange(head.sqrtPrice) && Onward(aToB, p, head.sqrtPrice))
  {
    assert (if aToB then ticks[|ticks| - 1] else ticks[0]) in ticks;
  }

  lemma PathIsSound(aToB: bool, currentTick: int, ticks: seq<TickData>, p: nat, liquidity: int)
    requires InRange(p) && Ascending(ticks) && Leads(aToB, p, currentTick, ticks)
    requires LiquidityHolds(aToB, liquidity, Path(aToB, currentTick, ticks))
    ensures Sound(aToB, p, liquidity, Path(aToB, currentTick, ticks))
    decreases |ticks|
  {
    if ticks != [] {
      hide Ascending, Leads, Onward;
      HeadLeads(aToB, p, currentTick, ticks);
      var rest := if aToB then ticks[..|ticks| - 1] else ticks[1..];
      var head := if aToB then ticks[|ticks| - 1] else ticks[0];
      var tail := Path(aToB, currentTick, rest);
      assert [] + tail == tail && ([head] + tail)[1..] == tail;
      if Skipped(aToB, currentTick, head) {
        PathIsSound(aToB, currentTick, rest, p, liquidity);
      } else {
        PathIsSound(aToB, currentTick, rest, head.sqrtPrice, LiquidityBeyond(aToB, liquidity, head));
      }
    }
  }

  lemma WellFormedIsSound(aToB: bool, pool: PoolState, ticks: seq<TickData>)
    requires WellFormed(aToB, pool, ticks)
    ensures Sound(aToB, pool.currentSqrtPrice, pool.liquidity, Path(aToB, pool.currentTickIndex, ticks))
  {
    forall t | t in ticks && !Skipped(aToB, pool.currentTickIndex, t)
      ensures InRange(t.sqrtPrice) && Onward(aToB, pool.currentSqrtPrice, t.sqrtPrice)
    {
      var k :| 0 <= k < |ticks| && ticks[k] == t;
    }
    PathIsSound(aToB, pool.currentTickIndex, ticks, pool.currentSqrtPrice, pool.liquidity);
  }

  function Traded(aToB: bool, amount: nat, pool: PoolState, ticks: seq<TickData>): Trade
    requires WellFormed(aToB, pool, ticks)
  {
    WellFormedIsSound(aToB, pool, ticks);
    Trading(aToB, pool.feeRate, Path(aToB, pool.currentTickIndex, ticks), pool.currentSqrtPrice, pool.liquidity, amount)
  }

  lemma SwapIsTrading(aToB: bool, amount: u128, pool: PoolState, ticks: seq<TickData>)
    requires pool.feeRate < FEE_RATE_DENOMINATOR
    requires Sound(aToB, pool.currentSqrtPrice, pool.liquidity, Path(aToB, pool.currentTickIndex, ticks))
    ensures var r := Swap(aToB, amount, pool, ticks);
            var trade := Trading(aToB, pool.feeRate, Path(aToB, pool.currentTickIndex, ticks), pool.currentSqrtPrice,
                                 pool.liquidity, amount);
            && (trade.Fills? ==> r.Ok? && r.value.amountIn == amount && r.value.amountOut == trade.amountOut
                                 && r.value.feeAmount == trade.fee && r.value.nextSqrtPrice == trade.price)
            && (trade.Stalls? ==> r.Err? && r.error.Unfilled?)
  {
    hide Walk, Trading;
    WalkIsTrading(aToB, pool.feeRate, Path(aToB, pool.currentTickIndex, ticks), Start(amount, pool),
                  pool.currentSqrtPrice, amount);
  }

  /** On a well-formed pool compute_swap computes the unbounded trade: no intermediate is truncated, no sum of a
      filled swap wraps, and the only error left is an amount the fetched ticks cannot fill. */
  lemma SwapIsExact(aToB: bool, amount: u128, pool: PoolState, ticks: seq<TickData>)
    requires WellFormed(aToB, pool, ticks)
    ensures var r := Swap(aToB, amount, pool, ticks);
            var trade := Traded(aToB, amount, pool, ticks);
            && (trade.Fills? ==> r.Ok? && r.value.amountIn == amount && r.value.amountOut == trade.amountOut
                                 && r.value.feeAmount == trade.fee && r.value.nextSqrtPrice == trade.price)
            && (trade.Stalls? ==> r.Err? && r.error.Unfilled?)
  {
    hide Swap, Trading;
    WellFormedIsSound(aToB, pool, ticks);
    SwapIsTrading(aToB, amount, pool, ticks);
  }

  lemma PathIsShorter(aToB: bool, currentTick: int, ticks: seq<TickData>)
    ensures |Path(aToB, currentTick, ticks)| <= |ticks|
  {
  }

  /** A swap left unfilled on a well-formed pool keeps exact totals as well: input, fee and remainder add up to the
      amount and one more remainder, booked as a fee, for each tick visited after nothing could be spent any more.
      No sum wraps as long as the amount leaves room for less than one fee denominator a tick. */
  lemma UnfilledTotals(aToB: bool, amount: u128, pool: PoolState, ticks: seq<TickData>) returns (stuck: nat)
    requires WellFormed(aToB, pool, ticks) && Swap(aToB, amount, pool, ticks).Err?
    requires amount + |ticks| * FEE_RATE_DENOMINATOR <= TWO128
    ensures stuck <= |Path(aToB, pool.currentTickIndex, ticks)|
    ensures var walk := Walk(aToB, pool.feeRate, Path(aToB, pool.currentTickIndex, ticks), Start(amount, pool));
            && walk.Ok? && Overbooked(aToB, pool.currentSqrtPrice, amount, walk.value, stuck)
            && Swap(aToB, amount, pool, ticks)
               == Err(Unfilled(walk.value.remaining, amount, walk.value.result.crossTickCount))
  {
    hide Walk, Trading, Overbooked;
    WellFormedIsSound(aToB, pool, ticks);
    var path, start := Path(aToB, pool.currentTickIndex, ticks), Start(amount, pool);
    PathIsShorter(aToB, pool.currentTickIndex, ticks);
    MulMono(|path|, |ticks|, FEE_RATE_DENOMINATOR);
    WalkIsTrading(aToB, pool.feeRate, path, start, pool.currentSqrtPrice, amount);
    stuck := StalledTotals(aToB, pool.feeRate, path, start, pool.currentSqrtPrice, amount);
  }
}

/** compute_swap: the loop over initialized ticks, and the recursive walk it implements. */
module SwapWalk {
  import opened Wrappers
  import opened SwapMath
  import opened Widths

  datatype LoopState = LoopState(remaining: u128, liquidity: u128, sqrtPrice: u128, result: SwapResult)

  /** The ticks the loop does not skip, in the order it meets them. */
  function Path(aToB: bool, currentTick: int, ticks: seq<TickData>): seq<TickData> {
    if ticks == [] then []
    else if aToB then
      var last := ticks[|ticks| - 1];
      (if currentTick < last.index then [] else [last]) + Path(aToB, currentTick, ticks[..|ticks| - 1])
    else
      (if currentTick >= ticks[0].index then [] else [ticks[0]]) + Path(aToB, currentTick, ticks[1..])
  }

  function Target(aToB: bool, tick: TickData): u128 {
    if aToB && MIN_SQRT_PRICE > tick.sqrtPrice then MIN_SQRT_PRICE
    else if !aToB && MAX_SQRT_PRICE < tick.sqrtPrice then MAX_SQRT_PRICE
    else tick.sqrtPrice
  }

  /** The sign is the program's: the net is added going down and subtracted going up. */
  function Crossed(aToB: bool, liquidity: u128, net: i128): u128 {
    Wrap128(if aToB then liquidity + net else liquidity - net)
  }

  function Visit(aToB: bool, feeRate: u64, tick: TickData, s: LoopState): Result<LoopState, SwapError> {
    var step :- ComputeSwapStep(s.sqrtPrice, Target(aToB, tick), s.liquidity, s.remaining, feeRate, true);
    var spent := if step.amountIn != 0 then Wrap128(step.amountIn + step.feeAmount) else 0;
    if s.remaining < spent then Err(ConsumedTooMuch) else
    var liquidity := if step.nextSqrtPrice == tick.sqrtPrice
                     then Crossed(aToB, s.liquidity, tick.liquidityNet) else s.liquidity;
    Ok(LoopState(s.remaining - spent, liquidity, step.nextSqrtPrice,
                 s.result.(amountIn := Wrap128(s.result.amountIn + step.amountIn),
                           amountOut := Wrap128(s.result.amountOut + step.amountOut),
                           feeAmount := Wrap128(s.result.feeAmount + step.feeAmount),
                           crossTickCount := (s.result.crossTickCount + 1) % TWO32)))
  }

  function Walk(aToB: bool, feeRate: u64, path: seq<TickData>, s: LoopState): Result<LoopState, SwapError> {
    if path == [] || s.remaining == 0 then Ok(s) else
    var next :- Visit(aToB, feeRate, path[0], s);
    Walk(aToB, feeRate, path[1..], next)
  }

  function Start(amount: u128, pool: PoolState): LoopState {
    LoopState(amount, pool.liquidity, pool.currentSqrtPrice, SwapResult(0, 0, 0, pool.currentSqrtPrice, 0))
  }

  function Finish(amount: u128, end: LoopState): Result<SwapResult, SwapError> {
    if end.remaining != 0 then Err(Unfilled(end.remaining, amount, end.result.crossTickCount))
    else Ok(end.result.(amountIn := Wrap128(end.result.amountIn + end.result.feeAmount),
                        nextSqrtPrice := end.sqrtPrice))
  }

  function Swap(aToB: bool, amount: u128, pool: PoolState, ticks: seq<TickData>): Result<SwapResult, SwapError> {
    var end :- Walk(aToB, pool.feeRate, Path(aToB, pool.currentTickIndex, ticks), Start(amount, pool));
    Finish(amount, end)
  }

  /** The ticks still ahead after `i` of them have been drawn. */
  function Ahead(aToB: bool, ticks: seq<TickData>, i: nat): seq<TickData>
    requires i <= |ticks|
  {
    if aToB then ticks[..|ticks| - i] else ticks[i..]
  }

  /** What is left of the walk after `i` ticks have been drawn. */
  function Rest(aToB: bool, pool: PoolState, ticks: seq<TickData>, i: nat, s: LoopState): Result<LoopState, SwapError>
    requires i <= |ticks|
  {
    Walk(aToB, pool.feeRate, Path(aToB, pool.currentTickIndex, Ahead(aToB, ticks, i)), s)
  }

  predicate Skipped(aToB: bool, currentTick: int, tick: TickData) {
    if aToB then currentTick < tick.index else currentTick >= tick.index
  }

  /** The path over the ticks still ahead starts with the next tick, unless that one is skipped. */
  lemma PathDraws(aToB: bool, currentTick: int, ticks: seq<TickData>, i: nat)
    requires i < |ticks|
    ensures var tick := if aToB then ticks[|ticks| - 1 - i] else ticks[i];
            var later := Path(aToB, currentTick, Ahead(aToB, ticks, i + 1));
            Path(aToB, currentTick, Ahead(aToB, ticks, i)) ==
            if Skipped(aToB, currentTick, tick) then later else [tick] + later
  {
    var ahead := Ahead(aToB, ticks, i);
    assert (if aToB then ahead[..|ahead| - 1] else ahead[1..]) == Ahead(aToB, ticks, i + 1);
    var later := Path(aToB, currentTick, Ahead(aToB, ticks, i + 1));
    assert [] + later == later;
  }

  lemma RestDraws(aToB: bool, pool: PoolState, ticks: seq<TickData>, i: nat, s: LoopState)
    requires i < |ticks|
    ensures var tick := if aToB then ticks[|ticks| - 1 - i] else ticks[i];
            Rest(aToB, pool, ticks, i, s) ==
            if Skipped(aToB, pool.currentTickIndex, tick) then Rest(aToB, pool, ticks, i + 1, s)
            else if s.remaining == 0 then Ok(s)
            else if Visit(aToB, pool.feeRate, tick, s).Err? then Err(Visit(aToB, pool.feeRate, tick, s).error)
            else Rest(aToB, pool, ticks, i + 1, Visit(aToB, pool.feeRate, tick, s).value)
  {
    hide Path, Visit, Ahead, Skipped;
    PathDraws(aToB, pool.currentTickIndex, ticks, i);
    var tick := if aToB then ticks[|ticks| - 1 - i] else ticks[i];
    var later := Path(aToB, pool.currentTickIndex, Ahead(aToB, ticks, i + 1));
    assert ([tick] + later)[1..] == later;
  }

  lemma RestSettles(aToB: bool, pool: PoolState, ticks: seq<TickData>, i: nat, s: LoopState)
    requires i <= |ticks| && (i == |ticks| || s.remaining == 0)
    ensures Rest(aToB, pool, ticks, i, s) == Ok(s)
  {
  }

  method ComputeSwap(aToB: bool, amount: u128, pool: PoolState, ticks: seq<TickData>)
    returns (r: Result<SwapResult, SwapError>)
    ensures r == Swap(aToB, amount, pool, ticks)
  {
    hide Visit;
    var s := Start(amount, pool);
    assert Ahead(aToB, ticks, 0) == ticks;
    ghost var goal := Rest(aToB, pool, ticks, 0, s);

    var i := 0;
    while i < |ticks|
      invariant 0 <= i <= |ticks|
      invariant goal == Rest(aToB, pool, ticks, i, s)
    {
      RestDraws(aToB, pool, ticks, i, s);
      var tick := if aToB then ticks[|ticks| - 1 - i] else ticks[i];
      i := i + 1;
      if Skipped(aToB, pool.currentTickIndex, tick) {
        continue;
      }
      if s.remaining == 0 {
        break;
      }
      var visited := VisitTick(aToB, pool.feeRate, tick, s);
      if visited.Err? {
        return Err(visited.error);
      }
      s := visited.value;
      if s.remaining == 0 {
        break;
      }
    }

    RestSettles(aToB, pool, ticks, i, s);
    if s.remaining != 0 {
      return Err(Unfilled(s.remaining, amount, s.result.crossTickCount));
    }
    return Ok(s.result.(amountIn := Wrap128(s.result.amountIn + s.result.feeAmount), nextSqrtPrice := s.sqrtPrice));
  }

  /** The body of the loop, once a tick has been drawn. */
  method VisitTick(aToB: bool, feeRate: u64, tick: TickData, s: LoopState) returns (r: Result<LoopState, SwapError>)
    ensures r == Visit(aToB, feeRate, tick, s)
  {
    hide ComputeSwapStep;
    var remaining: u128 := s.remaining;
    var liquidity: u128 := s.liquidity;
    var result := s.result;
    var stepped := ComputeSwapStep(s.sqrtPrice, Target(aToB, tick), liquidity, remaining, feeRate, true);
    if stepped.Err? {
      return Err(stepped.error);
    }
    var step := stepped.value;
    if step.amountIn != 0 {
      var spent := Wrap128(step.amountIn + step.feeAmount);
      if remaining < spent {
        return Err(ConsumedTooMuch);
      }
      remaining := remaining - spent;
    }
    result := result.(amountIn := Wrap128(result.amountIn + step.amountIn));
    result := result.(amountOut := Wrap128(result.amountOut + step.amountOut));
    result := result.(feeAmount := Wrap128(result.feeAmount + step.feeAmount));
    if step.nextSqrtPrice == tick.sqrtPrice {
      liquidity := Crossed(aToB, liquidity, tick.liquidityNet);
    }
    result := result.(crossTickCount := (result.crossTickCount + 1) % TWO32);
    return Ok(LoopState(remaining, liquidity, step.nextSqrtPrice, result));
  }
}

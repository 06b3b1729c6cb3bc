/** Where a swap leaves the pool: price, liquidity, current tick, and the ticks still ahead. */
module SwapPosition {
  import opened Sequences
  import opened CurveBounds
  import opened SwapMath
  import opened SwapStep
  import opened SwapWalk
  import opened SwapTrade
  import opened SwapTheorems

  /** Where a pool stands after a swap: its price, its liquidity and the index of its current tick. */
  datatype Position = Position(price: nat, liquidity: int, index: int)

  /** Going down, the pool ends up below a crossed tick; going up, at it. */
  function IndexBeyond(aToB: bool, tick: TickData): int {
    if aToB then tick.index - 1 else tick.index
  }

  function EndPosition(aToB: bool, feeRate: nat, path: seq<TickData>, p: nat, liquidity: nat, index: int,
                       amount: nat): Position
    requires Sound(aToB, p, liquidity, path) && feeRate < FEE_RATE_DENOMINATOR
    decreases |path|
  {
    if amount == 0 || path == [] then Position(p, liquidity, index)
    else
      assert Sound(aToB, path[0].sqrtPrice, LiquidityBeyond(aToB, liquidity, path[0]), path[1..]);
      hide LegOf, Budget;
      LegSpends(aToB, p, path[0].sqrtPrice, liquidity, amount, feeRate);
      var leg := LegOf(aToB, p, path[0].sqrtPrice, liquidity, amount, feeRate);
      if leg.next == path[0].sqrtPrice then
        EndPosition(aToB, feeRate, path[1..], leg.next, LiquidityBeyond(aToB, liquidity, path[0]),
                    IndexBeyond(aToB, path[0]), amount - leg.amountIn - leg.fee)
      else Position(leg.next, liquidity, index)
  }

  predicate Indexed(ticks: seq<TickData>) {
    forall i, j :: 0 <= i < j < |ticks| ==> ticks[i].index < ticks[j].index
  }

  /** The first `k` ticks are at or below the index, the others above it. */
  predicate SplitsAt(index: int, ticks: seq<TickData>, k: nat) {
    k <= |ticks| && (forall i :: 0 <= i < k ==> ticks[i].index <= index)
    && (forall i :: k <= i < |ticks| ==> ticks[i].index > index)
  }

  lemma PathUpIsSuffix(index: int, ticks: seq<TickData>, k: nat)
    requires SplitsAt(index, ticks, k)
    ensures Path(false, index, ticks) == ticks[k..]
    decreases |ticks|
  {
    if ticks != [] {
      PathUpIsSuffix(index, ticks[1..], if k == 0 then 0 else k - 1);
      assert k > 0 ==> ticks[1..][k - 1..] == ticks[k..];
      assert k == 0 ==> [ticks[0]] + ticks[1..][0..] == ticks[k..];
    }
  }

  lemma PathDownIsPrefix(index: int, ticks: seq<TickData>, k: nat)
    requires SplitsAt(index, ticks, k)
    ensures Path(true, index, ticks) == Reverse(ticks[..k])
    decreases |ticks|
  {
    if ticks != [] {
      var init := ticks[..|ticks| - 1];
      PathDownIsPrefix(index, init, if k == |ticks| then k - 1 else k);
      assert k < |ticks| ==> init[..k] == ticks[..k];
      assert k == |ticks| ==> ticks[..k] == ticks && init[..k - 1] == ticks[..k][..k - 1];
    }
  }

  lemma SplitExists(index: int, ticks: seq<TickData>) returns (k: nat)
    requires Indexed(ticks)
    ensures SplitsAt(index, ticks, k)
  {
    k := 0;
    while k < |ticks| && ticks[k].index <= index
      invariant k <= |ticks| && forall i :: 0 <= i < k ==> ticks[i].index <= index
    {
      k := k + 1;
    }
  }

  /** Crossing the first tick ahead moves it to the head of the way back. */
  lemma CrossingTurnsTick(aToB: bool, index: int, ticks: seq<TickData>)
    requires Indexed(ticks) && Path(aToB, index, ticks) != []
    ensures var path := Path(aToB, index, ticks);
            var beyond := IndexBeyond(aToB, path[0]);
            Path(aToB, beyond, ticks) == path[1..]
            && Path(!aToB, beyond, ticks) == [path[0]] + Path(!aToB, index, ticks)
  {
    hide Path, Reverse;
    var k := SplitExists(index, ticks);
    PathUpIsSuffix(index, ticks, k);
    PathDownIsPrefix(index, ticks, k);
    var k' := if aToB then k - 1 else k + 1;
    var last := if aToB then k - 1 else k;
    assert 0 <= last < |ticks|;
    assert ticks[..last + 1] == ticks[..last] + [ticks[last]];
    ReversePush(ticks[..last], ticks[last]);
    var beyond := IndexBeyond(aToB, Path(aToB, index, ticks)[0]);
    assert SplitsAt(beyond, ticks, k');
    PathUpIsSuffix(beyond, ticks, k');
    PathDownIsPrefix(beyond, ticks, k');
  }

  /** What lies ahead once `amount` has been traded along `path`. */
  function PathLeft(aToB: bool, feeRate: nat, path: seq<TickData>, p: nat, liquidity: nat, amount: nat): seq<TickData>
    requires Sound(aToB, p, liquidity, path) && feeRate < FEE_RATE_DENOMINATOR
    decreases |path|
  {
    if amount == 0 || path == [] then path
    else
      assert Sound(aToB, path[0].sqrtPrice, LiquidityBeyond(aToB, liquidity, path[0]), path[1..]);
      hide LegOf, Budget;
      LegSpends(aToB, p, path[0].sqrtPrice, liquidity, amount, feeRate);
      var leg := LegOf(aToB, p, path[0].sqrtPrice, liquidity, amount, feeRate);
      if leg.next == path[0].sqrtPrice then
        PathLeft(aToB, feeRate, path[1..], leg.next, LiquidityBeyond(aToB, liquidity, path[0]),
                 amount - leg.amountIn - leg.fee)
      else path
  }

  /** The ticks ahead of the pool a trade leaves behind are those the trade has not crossed, and the pool is sound
      for going on. */
  lemma OnwardFromEnd(aToB: bool, feeRate: nat, ticks: seq<TickData>, index: int, p: nat, liquidity: nat, amount: nat)
    requires feeRate < FEE_RATE_DENOMINATOR && Indexed(ticks) && Sound(aToB, p, liquidity, Path(aToB, index, ticks))
    ensures var path := Path(aToB, index, ticks);
            var end := EndPosition(aToB, feeRate, path, p, liquidity, index, amount);
            var left := PathLeft(aToB, feeRate, path, p, liquidity, amount);
            && Path(aToB, end.index, ticks) == left && end.price >= 0 && end.liquidity >= 0
            && Sound(aToB, end.price, end.liquidity, left)
    decreases |Path(aToB, index, ticks)|
  {
    hide LegOf, Budget, Path, Indexed, InputFor, RangeFee, Covers, Affordable;
    var path := Path(aToB, index, ticks);
    if amount != 0 && path != [] {
      var t := path[0].sqrtPrice;
      var leg := LegOf(aToB, p, t, liquidity, amount, feeRate);
      LegGuarantees(aToB, p, t, liquidity, amount, feeRate);
      LegSpends(aToB, p, t, liquidity, amount, feeRate);
      if leg.next == t {
        CrossingTurnsTick(aToB, index, ticks);
        assert Sound(aToB, t, LiquidityBeyond(aToB, liquidity, path[0]), path[1..]);
        OnwardFromEnd(aToB, feeRate, ticks, IndexBeyond(aToB, path[0]), t, LiquidityBeyond(aToB, liquidity, path[0]),
                      amount - leg.amountIn - leg.fee);
      }
    }
  }

  /** The price a trade ends at is where it leaves the pool. */
  lemma EndIsTrade(aToB: bool, feeRate: nat, path: seq<TickData>, p: nat, liquidity: nat, index: int, amount: nat)
    requires Sound(aToB, p, liquidity, path) && feeRate < FEE_RATE_DENOMINATOR
    requires Trading(aToB, feeRate, path, p, liquidity, amount).Fills?
    ensures EndPosition(aToB, feeRate, path, p, liquidity, index, amount).price
            == Trading(aToB, feeRate, path, p, liquidity, amount).price
    decreases |path|
  {
    hide LegOf, Budget;
    if amount != 0 && path != [] {
      var t := path[0].sqrtPrice;
      LegSpends(aToB, p, t, liquidity, amount, feeRate);
      var leg := LegOf(aToB, p, t, liquidity, amount, feeRate);
      if leg.next == t {
        assert Sound(aToB, t, LiquidityBeyond(aToB, liquidity, path[0]), path[1..]);
        EndIsTrade(aToB, feeRate, path[1..], t, LiquidityBeyond(aToB, liquidity, path[0]), IndexBeyond(aToB, path[0]),
                   amount - leg.amountIn - leg.fee);
      }
    }
  }

  /** The pool a filled swap leaves behind, sound for going on in the same direction. */
  function PoolAfter(aToB: bool, amount: u128, pool: PoolState, ticks: seq<TickData>): (after: PoolState)
    requires WellFormed(aToB, pool, ticks) && Swap(aToB, amount, pool, ticks).Ok?
    ensures after.feeRate == pool.feeRate
            && after.currentSqrtPrice == Swap(aToB, amount, pool, ticks).value.nextSqrtPrice
    ensures Sound(aToB, after.currentSqrtPrice, after.liquidity, Path(aToB, after.currentTickIndex, ticks))
  {
    hide Swap, Trading, EndPosition, PathLeft;
    WellFormedIsSound(aToB, pool, ticks);
    SwapIsExact(aToB, amount, pool, ticks);
    var path := Path(aToB, pool.currentTickIndex, ticks);
    EndIsTrade(aToB, pool.feeRate, path, pool.currentSqrtPrice, pool.liquidity, pool.currentTickIndex, amount);
    OnwardFromEnd(aToB, pool.feeRate, ticks, pool.currentTickIndex, pool.currentSqrtPrice, pool.liquidity, amount);
    var end := EndPosition(aToB, pool.feeRate, path, pool.currentSqrtPrice, pool.liquidity, pool.currentTickIndex,
                           amount);
    PoolState(end.price, end.index, end.liquidity, pool.feeRate)
  }
}

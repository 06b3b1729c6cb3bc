/** Splitting an input over two successive swaps in one direction never pays: one swap of the sum yields at least
    as much. */
module SwapSplit {
  import opened Rounding
  import opened Widths
  import opened CurveBounds
  import opened SwapMath
  import opened SwapStep
  import opened SwapWalk
  import opened SwapTrade
  import opened SwapTheorems
  import opened SwapGuarantees
  import opened SwapPosition

  // ---------------------------------------------------------------- consecutive moves cost no less together

  /** Products kept abstract where several of them meet. */
  function Times(x: nat, y: nat): nat {
    x * y
  }

  lemma CoversDown(p: nat, n: nat, liquidity: nat, amount: nat, S: nat)
    requires n <= p
    ensures Covers(true, p, n, liquidity, amount, S) <==> Times(liquidity * S, p - n) <= Times(amount, Times(p, n))
  {
    assert liquidity * (p - n) * S == liquidity * S * (p - n);
  }

  /** Inputs that cover consecutive moves together cover the whole move. */
  lemma CoversCompose(aToB: bool, p: nat, m: nat, n: nat, liquidity: nat, first: nat, second: nat, S: nat)
    requires p > 0 && m > 0 && n > 0 && Onward(aToB, p, m) && Onward(aToB, m, n)
    requires Covers(aToB, p, m, liquidity, first, S) && Covers(aToB, m, n, liquidity, second, S)
    ensures Covers(aToB, p, n, liquidity, first + second, S)
  {
    if aToB {
      hide Covers, Times;
      CoversDown(p, m, liquidity, first, S);
      CoversDown(m, n, liquidity, second, S);
      CoversDown(p, n, liquidity, first + second, S);
      DownCompose(p, m, n, liquidity * S, first, second);
    } else {
      Distribute(liquidity, m - p, n - m);
      Distribute(S, first, second);
    }
  }

  lemma DownCompose(p: nat, m: nat, n: nat, X: nat, first: nat, second: nat)
    requires n <= m <= p && m > 0
    requires Times(X, p - m) <= Times(first, Times(p, m)) && Times(X, m - n) <= Times(second, Times(m, n))
    ensures Times(X, p - n) <= Times(first + second, Times(p, n))
  {
    hide Times;
    GapTimesMiddle(p, m, n, X);
    CoverTimesMiddle(p, m, n, first, second);
    CancelMiddle(Times(X, p - m), Times(first, Times(p, m)), n, Times(X, m - n), Times(second, Times(m, n)), p,
                 Times(X, p - n), Times(first + second, Times(p, n)), m);
  }

  lemma CancelMiddle(x: nat, a: nat, n: nat, y: nat, b: nat, p: nat, z: nat, c: nat, m: nat)
    requires x <= a && y <= b && m > 0 && Times(x, n) + Times(y, p) == Times(z, m)
             && Times(a, n) + Times(b, p) == Times(c, m)
    ensures z <= c
  {
    MulMono(x, a, n);
    MulMono(y, b, p);
    MulCancel(z, c, m);
  }

  lemma GapTimesMiddle(p: nat, m: nat, n: nat, X: nat)
    requires n <= m <= p
    ensures Times(Times(X, p - m), n) + Times(Times(X, m - n), p) == Times(Times(X, p - n), m)
  {
    assert (p - m) * n + (m - n) * p == (p - n) * m;
    Distribute(X, (p - m) * n, (m - n) * p);
    Reassociate(X, p - m, n);
    Reassociate(X, m - n, p);
    Reassociate(X, p - n, m);
  }

  lemma CoverTimesMiddle(p: nat, m: nat, n: nat, first: nat, second: nat)
    ensures Times(Times(first, Times(p, m)), n) + Times(Times(second, Times(m, n)), p)
            == Times(Times(first + second, Times(p, n)), m)
  {
    var k := p * n * m;
    assert first * (p * m) * n == first * k;
    assert second * (m * n) * p == second * k;
    Distribute(k, first, second);
    assert (first + second) * (p * n) * m == (first + second) * k;
  }

  lemma BudgetsAdd(x: nat, y: nat, feeRate: nat)
    requires feeRate < FEE_RATE_DENOMINATOR
    ensures Budget(x, feeRate) + Budget(y, feeRate) <= Budget(x + y, feeRate)
  {
    hide Floor;
    var keep := FEE_RATE_DENOMINATOR - feeRate;
    Distribute(keep, x, y);
    FloorsAdd(x * keep, y * keep, FEE_RATE_DENOMINATOR);
  }

  lemma FloorsAdd(x: nat, y: nat, d: nat)
    requires d > 0
    ensures Floor(x, d) + Floor(y, d) <= Floor(x + y, d)
  {
    hide Floor;
    FloorGalois(x, d, Floor(x, d));
    FloorGalois(y, d, Floor(y, d));
    Distribute(d, Floor(x, d), Floor(y, d));
    FloorGalois(x + y, d, Floor(x, d) + Floor(y, d));
  }

  /** Stopping inside a range and going on from there costs at least as much as crossing it at once. */
  lemma StoppingCostsMore(aToB: bool, p: nat, n: nat, t: nat, liquidity: nat, x: nat, feeRate: nat)
    requires StepInputs(aToB, p, t, liquidity, feeRate) && InRange(n) && Onward(aToB, p, n) && Onward(aToB, n, t)
    requires Covers(aToB, p, n, liquidity, Budget(x, feeRate), TWO64)
    ensures RangeCost(aToB, p, t, liquidity, feeRate) <= x + RangeCost(aToB, n, t, liquidity, feeRate)
  {
    hide Covers, InputFor, RangeFee, Budget;
    var rest := InputFor(aToB, n, t, liquidity, TWO64);
    var y := rest + RangeFee(rest, feeRate);
    InputIsLeast(aToB, n, t, liquidity, rest, TWO64);
    CoversCompose(aToB, p, n, t, liquidity, Budget(x, feeRate), rest, TWO64);
    InputIsLeast(aToB, p, t, liquidity, Budget(x, feeRate) + rest, TWO64);
    BudgetIsGross(rest, y, feeRate);
    BudgetsAdd(x, y, feeRate);
    BudgetIsGross(InputFor(aToB, p, t, liquidity, TWO64), x + y, feeRate);
  }

  // ---------------------------------------------------------------- inside one range

  /** What a second leg, starting where the first one stopped inside the range, can add is within reach of one
      leg with both amounts. */
  lemma LegsJoin(aToB: bool, p: nat, t: nat, liquidity: nat, x: nat, y: nat, feeRate: nat)
    requires StepInputs(aToB, p, t, liquidity, feeRate)
    requires LegOf(aToB, p, t, liquidity, x, feeRate).next != t
    ensures var first := LegOf(aToB, p, t, liquidity, x, feeRate);
            && StepInputs(aToB, first.next, t, liquidity, feeRate)
            && var second := LegOf(aToB, first.next, t, liquidity, y, feeRate);
               var whole := LegOf(aToB, p, t, liquidity, x + y, feeRate);
            && first.amountOut + second.amountOut <= whole.amountOut
            && Onward(aToB, second.next, whole.next)
            && (second.next == t ==> whole.next == t && whole.amountIn + whole.fee <= x + second.amountIn + second.fee)
  {
    hide LegOf, InputFor, OutputFor, Covers, Affordable, RangeFee, Budget, PriceAfterInput;
    var first := LegOf(aToB, p, t, liquidity, x, feeRate);
    LegGuarantees(aToB, p, t, liquidity, x, feeRate);
    PartialLeg(aToB, p, t, liquidity, x, feeRate);
    var n := first.next;
    var second := LegOf(aToB, n, t, liquidity, y, feeRate);
    var whole := LegOf(aToB, p, t, liquidity, x + y, feeRate);
    LegGuarantees(aToB, n, t, liquidity, y, feeRate);
    LegGuarantees(aToB, p, t, liquidity, x + y, feeRate);
    FullLeg(aToB, n, t, liquidity, y, feeRate);
    FullLeg(aToB, p, t, liquidity, x + y, feeRate);
    StoppingCostsMore(aToB, p, n, t, liquidity, x, feeRate);
    if whole.next != t {
      PartialLegsReach(aToB, p, t, liquidity, x, y, feeRate);
    }
    MovesCompose(aToB, p, n, second.next, liquidity, liquidity, first.amountOut, second.amountOut, TWO64);
    LongerMoveAffords(aToB, p, second.next, whole.next, liquidity, first.amountOut + second.amountOut, TWO64);
    LegPaysMost(aToB, p, t, liquidity, x + y, feeRate);
    OutputIsGreatest(aToB, p, whole.next, liquidity, first.amountOut + second.amountOut, TWO64);
  }

  /** If even both amounts together stop inside the range, they stop no earlier than one after the other. */
  lemma PartialLegsReach(aToB: bool, p: nat, t: nat, liquidity: nat, x: nat, y: nat, feeRate: nat)
    requires StepInputs(aToB, p, t, liquidity, feeRate)
    requires var n := LegOf(aToB, p, t, liquidity, x, feeRate).next;
             n != t && InRange(n) && Onward(aToB, p, n) && Onward(aToB, n, t)
             && LegOf(aToB, n, t, liquidity, y, feeRate).next != t
    requires LegOf(aToB, p, t, liquidity, x + y, feeRate).next != t
    ensures var n := LegOf(aToB, p, t, liquidity, x, feeRate).next;
            Onward(aToB, LegOf(aToB, n, t, liquidity, y, feeRate).next,
                   LegOf(aToB, p, t, liquidity, x + y, feeRate).next)
  {
    hide LegOf, InputFor, OutputFor, Covers, Affordable, RangeFee, Budget, PriceAfterInput;
    var n := LegOf(aToB, p, t, liquidity, x, feeRate).next;
    var m := LegOf(aToB, n, t, liquidity, y, feeRate).next;
    LegGuarantees(aToB, p, t, liquidity, x, feeRate);
    LegGuarantees(aToB, n, t, liquidity, y, feeRate);
    PartialLeg(aToB, p, t, liquidity, x, feeRate);
    PartialLeg(aToB, n, t, liquidity, y, feeRate);
    PartialLeg(aToB, p, t, liquidity, x + y, feeRate);
    CoversCompose(aToB, p, n, m, liquidity, Budget(x, feeRate), Budget(y, feeRate), TWO64);
    BudgetsAdd(x, y, feeRate);
    CoverMore(aToB, p, m, liquidity, Budget(x, feeRate) + Budget(y, feeRate), Budget(x + y, feeRate));
    FarthestCovered(aToB, p, m, liquidity, Budget(x + y, feeRate), TWO64);
  }

  // ---------------------------------------------------------------- across ranges

  /** One trade of the sum against two trades, the second from where the first one stopped. */
  predicate NoWorse(aToB: bool, first: Trade, second: Trade, whole: Trade) {
    first.Fills? && second.Fills? && whole.Fills? ==>
      first.amountOut + second.amountOut <= whole.amountOut && Onward(aToB, second.price, whole.price)
  }

  /** The first trade stops inside the first range. */
  lemma SplitInside(aToB: bool, feeRate: nat, path: seq<TickData>, p: nat, liquidity: nat, x: nat, y: nat)
    requires Sound(aToB, p, liquidity, path) && feeRate < FEE_RATE_DENOMINATOR && path != [] && x > 0
    requires LegOf(aToB, p, path[0].sqrtPrice, liquidity, x, feeRate).next != path[0].sqrtPrice
    ensures var n := LegOf(aToB, p, path[0].sqrtPrice, liquidity, x, feeRate).next;
            && Sound(aToB, n, liquidity, path)
            && NoWorse(aToB, Trading(aToB, feeRate, path, p, liquidity, x),
                       Trading(aToB, feeRate, path, n, liquidity, y),
                       Trading(aToB, feeRate, path, p, liquidity, x + y))
  {
    hide LegOf, Covers, Affordable, InputFor, RangeFee, NoBetterThan, Budget;
    var t := path[0].sqrtPrice;
    var first := LegOf(aToB, p, t, liquidity, x, feeRate);
    LegGuarantees(aToB, p, t, liquidity, x, feeRate);
    LegsJoin(aToB, p, t, liquidity, x, y, feeRate);
    var n := first.next;
    assert Sound(aToB, n, liquidity, path);
    var beyond := LiquidityBeyond(aToB, liquidity, path[0]);
    assert Sound(aToB, t, beyond, path[1..]);
    var second := LegOf(aToB, n, t, liquidity, y, feeRate);
    var whole := LegOf(aToB, p, t, liquidity, x + y, feeRate);
    LegSpends(aToB, n, t, liquidity, y, feeRate);
    LegSpends(aToB, p, t, liquidity, x + y, feeRate);
    if y != 0 {
      if second.next == t {
        TradingMonotone(aToB, feeRate, path[1..], t, beyond, y - second.amountIn - second.fee,
                        x + y - whole.amountIn - whole.fee);
      } else if whole.next == t {
        TradingNeverBeats(aToB, feeRate, path[1..], t, beyond, x + y - whole.amountIn - whole.fee);
      }
    }
  }

  /** However many ticks either trade crosses. */
  lemma {:induction false} TradingSplits(aToB: bool, feeRate: nat, ticks: seq<TickData>, index: int, p: nat,
                                         liquidity: nat, x: nat, y: nat)
    requires feeRate < FEE_RATE_DENOMINATOR && Indexed(ticks) && Sound(aToB, p, liquidity, Path(aToB, index, ticks))
    ensures var path := Path(aToB, index, ticks);
            var end := EndPosition(aToB, feeRate, path, p, liquidity, index, x);
            && end.price >= 0 && end.liquidity >= 0
            && Sound(aToB, end.price, end.liquidity, Path(aToB, end.index, ticks))
            && NoWorse(aToB, Trading(aToB, feeRate, path, p, liquidity, x),
                       Trading(aToB, feeRate, Path(aToB, end.index, ticks), end.price, end.liquidity, y),
                       Trading(aToB, feeRate, path, p, liquidity, x + y))
    decreases |Path(aToB, index, ticks)|
  {
    hide LegOf, Covers, Affordable, InputFor, RangeFee, NoBetterThan, Budget, Path, Indexed;
    OnwardFromEnd(aToB, feeRate, ticks, index, p, liquidity, x);
    var path := Path(aToB, index, ticks);
    if x != 0 && path != [] {
      var t := path[0].sqrtPrice;
      var leg := LegOf(aToB, p, t, liquidity, x, feeRate);
      LegGuarantees(aToB, p, t, liquidity, x, feeRate);
      LegSpends(aToB, p, t, liquidity, x, feeRate);
      if leg.next == t {
        CrossingTurnsTick(aToB, index, ticks);
        var beyond := LiquidityBeyond(aToB, liquidity, path[0]);
        assert Sound(aToB, t, beyond, path[1..]);
        LegGuarantees(aToB, p, t, liquidity, x + y, feeRate);
        FullLegsAgree(aToB, p, t, liquidity, x, x + y, feeRate);
        TradingSplits(aToB, feeRate, ticks, IndexBeyond(aToB, path[0]), t, beyond, x - leg.amountIn - leg.fee, y);
      } else {
        SplitInside(aToB, feeRate, path, p, liquidity, x, y);
      }
    }
  }

  /** On one pool and in one direction: if two successive swaps fill, and one swap of the sum fills, the one swap
      yields at least as much output and moves the price at least as far. */
  lemma SplittingNeverPays(aToB: bool, x: u128, y: u128, pool: PoolState, ticks: seq<TickData>)
    requires WellFormed(aToB, pool, ticks) && x + y < TWO128
    ensures var first := Swap(aToB, x, pool, ticks);
            first.Ok? ==>
              var second := Swap(aToB, y, PoolAfter(aToB, x, pool, ticks), ticks);
              var whole := Swap(aToB, x + y, pool, ticks);
              second.Ok? && whole.Ok? ==>
                first.value.amountOut + second.value.amountOut <= whole.value.amountOut
                && Onward(aToB, second.value.nextSqrtPrice, whole.value.nextSqrtPrice)
  {
    hide Swap, Trading, EndPosition;
    WellFormedIsSound(aToB, pool, ticks);
    SwapIsExact(aToB, x, pool, ticks);
    SwapIsExact(aToB, x + y, pool, ticks);
    var first := Swap(aToB, x, pool, ticks);
    if first.Ok? {
      TradingSplits(aToB, pool.feeRate, ticks, pool.currentTickIndex, pool.currentSqrtPrice, pool.liquidity, x, y);
      SwapIsTrading(aToB, y, PoolAfter(aToB, x, pool, ticks), ticks);
    }
  }
}

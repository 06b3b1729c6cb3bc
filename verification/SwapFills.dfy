/** Exactly which amounts compute_swap fills, and the dust it can never spend. */
module SwapFills {
  import opened Wrappers
  import opened Widths
  import opened Rounding
  import opened CurveBounds
  import opened SwapMath
  import opened SwapStep
  import opened SwapWalk
  import opened SwapTrade
  import opened SwapTheorems
  import opened SwapGuarantees

  /** The gross cost of walking the first `k` ranges of the path. */
  function CostOfFirst(aToB: bool, feeRate: nat, path: seq<TickData>, p: nat, liquidity: nat, k: nat): nat
    requires Sound(aToB, p, liquidity, path) && feeRate < FEE_RATE_DENOMINATOR && k <= |path|
    decreases |path|
  {
    if k == 0 then 0
    else
      assert Sound(aToB, path[0].sqrtPrice, LiquidityBeyond(aToB, liquidity, path[0]), path[1..]);
      RangeCost(aToB, p, path[0].sqrtPrice, liquidity, feeRate)
      + CostOfFirst(aToB, feeRate, path[1..], path[0].sqrtPrice, LiquidityBeyond(aToB, liquidity, path[0]), k - 1)
  }

  /** The fee leaves something of this amount to spend. */
  predicate Spendable(amount: int, feeRate: nat) {
    amount * (FEE_RATE_DENOMINATOR - feeRate) >= FEE_RATE_DENOMINATOR
  }

  /** The amount runs out in range `k`: exactly at its end, or inside it with a spendable rest. */
  predicate EndsInRange(aToB: bool, feeRate: nat, path: seq<TickData>, p: nat, liquidity: nat, amount: nat, k: nat)
    requires Sound(aToB, p, liquidity, path) && feeRate < FEE_RATE_DENOMINATOR
  {
    k < |path|
    && CostOfFirst(aToB, feeRate, path, p, liquidity, k) < amount
       <= CostOfFirst(aToB, feeRate, path, p, liquidity, k + 1)
    && (amount == CostOfFirst(aToB, feeRate, path, p, liquidity, k + 1)
        || Spendable(amount - CostOfFirst(aToB, feeRate, path, p, liquidity, k), feeRate))
  }

  lemma CostUnfolds(aToB: bool, feeRate: nat, path: seq<TickData>, p: nat, liquidity: nat, k: nat)
    requires Sound(aToB, p, liquidity, path) && feeRate < FEE_RATE_DENOMINATOR && k < |path|
    ensures LiquidityBeyond(aToB, liquidity, path[0]) >= 0
    ensures Sound(aToB, path[0].sqrtPrice, LiquidityBeyond(aToB, liquidity, path[0]), path[1..])
    ensures CostOfFirst(aToB, feeRate, path, p, liquidity, k + 1) ==
            RangeCost(aToB, p, path[0].sqrtPrice, liquidity, feeRate)
            + CostOfFirst(aToB, feeRate, path[1..], path[0].sqrtPrice, LiquidityBeyond(aToB, liquidity, path[0]), k)
  {
    assert Sound(aToB, path[0].sqrtPrice, LiquidityBeyond(aToB, liquidity, path[0]), path[1..]);
  }

  /** Ending in range k+1 of a path is ending in range k of its tail with what the first range leaves. */
  lemma EndShifts(aToB: bool, feeRate: nat, path: seq<TickData>, p: nat, liquidity: nat, amount: nat, k: nat)
    requires Sound(aToB, p, liquidity, path) && feeRate < FEE_RATE_DENOMINATOR && path != []
    requires amount >= RangeCost(aToB, p, path[0].sqrtPrice, liquidity, feeRate)
    ensures LiquidityBeyond(aToB, liquidity, path[0]) >= 0
    ensures Sound(aToB, path[0].sqrtPrice, LiquidityBeyond(aToB, liquidity, path[0]), path[1..])
    ensures EndsInRange(aToB, feeRate, path, p, liquidity, amount, k + 1) <==>
            EndsInRange(aToB, feeRate, path[1..], path[0].sqrtPrice, LiquidityBeyond(aToB, liquidity, path[0]),
                        amount - RangeCost(aToB, p, path[0].sqrtPrice, liquidity, feeRate), k)
  {
    hide RangeCost, Spendable, CostOfFirst;
    CostUnfolds(aToB, feeRate, path, p, liquidity, 0);
    if k + 1 < |path| {
      CostUnfolds(aToB, feeRate, path, p, liquidity, k);
      CostUnfolds(aToB, feeRate, path, p, liquidity, k + 1);
    }
  }

  lemma FirstRange(aToB: bool, feeRate: nat, path: seq<TickData>, p: nat, liquidity: nat)
    requires Sound(aToB, p, liquidity, path) && feeRate < FEE_RATE_DENOMINATOR && path != []
    ensures CostOfFirst(aToB, feeRate, path, p, liquidity, 0) == 0
    ensures CostOfFirst(aToB, feeRate, path, p, liquidity, 1)
            == RangeCost(aToB, p, path[0].sqrtPrice, liquidity, feeRate)
  {
    CostUnfolds(aToB, feeRate, path, p, liquidity, 0);
  }

  lemma BudgetIsSpendable(amount: nat, feeRate: nat)
    requires feeRate < FEE_RATE_DENOMINATOR
    ensures Budget(amount, feeRate) > 0 <==> Spendable(amount, feeRate)
  {
    FloorGalois(amount * (FEE_RATE_DENOMINATOR - feeRate), FEE_RATE_DENOMINATOR, 1);
  }

  lemma TradingFillsIff(aToB: bool, feeRate: nat, path: seq<TickData>, p: nat, liquidity: nat, amount: nat)
    requires Sound(aToB, p, liquidity, path) && feeRate < FEE_RATE_DENOMINATOR
    ensures Trading(aToB, feeRate, path, p, liquidity, amount).Fills?
            <==> amount == 0 || exists k: nat :: EndsInRange(aToB, feeRate, path, p, liquidity, amount, k)
    decreases |path|
  {
    hide LegOf, RangeCost, Spendable, CostOfFirst, InputFor, RangeFee;
    if amount != 0 && path != [] {
      var t := path[0].sqrtPrice;
      var cost := RangeCost(aToB, p, t, liquidity, feeRate);
      var leg := LegOf(aToB, p, t, liquidity, amount, feeRate);
      LegIsCost(aToB, p, t, liquidity, amount, feeRate);
      FirstRange(aToB, feeRate, path, p, liquidity);
      CostUnfolds(aToB, feeRate, path, p, liquidity, 0);
      var beyond := LiquidityBeyond(aToB, liquidity, path[0]);
      if cost <= amount {
        TradingFillsIff(aToB, feeRate, path[1..], t, beyond, amount - cost);
        FullRangeEnds(aToB, feeRate, path, p, liquidity, amount);
      } else {
        BudgetIsSpendable(amount, feeRate);
        PartialRangeEnds(aToB, feeRate, path, p, liquidity, amount);
      }
    }
  }

  lemma FullRangeEnds(aToB: bool, feeRate: nat, path: seq<TickData>, p: nat, liquidity: nat, amount: nat)
    requires Sound(aToB, p, liquidity, path) && feeRate < FEE_RATE_DENOMINATOR && path != [] && amount != 0
    requires RangeCost(aToB, p, path[0].sqrtPrice, liquidity, feeRate) <= amount
    ensures LiquidityBeyond(aToB, liquidity, path[0]) >= 0
    ensures Sound(aToB, path[0].sqrtPrice, LiquidityBeyond(aToB, liquidity, path[0]), path[1..])
    ensures var cost := RangeCost(aToB, p, path[0].sqrtPrice, liquidity, feeRate);
            var beyond := LiquidityBeyond(aToB, liquidity, path[0]);
            var left := amount - cost;
            (exists k: nat :: EndsInRange(aToB, feeRate, path, p, liquidity, amount, k))
            <==> left == 0 || exists k: nat :: EndsInRange(aToB, feeRate, path[1..], path[0].sqrtPrice, beyond, left, k)
  {
    hide RangeCost, Spendable, CostOfFirst;
    var t := path[0].sqrtPrice;
    var cost := RangeCost(aToB, p, t, liquidity, feeRate);
    CostUnfolds(aToB, feeRate, path, p, liquidity, 0);
    FirstRange(aToB, feeRate, path, p, liquidity);
    var beyond := LiquidityBeyond(aToB, liquidity, path[0]);
    var left := amount - cost;
    assert EndsInRange(aToB, feeRate, path, p, liquidity, amount, 0) <==> left == 0;
    if k: nat :| EndsInRange(aToB, feeRate, path, p, liquidity, amount, k) {
      if k > 0 { EndShifts(aToB, feeRate, path, p, liquidity, amount, k - 1); }
    }
    if k: nat :| EndsInRange(aToB, feeRate, path[1..], t, beyond, left, k) {
      EndShifts(aToB, feeRate, path, p, liquidity, amount, k);
    }
  }

  lemma CostsGrow(aToB: bool, feeRate: nat, path: seq<TickData>, p: nat, liquidity: nat, k: nat)
    requires Sound(aToB, p, liquidity, path) && feeRate < FEE_RATE_DENOMINATOR && 0 < k <= |path|
    ensures CostOfFirst(aToB, feeRate, path, p, liquidity, k)
            >= RangeCost(aToB, p, path[0].sqrtPrice, liquidity, feeRate)
  {
    hide RangeCost;
    CostUnfolds(aToB, feeRate, path, p, liquidity, k - 1);
  }

  lemma PartialRangeEnds(aToB: bool, feeRate: nat, path: seq<TickData>, p: nat, liquidity: nat, amount: nat)
    requires Sound(aToB, p, liquidity, path) && feeRate < FEE_RATE_DENOMINATOR && path != [] && amount != 0
    requires amount < RangeCost(aToB, p, path[0].sqrtPrice, liquidity, feeRate)
    ensures (exists k: nat :: EndsInRange(aToB, feeRate, path, p, liquidity, amount, k)) <==> Spendable(amount, feeRate)
  {
    hide RangeCost, Spendable, CostOfFirst;
    FirstRange(aToB, feeRate, path, p, liquidity);
    assert EndsInRange(aToB, feeRate, path, p, liquidity, amount, 0) <==> Spendable(amount, feeRate);
    if k: nat :| EndsInRange(aToB, feeRate, path, p, liquidity, amount, k) {
      if k > 0 { CostsGrow(aToB, feeRate, path, p, liquidity, k); }
    }
  }

  lemma LegIsCost(aToB: bool, p: nat, t: nat, liquidity: nat, amount: nat, feeRate: nat)
    requires StepInputs(aToB, p, t, liquidity, feeRate)
    ensures var leg := LegOf(aToB, p, t, liquidity, amount, feeRate);
            var cost := RangeCost(aToB, p, t, liquidity, feeRate);
            && (leg.next == t <==> cost <= amount)
            && (leg.next == t ==> leg.amountIn + leg.fee == cost)
            && (leg.next != t ==> leg.amountIn == Budget(amount, feeRate) && leg.amountIn + leg.fee == amount)
  {
    hide LegOf, InputFor, RangeFee, Budget, OutputFor;
    FullLeg(aToB, p, t, liquidity, amount, feeRate);
    PartialLegSpendsAll(aToB, p, t, liquidity, amount, feeRate);
  }

  /** A swap succeeds exactly when the amount is zero, or runs out in some range at its very end or with a
      rest the fee does not swallow. All of it can be computed from the range costs before calling. */
  lemma SwapFillsIff(aToB: bool, amount: u128, pool: PoolState, ticks: seq<TickData>)
    requires WellFormed(aToB, pool, ticks)
    ensures Sound(aToB, pool.currentSqrtPrice, pool.liquidity, Path(aToB, pool.currentTickIndex, ticks))
    ensures Swap(aToB, amount, pool, ticks).Ok? <==>
            amount == 0
            || exists k: nat :: EndsInRange(aToB, pool.feeRate, Path(aToB, pool.currentTickIndex, ticks),
                                            pool.currentSqrtPrice, pool.liquidity, amount, k)
  {
    hide Swap, Trading, EndsInRange;
    SwapIsExact(aToB, amount, pool, ticks);
    WellFormedIsSound(aToB, pool, ticks);
    TradingFillsIff(aToB, pool.feeRate, Path(aToB, pool.currentTickIndex, ticks), pool.currentSqrtPrice, pool.liquidity,
                    amount);
  }

  // ---------------------------------------------------------------- how many ticks are visited

  /** The 32-bit counter after `k` more ticks. */
  function Counted(n: nat, k: nat): nat {
    (n + k) % TWO32
  }

  lemma VisitCounts(aToB: bool, feeRate: u64, tick: TickData, s: LoopState)
    ensures var visit := Visit(aToB, feeRate, tick, s);
            visit.Ok? ==> visit.value.result.crossTickCount == Counted(s.result.crossTickCount, 1)
  {
    hide ComputeSwapStep, Wrap128;
  }

  /** What a visit does when the amount covers the whole range. */
  lemma LandingVisit(aToB: bool, feeRate: u64, tick: TickData, s: LoopState)
    requires StepInputs(aToB, s.sqrtPrice, tick.sqrtPrice, s.liquidity, feeRate)
    ensures var visit := Visit(aToB, feeRate, tick, s);
            var cost := RangeCost(aToB, s.sqrtPrice, tick.sqrtPrice, s.liquidity, feeRate);
            && visit.Ok? && visit.value.result.crossTickCount == Counted(s.result.crossTickCount, 1)
            && (visit.value.sqrtPrice == tick.sqrtPrice <==> cost <= s.remaining)
            && (visit.value.sqrtPrice == tick.sqrtPrice ==>
                  visit.value.remaining == s.remaining - cost
                  && visit.value.liquidity == Crossed(aToB, s.liquidity, tick.liquidityNet))
            && var leg := LegOf(aToB, s.sqrtPrice, tick.sqrtPrice, s.liquidity, s.remaining, feeRate);
               visit.value.sqrtPrice != tick.sqrtPrice ==>
                 visit.value.remaining == 0 || (leg.next != tick.sqrtPrice && leg.amountIn == 0)
  {
    hide Visit, LegOf, Crossed, RangeCost, Budget;
    VisitCounts(aToB, feeRate, tick, s);
    VisitIsLeg(aToB, feeRate, tick, s);
    LegIsCost(aToB, s.sqrtPrice, tick.sqrtPrice, s.liquidity, s.remaining, feeRate);
    FreeLegHasNoFee(aToB, s.sqrtPrice, tick.sqrtPrice, s.liquidity, s.remaining, feeRate);
  }

  /** The first `k` ranges cover the amount and fewer do not. */
  predicate LeastCovering(aToB: bool, feeRate: nat, path: seq<TickData>, p: nat, liquidity: nat, amount: nat, k: nat)
    requires Sound(aToB, p, liquidity, path) && feeRate < FEE_RATE_DENOMINATOR
  {
    k <= |path| && amount <= CostOfFirst(aToB, feeRate, path, p, liquidity, k)
    && forall j: nat :: j < k ==> CostOfFirst(aToB, feeRate, path, p, liquidity, j) < amount
  }

  /** After `k` whole ranges there is no range left, or a rest that the fee swallows and the next range does not fit. */
  predicate RunsOut(aToB: bool, feeRate: nat, path: seq<TickData>, p: nat, liquidity: nat, amount: nat, k: nat)
    requires Sound(aToB, p, liquidity, path) && feeRate < FEE_RATE_DENOMINATOR
  {
    k <= |path| && CostOfFirst(aToB, feeRate, path, p, liquidity, k) < amount
    && (k < |path| ==>
          && !Spendable(amount - CostOfFirst(aToB, feeRate, path, p, liquidity, k), feeRate)
          && amount < CostOfFirst(aToB, feeRate, path, p, liquidity, k + 1))
  }

  lemma CountsAdd(n: nat, k: nat)
    ensures Counted(Counted(n, 1), k) == Counted(n, k + 1) < TWO32
    ensures n < TWO32 ==> Counted(n, 0) == n
  {
  }

  lemma StuckCounts(aToB: bool, feeRate: u64, path: seq<TickData>, s: LoopState)
    requires feeRate < FEE_RATE_DENOMINATOR && s.remaining > 0 && Budget(s.remaining, feeRate) == 0
    requires InRange(s.sqrtPrice) && Bearable(s.liquidity) && s.liquidity > 0 && Beyond(aToB, s.sqrtPrice, path)
    requires s.result.crossTickCount < TWO32
    ensures var walk := Walk(aToB, feeRate, path, s);
            walk.Ok? && walk.value.result.crossTickCount == Counted(s.result.crossTickCount, |path|)
    decreases |path|
  {
    hide Counted;
    CountsAdd(s.result.crossTickCount, 0);
    if path != [] {
      hide Visit, Budget, OnlyFeesAdded;
      StuckVisit(aToB, feeRate, path[0], s);
      VisitCounts(aToB, feeRate, path[0], s);
      CountsAdd(s.result.crossTickCount, |path| - 1);
      StuckCounts(aToB, feeRate, path[1..], Visit(aToB, feeRate, path[0], s).value);
    }
  }

  /** A first range crossed adds one to the ranges the rest of the walk needs. */
  lemma LeastCoveringShifts(aToB: bool, feeRate: nat, path: seq<TickData>, p: nat, liquidity: nat, amount: nat, k: nat)
    requires Sound(aToB, p, liquidity, path) && feeRate < FEE_RATE_DENOMINATOR && path != []
    requires 0 < amount && RangeCost(aToB, p, path[0].sqrtPrice, liquidity, feeRate) <= amount
    ensures LiquidityBeyond(aToB, liquidity, path[0]) >= 0
    ensures Sound(aToB, path[0].sqrtPrice, LiquidityBeyond(aToB, liquidity, path[0]), path[1..])
    ensures var left := amount - RangeCost(aToB, p, path[0].sqrtPrice, liquidity, feeRate);
            var beyond := LiquidityBeyond(aToB, liquidity, path[0]);
            && (LeastCovering(aToB, feeRate, path[1..], path[0].sqrtPrice, beyond, left, k) ==>
                  LeastCovering(aToB, feeRate, path, p, liquidity, amount, k + 1))
            && (RunsOut(aToB, feeRate, path[1..], path[0].sqrtPrice, beyond, left, k) ==>
                  RunsOut(aToB, feeRate, path, p, liquidity, amount, k + 1))
  {
    hide RangeCost, Spendable, CostOfFirst;
    FirstRange(aToB, feeRate, path, p, liquidity);
    var left := amount - RangeCost(aToB, p, path[0].sqrtPrice, liquidity, feeRate);
    CostUnfolds(aToB, feeRate, path, p, liquidity, 0);
    var beyond := LiquidityBeyond(aToB, liquidity, path[0]);
    if k < |path[1..]| {
      CostUnfolds(aToB, feeRate, path, p, liquidity, k + 1);
    }
    if k <= |path[1..]| {
      CostUnfolds(aToB, feeRate, path, p, liquidity, k);
    }
    if LeastCovering(aToB, feeRate, path[1..], path[0].sqrtPrice, beyond, left, k) {
      forall j: nat | j < k + 1 ensures CostOfFirst(aToB, feeRate, path, p, liquidity, j) < amount {
        if j > 0 {
          CostUnfolds(aToB, feeRate, path, p, liquidity, j - 1);
        }
      }
    }
  }

  lemma NothingToWalk(aToB: bool, feeRate: u64, path: seq<TickData>, s: LoopState)
    requires feeRate < FEE_RATE_DENOMINATOR && Sound(aToB, s.sqrtPrice, s.liquidity, path)
    requires (s.remaining == 0 || path == []) && s.result.crossTickCount < TWO32
    ensures Walk(aToB, feeRate, path, s) == Ok(s) && Counted(s.result.crossTickCount, 0) == s.result.crossTickCount
    ensures if s.remaining == 0 then LeastCovering(aToB, feeRate, path, s.sqrtPrice, s.liquidity, s.remaining, 0)
            else RunsOut(aToB, feeRate, path, s.sqrtPrice, s.liquidity, s.remaining, 0)
    ensures CostOfFirst(aToB, feeRate, path, s.sqrtPrice, s.liquidity, 0) == 0
  {
  }

  lemma CrossesTo(aToB: bool, liquidity: u128, tick: TickData)
    requires Bearable(LiquidityBeyond(aToB, liquidity, tick))
    ensures Crossed(aToB, liquidity, tick.liquidityNet) == LiquidityBeyond(aToB, liquidity, tick)
  {
    WrapKeeps(LiquidityBeyond(aToB, liquidity, tick));
  }

  /** The amount ends inside the first range. */
  lemma EndsInFirst(aToB: bool, feeRate: u64, path: seq<TickData>, s: LoopState)
    requires feeRate < FEE_RATE_DENOMINATOR && Sound(aToB, s.sqrtPrice, s.liquidity, path) && path != []
    requires 0 < s.remaining < RangeCost(aToB, s.sqrtPrice, path[0].sqrtPrice, s.liquidity, feeRate)
    requires Visit(aToB, feeRate, path[0], s).Ok? && Visit(aToB, feeRate, path[0], s).value.remaining == 0
    ensures Walk(aToB, feeRate, path, s) == Visit(aToB, feeRate, path[0], s)
    ensures LeastCovering(aToB, feeRate, path, s.sqrtPrice, s.liquidity, s.remaining, 1)
  {
    hide Visit, RangeCost, CostOfFirst;
    FirstRange(aToB, feeRate, path, s.sqrtPrice, s.liquidity);
  }

  lemma StallsInFirst(aToB: bool, feeRate: u64, path: seq<TickData>, s: LoopState)
    requires feeRate < FEE_RATE_DENOMINATOR && Sound(aToB, s.sqrtPrice, s.liquidity, path) && path != []
    requires 0 < s.remaining < RangeCost(aToB, s.sqrtPrice, path[0].sqrtPrice, s.liquidity, feeRate)
    requires s.result.crossTickCount < TWO32
    requires var leg := LegOf(aToB, s.sqrtPrice, path[0].sqrtPrice, s.liquidity, s.remaining, feeRate);
             leg.next != path[0].sqrtPrice && leg.amountIn == 0
    ensures var walk := Walk(aToB, feeRate, path, s);
            && walk.Ok? && walk.value.remaining == s.remaining
            && walk.value.result.crossTickCount == Counted(s.result.crossTickCount, |path|)
    ensures RunsOut(aToB, feeRate, path, s.sqrtPrice, s.liquidity, s.remaining, 0)
    ensures CostOfFirst(aToB, feeRate, path, s.sqrtPrice, s.liquidity, 0) == 0
  {
    hide Visit, RangeCost, CostOfFirst, LegOf, Budget, Walk, Spendable, OnlyFeesAdded, Sound, Counted;
    FirstRange(aToB, feeRate, path, s.sqrtPrice, s.liquidity);
    StalledLeg(aToB, feeRate, path, s);
    StalledIsStuck(aToB, feeRate, path, s);
    StartsSound(aToB, s.sqrtPrice, s.liquidity, path);
    StuckCounts(aToB, feeRate, path, s);
    BudgetIsSpendable(s.remaining, feeRate);
  }

  lemma StartsSound(aToB: bool, p: nat, liquidity: int, path: seq<TickData>)
    requires Sound(aToB, p, liquidity, path)
    ensures InRange(p) && Bearable(liquidity)
  {
  }

  lemma WalkCounts(aToB: bool, feeRate: u64, path: seq<TickData>, s: LoopState) returns (k: nat)
    requires feeRate < FEE_RATE_DENOMINATOR && Sound(aToB, s.sqrtPrice, s.liquidity, path)
    requires s.result.crossTickCount < TWO32
    ensures k <= |path|
    ensures var walk := Walk(aToB, feeRate, path, s);
            && walk.Ok?
            && (walk.value.remaining == 0 ==>
                  LeastCovering(aToB, feeRate, path, s.sqrtPrice, s.liquidity, s.remaining, k)
                  && walk.value.result.crossTickCount == Counted(s.result.crossTickCount, k))
            && (walk.value.remaining > 0 ==>
                  RunsOut(aToB, feeRate, path, s.sqrtPrice, s.liquidity, s.remaining, k)
                  && walk.value.remaining == s.remaining - CostOfFirst(aToB, feeRate, path, s.sqrtPrice, s.liquidity, k)
                  && walk.value.result.crossTickCount == Counted(s.result.crossTickCount, |path|))
    decreases |path|
  {
    hide Visit, LegOf, Crossed, RangeCost, Budget, CostOfFirst, LeastCovering, RunsOut, Spendable, Counted;
    CountsAdd(s.result.crossTickCount, 0);
    k := 0;
    if s.remaining == 0 || path == [] {
      NothingToWalk(aToB, feeRate, path, s);
    } else {
      var tick := path[0];
      LandingVisit(aToB, feeRate, tick, s);
      var next := Visit(aToB, feeRate, tick, s).value;
      if next.sqrtPrice == tick.sqrtPrice {
        CostUnfolds(aToB, feeRate, path, s.sqrtPrice, s.liquidity, 0);
        CrossesTo(aToB, s.liquidity, tick);
        var later := WalkCounts(aToB, feeRate, path[1..], next);
        LeastCoveringShifts(aToB, feeRate, path, s.sqrtPrice, s.liquidity, s.remaining, later);
        CountsAdd(s.result.crossTickCount, later);
        CountsAdd(s.result.crossTickCount, |path| - 1);
        CostUnfolds(aToB, feeRate, path, s.sqrtPrice, s.liquidity, later);
        k := later + 1;
      } else if next.remaining == 0 {
        k := 1;
        EndsInFirst(aToB, feeRate, path, s);
      } else {
        StallsInFirst(aToB, feeRate, path, s);
      }
    }
  }

  /** How many ticks a swap reports: one that fills, the least number of ranges whose gross costs cover the amount
      (none for nothing); one that does not, every tick ahead, beside what the ranges it crossed whole have left. */
  lemma SwapCountsTicks(aToB: bool, amount: u128, pool: PoolState, ticks: seq<TickData>) returns (k: nat)
    requires WellFormed(aToB, pool, ticks)
    ensures Sound(aToB, pool.currentSqrtPrice, pool.liquidity, Path(aToB, pool.currentTickIndex, ticks))
    ensures var path := Path(aToB, pool.currentTickIndex, ticks);
            match Swap(aToB, amount, pool, ticks)
            case Ok(r) =>
              LeastCovering(aToB, pool.feeRate, path, pool.currentSqrtPrice, pool.liquidity, amount, k)
              && r.crossTickCount == k % TWO32
            case Err(e) =>
              RunsOut(aToB, pool.feeRate, path, pool.currentSqrtPrice, pool.liquidity, amount, k)
              && e == Unfilled(amount - CostOfFirst(aToB, pool.feeRate, path, pool.currentSqrtPrice, pool.liquidity, k),
                               amount, |path| % TWO32)
  {
    hide Walk, CostOfFirst, Spendable;
    WellFormedIsSound(aToB, pool, ticks);
    k := WalkCounts(aToB, pool.feeRate, Path(aToB, pool.currentTickIndex, ticks), Start(amount, pool));
  }

  // ---------------------------------------------------------------- dust

  lemma StrandedWalk(aToB: bool, feeRate: u64, path: seq<TickData>, s: LoopState)
    requires Stranded(s.remaining, feeRate)
    ensures var walk := Walk(aToB, feeRate, path, s); walk.Ok? ==> walk.value.remaining == s.remaining
    decreases |path|
  {
    hide ComputeSwapStep, Wrap128, Stranded;
    if path != [] && s.remaining != 0 {
      var visit := Visit(aToB, feeRate, path[0], s);
      if visit.Ok? {
        StepOnNothing(s.sqrtPrice, Target(aToB, path[0]), s.liquidity, s.remaining, feeRate);
        StrandedWalk(aToB, feeRate, path[1..], visit.value);
      }
    }
  }

  /** An amount the fee swallows whole never fills, on any pool with any liquidity. */
  lemma DustNeverFills(aToB: bool, amount: u128, pool: PoolState, ticks: seq<TickData>)
    requires Stranded(amount, pool.feeRate)
    ensures Swap(aToB, amount, pool, ticks).Err?
  {
    StrandedWalk(aToB, pool.feeRate, Path(aToB, pool.currentTickIndex, ticks), Start(amount, pool));
  }

  /** With any fee at all, one base unit can never be swapped. */
  lemma OneUnitNeverFills(aToB: bool, pool: PoolState, ticks: seq<TickData>)
    requires 0 < pool.feeRate <= FEE_RATE_DENOMINATOR
    ensures Swap(aToB, 1, pool, ticks).Err?
  {
    DustNeverFills(aToB, 1, pool, ticks);
  }
}

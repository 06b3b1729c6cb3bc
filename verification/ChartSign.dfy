/** The swap engine and the liquidity chart apply a tick's net liquidity with opposite signs. How far a swap is the
    same under either sign, and what becomes of it from there. */
module ChartSign {
  import opened Wrappers
  import opened Rounding
  import opened Widths
  import opened CurveBounds
  import opened SwapMath
  import opened SwapStep
  import opened SwapWalk
  import opened SwapTrade
  import opened SwapTheorems
  import opened SwapGuarantees
  import opened SwapFills
  import LiquidityProfile

  // ---------------------------------------------------------------- one crossing

  /** The swap engine crosses a tick the other way: for one tick and direction of price, its liquidity agrees
      with the chart's exactly when the tick's net is zero. */
  lemma EngineCrossesOppositely(liquidity: u128, net: i128, aToB: bool)
    requires 0 <= (if aToB then liquidity + net else liquidity - net) < TWO128
    ensures LiquidityProfile.ApplyLiquidity(liquidity, NetOf(net), !aToB) == Ok(Crossed(aToB, liquidity, net))
            <==> net == 0
  {
    var engine := if aToB then liquidity + net else liquidity - net;
    WrapKeeps(engine);
    LiquidityProfile.AppliesSignedNet(liquidity, NetOf(net), !aToB);
  }

  function NetOf(net: i128): LiquidityProfile.Net {
    var n: int := net;
    var magnitude: LiquidityProfile.U256 := if n < 0 then -n else n;
    LiquidityProfile.Net(n < 0, Some(magnitude))
  }

  /** What the chart makes of a crossing, as long as it fits: the engine's crossing in the other direction. */
  lemma ChartCrossing(liquidity: u128, net: i128, aToB: bool)
    requires 0 <= (if aToB then liquidity - net else liquidity + net) < TWO128
    ensures LiquidityProfile.ApplyLiquidity(liquidity, NetOf(net), !aToB) == Ok(Crossed(!aToB, liquidity, net))
  {
    WrapKeeps(if aToB then liquidity - net else liquidity + net);
    LiquidityProfile.AppliesSignedNet(liquidity, NetOf(net), !aToB);
  }

  // ---------------------------------------------------------------- whole swaps with the chart's sign

  function ChartVisit(aToB: bool, feeRate: u64, tick: TickData, s: LoopState): Result<LoopState, SwapError> {
    var next :- Visit(aToB, feeRate, tick, s);
    Ok(if next.sqrtPrice == tick.sqrtPrice then next.(liquidity := Crossed(!aToB, s.liquidity, tick.liquidityNet))
       else next)
  }

  function ChartWalk(aToB: bool, feeRate: u64, path: seq<TickData>, s: LoopState): Result<LoopState, SwapError> {
    if path == [] || s.remaining == 0 then Ok(s) else
    var next :- ChartVisit(aToB, feeRate, path[0], s);
    ChartWalk(aToB, feeRate, path[1..], next)
  }

  /** compute_swap with the chart's sign at every crossing. */
  function ChartSwap(aToB: bool, amount: u128, pool: PoolState, ticks: seq<TickData>): Result<SwapResult, SwapError> {
    var end :- ChartWalk(aToB, pool.feeRate, Path(aToB, pool.currentTickIndex, ticks), Start(amount, pool));
    Finish(amount, end)
  }

  predicate NoNet(path: seq<TickData>, k: nat) {
    k <= |path| && forall i :: 0 <= i < k ==> path[i].liquidityNet == 0
  }

  /** Two walks that succeed and differ in nothing but the liquidity they end at. */
  predicate SameTrade(walk: Result<LoopState, SwapError>, other: Result<LoopState, SwapError>) {
    walk.Ok? && other.Ok? && other.value == walk.value.(liquidity := other.value.liquidity)
  }

  lemma StuckSame(aToB: bool, feeRate: u64, path: seq<TickData>, s: LoopState)
    requires feeRate < FEE_RATE_DENOMINATOR && s.remaining > 0 && Budget(s.remaining, feeRate) == 0
    requires InRange(s.sqrtPrice) && Bearable(s.liquidity) && s.liquidity > 0 && Beyond(aToB, s.sqrtPrice, path)
    ensures ChartWalk(aToB, feeRate, path, s) == Walk(aToB, feeRate, path, s)
    decreases |path|
  {
    if path != [] {
      hide Visit, Budget;
      StuckVisit(aToB, feeRate, path[0], s);
      StuckSame(aToB, feeRate, path[1..], Visit(aToB, feeRate, path[0], s).value);
    }
  }

  lemma NoNetCrossing(aToB: bool, liquidity: u128, tick: TickData)
    requires tick.liquidityNet == 0
    ensures Crossed(aToB, liquidity, tick.liquidityNet) == liquidity == LiquidityBeyond(aToB, liquidity, tick)
  {
  }

  /** Up to the end of the range after `k` ticks without net, both signs trade the same. */
  lemma SameUpToNet(aToB: bool, feeRate: u64, path: seq<TickData>, s: LoopState, k: nat)
    requires feeRate < FEE_RATE_DENOMINATOR && Sound(aToB, s.sqrtPrice, s.liquidity, path) && NoNet(path, k)
    requires k < |path| ==> s.remaining <= CostOfFirst(aToB, feeRate, path, s.sqrtPrice, s.liquidity, k + 1)
    ensures SameTrade(Walk(aToB, feeRate, path, s), ChartWalk(aToB, feeRate, path, s))
    decreases |path|
  {
    hide Visit, LegOf, Crossed, RangeCost, Budget, CostOfFirst, OnlyFeesAdded;
    if s.remaining != 0 && path != [] {
      var tick := path[0];
      LandingVisit(aToB, feeRate, tick, s);
      var next := Visit(aToB, feeRate, tick, s).value;
      if next.sqrtPrice != tick.sqrtPrice {
        if next.remaining != 0 {
          StalledSame(aToB, feeRate, path, s);
        }
      } else {
        CostUnfolds(aToB, feeRate, path, s.sqrtPrice, s.liquidity,
                    if k == 0 then 0 else if k < |path| then k else k - 1);
        if k == 0 {
          FirstRange(aToB, feeRate, path, s.sqrtPrice, s.liquidity);
        } else {
          NoNetCrossing(aToB, s.liquidity, tick);
          NoNetCrossing(!aToB, s.liquidity, tick);
          SameUpToNet(aToB, feeRate, path[1..], next, k - 1);
        }
      }
    }
  }

  lemma StalledSame(aToB: bool, feeRate: u64, path: seq<TickData>, s: LoopState)
    requires feeRate < FEE_RATE_DENOMINATOR && Sound(aToB, s.sqrtPrice, s.liquidity, path) && path != []
             && s.remaining > 0
    requires var leg := LegOf(aToB, s.sqrtPrice, path[0].sqrtPrice, s.liquidity, s.remaining, feeRate);
             leg.next != path[0].sqrtPrice && leg.amountIn == 0
    ensures SameTrade(Walk(aToB, feeRate, path, s), ChartWalk(aToB, feeRate, path, s))
  {
    hide LegOf, Budget, Walk, ChartWalk, OnlyFeesAdded;
    StalledLeg(aToB, feeRate, path, s);
    StalledIsStuck(aToB, feeRate, path, s);
    StuckSame(aToB, feeRate, path, s);
  }

  /** An amount beyond the range after `k` ticks without net crosses one more tick with the same totals under either
      sign, having spent the cost of the ranges up to it, and goes on from there at the sign's own liquidity. */
  lemma PartAfterNet(aToB: bool, feeRate: u64, path: seq<TickData>, s: LoopState, k: nat) returns (at: LoopState)
    requires feeRate < FEE_RATE_DENOMINATOR && Sound(aToB, s.sqrtPrice, s.liquidity, path) && NoNet(path, k)
    requires k < |path| && s.remaining > CostOfFirst(aToB, feeRate, path, s.sqrtPrice, s.liquidity, k + 1)
    ensures at.remaining == s.remaining - CostOfFirst(aToB, feeRate, path, s.sqrtPrice, s.liquidity, k + 1)
    ensures at.sqrtPrice == path[k].sqrtPrice && at.liquidity == s.liquidity
    ensures Walk(aToB, feeRate, path, s)
            == Walk(aToB, feeRate, path[k + 1..],
                    at.(liquidity := Crossed(aToB, s.liquidity, path[k].liquidityNet)))
    ensures ChartWalk(aToB, feeRate, path, s)
            == ChartWalk(aToB, feeRate, path[k + 1..],
                         at.(liquidity := Crossed(!aToB, s.liquidity, path[k].liquidityNet)))
    decreases |path|
  {
    hide Visit, LegOf, Crossed, RangeCost, Budget, CostOfFirst;
    var tick := path[0];
    LandingVisit(aToB, feeRate, tick, s);
    var next := Visit(aToB, feeRate, tick, s).value;
    CostUnfolds(aToB, feeRate, path, s.sqrtPrice, s.liquidity, k);
    if k == 0 {
      FirstRange(aToB, feeRate, path, s.sqrtPrice, s.liquidity);
      at := next.(liquidity := s.liquidity);
    } else {
      NoNetCrossing(aToB, s.liquidity, tick);
      NoNetCrossing(!aToB, s.liquidity, tick);
      at := PartAfterNet(aToB, feeRate, path[1..], next, k - 1);
      assert path[1..][k..] == path[k + 1..];
    }
  }

  // ---------------------------------------------------------------- the chart's sign is the negated net

  predicate CanNegate(tick: TickData) {
    tick.liquidityNet > -0x8000_0000_0000_0000_0000_0000_0000_0000
  }

  function Negated(tick: TickData): TickData
    requires CanNegate(tick)
  {
    tick.(liquidityNet := -tick.liquidityNet)
  }

  predicate Negatable(path: seq<TickData>) {
    forall i :: 0 <= i < |path| ==> CanNegate(path[i])
  }

  function Opposite(path: seq<TickData>): (opposite: seq<TickData>)
    requires Negatable(path)
    ensures |opposite| == |path|
  {
    if path == [] then [] else [Negated(path[0])] + Opposite(path[1..])
  }

  lemma ChartVisitIsVisit(aToB: bool, feeRate: u64, tick: TickData, s: LoopState)
    requires CanNegate(tick)
    ensures ChartVisit(aToB, feeRate, tick, s) == Visit(aToB, feeRate, Negated(tick), s)
  {
    hide ComputeSwapStep, Wrap128;
  }

  lemma ChartWalkIsWalk(aToB: bool, feeRate: u64, path: seq<TickData>, s: LoopState)
    requires Negatable(path)
    ensures ChartWalk(aToB, feeRate, path, s) == Walk(aToB, feeRate, Opposite(path), s)
    decreases |path|
  {
    hide ChartVisit, Visit, Negated;
    if path != [] {
      ChartVisitIsVisit(aToB, feeRate, path[0], s);
    }
    if path != [] && s.remaining != 0 && ChartVisit(aToB, feeRate, path[0], s).Ok? {
      ChartWalkIsWalk(aToB, feeRate, path[1..], ChartVisit(aToB, feeRate, path[0], s).value);
    }
  }

  /** On a sound path every net can be negated. */
  lemma SoundIsNegatable(aToB: bool, p: nat, liquidity: int, path: seq<TickData>)
    requires Sound(aToB, p, liquidity, path)
    ensures Negatable(path)
    decreases |path|
  {
    if path != [] {
      var beyond := LiquidityBeyond(aToB, liquidity, path[0]);
      assert Bearable(beyond);
      SoundIsNegatable(aToB, path[0].sqrtPrice, beyond, path[1..]);
    }
  }

  // ---------------------------------------------------------------- less liquidity, farther price

  /** The two paths meet the same prices, the first never at more liquidity than the second. */
  predicate Thinner(aToB: bool, thin: seq<TickData>, less: int, thick: seq<TickData>, more: int)
    decreases |thin|
  {
    less <= more && |thin| == |thick|
    && (thin != [] ==>
          thin[0].sqrtPrice == thick[0].sqrtPrice
          && Thinner(aToB, thin[1..], LiquidityBeyond(aToB, less, thin[0]),
                     thick[1..], LiquidityBeyond(aToB, more, thick[0])))
  }

  lemma CoversAtLess(aToB: bool, p: nat, n: nat, less: nat, more: nat, amount: nat)
    requires less <= more && Covers(aToB, p, n, more, amount, TWO64)
    ensures Covers(aToB, p, n, less, amount, TWO64)
  {
    MulMono(less, more, Gap(p, n));
    MulMono(less * Gap(p, n), more * Gap(p, n), TWO64);
  }

  lemma CheaperAtLess(aToB: bool, p: nat, t: nat, less: nat, more: nat, feeRate: nat)
    requires p > 0 && t > 0 && less <= more && feeRate < FEE_RATE_DENOMINATOR
    ensures RangeCost(aToB, p, t, less, feeRate) <= RangeCost(aToB, p, t, more, feeRate)
  {
    hide InputFor, RangeFee, Budget, Covers;
    var dear := InputFor(aToB, p, t, more, TWO64);
    InputIsLeast(aToB, p, t, more, dear, TWO64);
    CoversAtLess(aToB, p, t, less, more, dear);
    InputIsLeast(aToB, p, t, less, dear, TWO64);
    BudgetIsGross(dear, RangeCost(aToB, p, t, more, feeRate), feeRate);
    BudgetIsGross(InputFor(aToB, p, t, less, TWO64), RangeCost(aToB, p, t, more, feeRate), feeRate);
  }

  /** Stopping inside one range: less liquidity and no smaller an amount stops no nearer. */
  lemma PartialAtLess(aToB: bool, p: nat, t: nat, less: nat, more: nat, x: nat, y: nat, feeRate: nat)
    requires StepInputs(aToB, p, t, less, feeRate) && StepInputs(aToB, p, t, more, feeRate) && less <= more && x >= y
    requires LegOf(aToB, p, t, less, x, feeRate).next != t && LegOf(aToB, p, t, more, y, feeRate).next != t
    ensures Onward(aToB, LegOf(aToB, p, t, more, y, feeRate).next, LegOf(aToB, p, t, less, x, feeRate).next)
  {
    hide LegOf, InputFor, OutputFor, Covers, Affordable, RangeFee, Budget, PriceAfterInput;
    var n := LegOf(aToB, p, t, more, y, feeRate).next;
    LegGuarantees(aToB, p, t, more, y, feeRate);
    PartialLeg(aToB, p, t, more, y, feeRate);
    PartialLeg(aToB, p, t, less, x, feeRate);
    BudgetGrows(y, x, feeRate);
    CoversAtLess(aToB, p, n, less, more, Budget(y, feeRate));
    CoverMore(aToB, p, n, less, Budget(y, feeRate), Budget(x, feeRate));
    FarthestCovered(aToB, p, n, less, Budget(x, feeRate), TWO64);
  }

  /** Along a thinner path, an amount no smaller moves the price at least as far. */
  lemma ThinnerMovesFarther(aToB: bool, feeRate: nat, thin: seq<TickData>, less: nat, thick: seq<TickData>, more: nat,
                            p: nat, x: nat, y: nat)
    requires Sound(aToB, p, less, thin) && Sound(aToB, p, more, thick) && Thinner(aToB, thin, less, thick, more)
    requires feeRate < FEE_RATE_DENOMINATOR && x >= y
    ensures var far := Trading(aToB, feeRate, thin, p, less, x);
            var near := Trading(aToB, feeRate, thick, p, more, y);
            far.Fills? && near.Fills? ==> Onward(aToB, near.price, far.price)
    decreases |thin|
  {
    hide LegOf, RangeCost, Budget, NoBetterThan;
    TradingNeverBeats(aToB, feeRate, thin, p, less, x);
    if y != 0 && thin != [] {
      var t := thin[0].sqrtPrice;
      LegIsCost(aToB, p, t, less, x, feeRate);
      LegIsCost(aToB, p, t, more, y, feeRate);
      CheaperAtLess(aToB, p, t, less, more, feeRate);
      LegEnds(aToB, p, t, more, y, feeRate);
      var far := LegOf(aToB, p, t, less, x, feeRate);
      var near := LegOf(aToB, p, t, more, y, feeRate);
      var beyond := LiquidityBeyond(aToB, less, thin[0]);
      assert Sound(aToB, t, beyond, thin[1..]);
      if near.next == t {
        assert Sound(aToB, t, LiquidityBeyond(aToB, more, thick[0]), thick[1..]);
        ThinnerMovesFarther(aToB, feeRate, thin[1..], beyond, thick[1..], LiquidityBeyond(aToB, more, thick[0]), t,
                            x - far.amountIn - far.fee, y - near.amountIn - near.fee);
      } else if far.next == t {
        TradingNeverBeats(aToB, feeRate, thin[1..], t, beyond, x - far.amountIn - far.fee);
      } else {
        PartialAtLess(aToB, p, t, less, more, x, y, feeRate);
      }
    }
  }

  lemma LegEnds(aToB: bool, p: nat, t: nat, liquidity: nat, amount: nat, feeRate: nat)
    requires StepInputs(aToB, p, t, liquidity, feeRate)
    ensures Onward(aToB, LegOf(aToB, p, t, liquidity, amount, feeRate).next, t)
  {
    hide LegOf, InputFor, RangeFee, Covers, Affordable;
    LegGuarantees(aToB, p, t, liquidity, amount, feeRate);
  }

  /** At every tick of the path the engine's liquidity is on one side of the liquidity it started at. */
  predicate StaysAbove(aToB: bool, start: int, liquidity: int, path: seq<TickData>)
    decreases |path|
  {
    start <= liquidity && (path != [] ==> StaysAbove(aToB, start, LiquidityBeyond(aToB, liquidity, path[0]), path[1..]))
  }

  predicate StaysBelow(aToB: bool, start: int, liquidity: int, path: seq<TickData>)
    decreases |path|
  {
    liquidity <= start && (path != [] ==> StaysBelow(aToB, start, LiquidityBeyond(aToB, liquidity, path[0]), path[1..]))
  }

  /** With the chart's sign liquidity is the engine's, mirrored about the one both start at. */
  lemma OppositeIsThinner(aToB: bool, start: int, liquidity: int, path: seq<TickData>)
    requires Negatable(path)
    ensures StaysAbove(aToB, start, liquidity, path) ==>
              Thinner(aToB, Opposite(path), 2 * start - liquidity, path, liquidity)
    ensures StaysBelow(aToB, start, liquidity, path) ==>
              Thinner(aToB, path, liquidity, Opposite(path), 2 * start - liquidity)
    decreases |path|
  {
    if path != [] {
      OppositeIsThinner(aToB, start, LiquidityBeyond(aToB, liquidity, path[0]), path[1..]);
    }
  }

  // ---------------------------------------------------------------- results

  /** The path, sound for the engine, can be walked with the chart's sign as well. That its nets can be negated adds
      nothing, by SoundIsNegatable. */
  predicate SoundEitherWay(aToB: bool, pool: PoolState, ticks: seq<TickData>) {
    var path := Path(aToB, pool.currentTickIndex, ticks);
    && pool.feeRate < FEE_RATE_DENOMINATOR
    && Sound(aToB, pool.currentSqrtPrice, pool.liquidity, path) && Negatable(path)
    && Sound(aToB, pool.currentSqrtPrice, pool.liquidity, Opposite(path))
  }

  /** If a swap ends no later than in the range before the first tick with net, the sign makes no difference: value
      and error are the same. */
  lemma SignsAgreeBeforeNet(aToB: bool, amount: u128, pool: PoolState, ticks: seq<TickData>, k: nat)
    requires pool.feeRate < FEE_RATE_DENOMINATOR
    requires Sound(aToB, pool.currentSqrtPrice, pool.liquidity, Path(aToB, pool.currentTickIndex, ticks))
    requires var path := Path(aToB, pool.currentTickIndex, ticks);
             && NoNet(path, k)
             && (k < |path| ==>
                   amount <= CostOfFirst(aToB, pool.feeRate, path, pool.currentSqrtPrice, pool.liquidity, k + 1))
    ensures ChartSwap(aToB, amount, pool, ticks) == Swap(aToB, amount, pool, ticks)
  {
    hide Walk, ChartWalk, CostOfFirst;
    SameUpToNet(aToB, pool.feeRate, Path(aToB, pool.currentTickIndex, ticks), Start(amount, pool), k);
  }

  /** Otherwise both cross that tick at the same totals, having spent exactly the cost of the ranges up to it, and
      each goes on with the same rest of the amount at its own liquidity. */
  lemma SignsPartAtNet(aToB: bool, amount: u128, pool: PoolState, ticks: seq<TickData>, k: nat) returns (at: LoopState)
    requires pool.feeRate < FEE_RATE_DENOMINATOR
    requires Sound(aToB, pool.currentSqrtPrice, pool.liquidity, Path(aToB, pool.currentTickIndex, ticks))
    requires var path := Path(aToB, pool.currentTickIndex, ticks);
             && NoNet(path, k) && k < |path|
             && amount > CostOfFirst(aToB, pool.feeRate, path, pool.currentSqrtPrice, pool.liquidity, k + 1)
    ensures var path := Path(aToB, pool.currentTickIndex, ticks);
            && at.remaining == amount - CostOfFirst(aToB, pool.feeRate, path, pool.currentSqrtPrice, pool.liquidity,
                                                    k + 1)
            && at.sqrtPrice == path[k].sqrtPrice && at.liquidity == pool.liquidity
            && Walk(aToB, pool.feeRate, path, Start(amount, pool))
               == Walk(aToB, pool.feeRate, path[k + 1..],
                       at.(liquidity := Crossed(aToB, pool.liquidity, path[k].liquidityNet)))
            && ChartWalk(aToB, pool.feeRate, path, Start(amount, pool))
               == ChartWalk(aToB, pool.feeRate, path[k + 1..],
                            at.(liquidity := Crossed(!aToB, pool.liquidity, path[k].liquidityNet)))
  {
    hide Walk, ChartWalk, CostOfFirst, Crossed;
    at := PartAfterNet(aToB, pool.feeRate, Path(aToB, pool.currentTickIndex, ticks), Start(amount, pool), k);
  }

  /** With the chart's sign a swap is the trade along the negated nets. */
  lemma ChartSwapIsTrading(aToB: bool, amount: u128, pool: PoolState, ticks: seq<TickData>)
    requires SoundEitherWay(aToB, pool, ticks)
    ensures var r := ChartSwap(aToB, amount, pool, ticks);
            var trade := Trading(aToB, pool.feeRate, Opposite(Path(aToB, pool.currentTickIndex, ticks)),
                                 pool.currentSqrtPrice, pool.liquidity, amount);
            && (trade.Fills? ==> r.Ok? && r.value.amountIn == amount && r.value.amountOut == trade.amountOut
                                 && r.value.feeAmount == trade.fee && r.value.nextSqrtPrice == trade.price)
            && (trade.Stalls? ==> r.Err? && r.error.Unfilled?)
  {
    hide Walk, ChartWalk, Trading;
    var path := Path(aToB, pool.currentTickIndex, ticks);
    ChartWalkIsWalk(aToB, pool.feeRate, path, Start(amount, pool));
    WalkIsTrading(aToB, pool.feeRate, Opposite(path), Start(amount, pool), pool.currentSqrtPrice, amount);
  }

  /** Exactly which amounts fill with the chart's sign: those that run out in a range of the negated path. */
  lemma ChartFillsIff(aToB: bool, amount: u128, pool: PoolState, ticks: seq<TickData>)
    requires SoundEitherWay(aToB, pool, ticks)
    ensures ChartSwap(aToB, amount, pool, ticks).Ok? <==>
            amount == 0
            || exists k: nat :: EndsInRange(aToB, pool.feeRate, Opposite(Path(aToB, pool.currentTickIndex, ticks)),
                                            pool.currentSqrtPrice, pool.liquidity, amount, k)
  {
    hide ChartSwap, Trading, EndsInRange;
    ChartSwapIsTrading(aToB, amount, pool, ticks);
    TradingFillsIff(aToB, pool.feeRate, Opposite(Path(aToB, pool.currentTickIndex, ticks)), pool.currentSqrtPrice,
                    pool.liquidity, amount);
  }

  /** Where both fill, the sign that gives less liquidity moves the price at least as far. */
  lemma LessLiquidityMovesFarther(aToB: bool, amount: u128, pool: PoolState, ticks: seq<TickData>)
    requires SoundEitherWay(aToB, pool, ticks)
    ensures var path := Path(aToB, pool.currentTickIndex, ticks);
            var engine := Swap(aToB, amount, pool, ticks);
            var chart := ChartSwap(aToB, amount, pool, ticks);
            engine.Ok? && chart.Ok? ==>
              && (StaysAbove(aToB, pool.liquidity, pool.liquidity, path) ==>
                    Onward(aToB, engine.value.nextSqrtPrice, chart.value.nextSqrtPrice))
              && (StaysBelow(aToB, pool.liquidity, pool.liquidity, path) ==>
                    Onward(aToB, chart.value.nextSqrtPrice, engine.value.nextSqrtPrice))
  {
    hide Swap, ChartSwap, Trading;
    var path, start := Path(aToB, pool.currentTickIndex, ticks), pool.liquidity;
    SwapIsTrading(aToB, amount, pool, ticks);
    ChartSwapIsTrading(aToB, amount, pool, ticks);
    OppositeIsThinner(aToB, start, start, path);
    if StaysAbove(aToB, start, start, path) {
      ThinnerMovesFarther(aToB, pool.feeRate, Opposite(path), start, path, start, pool.currentSqrtPrice, amount,
                          amount);
    }
    if StaysBelow(aToB, start, start, path) {
      ThinnerMovesFarther(aToB, pool.feeRate, path, start, Opposite(path), start, pool.currentSqrtPrice, amount,
                          amount);
    }
  }
}

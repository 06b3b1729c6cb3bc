/** What a swap does on a sound pool, in unbounded arithmetic, and the proof that compute_swap does exactly that. */
module SwapTrade {
  import opened Rounding
  import opened CurveBounds
  import opened SwapMath
  import opened SwapStep
  import opened SwapWalk
  import opened Widths

  function LiquidityBeyond(aToB: bool, liquidity: int, tick: TickData): int {
    if aToB then liquidity + tick.liquidityNet else liquidity - tick.liquidityNet
  }

  /** Prices run in the direction of travel inside the legal range, and liquidity stays bearable all the way. */
  predicate Sound(aToB: bool, p: nat, liquidity: int, path: seq<TickData>)
    decreases |path|
  {
    InRange(p) && Bearable(liquidity)
    && (path != [] ==>
          InRange(path[0].sqrtPrice) && Onward(aToB, p, path[0].sqrtPrice)
          && Sound(aToB, path[0].sqrtPrice, LiquidityBeyond(aToB, liquidity, path[0]), path[1..]))
  }

  /** Pool state as the venue fetches it: ticks sorted by index with increasing prices, the current tick
      consistent with the current price, every prefix of the walk at a bearable liquidity, fee below 100%. */
  predicate WellFormed(aToB: bool, pool: PoolState, ticks: seq<TickData>) {
    InRange(pool.currentSqrtPrice) && pool.feeRate < FEE_RATE_DENOMINATOR
    && (forall i :: 0 <= i < |ticks| ==> InRange(ticks[i].sqrtPrice))
    && (forall i, j :: 0 <= i < j < |ticks| ==>
          ticks[i].index < ticks[j].index && ticks[i].sqrtPrice < ticks[j].sqrtPrice)
    && (forall i :: 0 <= i < |ticks| && ticks[i].index <= pool.currentTickIndex ==>
          ticks[i].sqrtPrice <= pool.currentSqrtPrice)
    && (forall i :: 0 <= i < |ticks| && ticks[i].index > pool.currentTickIndex ==>
          ticks[i].sqrtPrice >= pool.currentSqrtPrice)
    && LiquidityHolds(aToB, pool.liquidity, Path(aToB, pool.currentTickIndex, ticks))
  }

  predicate LiquidityHolds(aToB: bool, liquidity: int, path: seq<TickData>)
    decreases |path|
  {
    Bearable(liquidity) && (path != [] ==> LiquidityHolds(aToB, LiquidityBeyond(aToB, liquidity, path[0]), path[1..]))
  }

  datatype Trade = Stalls | Fills(amountOut: nat, fee: nat, price: nat)

  /** Trading `amount` along `path` from price `p`. */
  function Trading(aToB: bool, feeRate: nat, path: seq<TickData>, p: nat, liquidity: nat, amount: nat): Trade
    requires Sound(aToB, p, liquidity, path) && feeRate < FEE_RATE_DENOMINATOR
    decreases |path|
  {
    if amount == 0 then Fills(0, 0, p)
    else if path == [] then Stalls
    else
      assert Sound(aToB, path[0].sqrtPrice, LiquidityBeyond(aToB, liquidity, path[0]), path[1..]);
      hide LegOf, Budget;
      LegSpends(aToB, p, path[0].sqrtPrice, liquidity, amount, feeRate);
      var leg := LegOf(aToB, p, path[0].sqrtPrice, liquidity, amount, feeRate);
      if leg.next == path[0].sqrtPrice then
        var rest := Trading(aToB, feeRate, path[1..], leg.next, LiquidityBeyond(aToB, liquidity, path[0]),
                            amount - leg.amountIn - leg.fee);
        if rest.Stalls? then Stalls else Fills(leg.amountOut + rest.amountOut, leg.fee + rest.fee, rest.price)
      else if leg.amountIn == 0 then Stalls
      else Fills(leg.amountOut, leg.fee, leg.next)
  }

  // ---------------------------------------------------------------- compute_swap refines Trading

  /** What has been booked so far adds up to the amount, and the output is one the price move could pay. */
  predicate Booked(aToB: bool, p0: nat, amount: nat, s: LoopState) {
    && s.result.amountIn + s.result.feeAmount + s.remaining == amount < TWO128
    && InRange(p0) && Onward(aToB, p0, s.sqrtPrice)
    && Affordable(aToB, p0, s.sqrtPrice, TWO96, s.result.amountOut, TWO64)
  }

  lemma VisitIsLeg(aToB: bool, feeRate: u64, tick: TickData, s: LoopState)
    requires StepInputs(aToB, s.sqrtPrice, tick.sqrtPrice, s.liquidity, feeRate)
    ensures var leg := LegOf(aToB, s.sqrtPrice, tick.sqrtPrice, s.liquidity, s.remaining, feeRate);
            var r := Visit(aToB, feeRate, tick, s);
            && leg.amountIn + leg.fee <= s.remaining
            && leg.amountOut < TWO128 && leg.next < TWO128
            && r.Ok?
            && r.value.remaining == s.remaining - (if leg.amountIn != 0 then leg.amountIn + leg.fee else 0)
            && r.value.liquidity == (if leg.next == tick.sqrtPrice then Crossed(aToB, s.liquidity, tick.liquidityNet)
                                     else s.liquidity)
            && r.value.sqrtPrice == leg.next
            && r.value.result.amountIn == Wrap128(s.result.amountIn + leg.amountIn)
            && r.value.result.amountOut == Wrap128(s.result.amountOut + leg.amountOut)
            && r.value.result.feeAmount == Wrap128(s.result.feeAmount + leg.fee)
  {
    hide LegOf, ComputeSwapStep, Wrap128;
    ExactInputStep(aToB, s.sqrtPrice, tick.sqrtPrice, s.liquidity, s.remaining, feeRate);
    var leg := LegOf(aToB, s.sqrtPrice, tick.sqrtPrice, s.liquidity, s.remaining, feeRate);
    WrapKeeps(leg.amountIn + leg.fee);
  }

  lemma WrapKeeps(n: nat)
    requires n < TWO128
    ensures Wrap128(n) == n
  {
  }

  lemma OutputFitsU128(aToB: bool, p: nat, n: nat, amount: nat)
    requires InRange(p) && InRange(n) && Onward(aToB, p, n) && Affordable(aToB, p, n, TWO96, amount, TWO64)
    ensures amount < TWO128
  {
    if !aToB {
      UpForm(p, n, TWO96, amount, TWO64);
      NotNegative(p * (TWO96 * TWO64), n, TWO96 * TWO64 - p * amount);
      MulMono(MIN_SQRT_PRICE, p, amount);
    }
  }

  /** A visit keeps the books, as long as it does not charge a fee on no input at all. */
  lemma VisitBooks(aToB: bool, feeRate: u64, tick: TickData, s: LoopState, p0: nat, amount: nat)
    requires StepInputs(aToB, s.sqrtPrice, tick.sqrtPrice, s.liquidity, feeRate)
    requires Booked(aToB, p0, amount, s)
    requires var leg := LegOf(aToB, s.sqrtPrice, tick.sqrtPrice, s.liquidity, s.remaining, feeRate);
             leg.next == tick.sqrtPrice || leg.amountIn != 0
    ensures var leg := LegOf(aToB, s.sqrtPrice, tick.sqrtPrice, s.liquidity, s.remaining, feeRate);
            var r := Visit(aToB, feeRate, tick, s);
            && r.Ok? && Booked(aToB, p0, amount, r.value)
            && leg.amountIn + leg.fee <= s.remaining
            && r.value.remaining == s.remaining - leg.amountIn - leg.fee
            && r.value.result.amountOut == s.result.amountOut + leg.amountOut
            && r.value.result.feeAmount == s.result.feeAmount + leg.fee
  {
    hide LegOf, Visit, Wrap128, InputFor, Affordable, Covers;
    var leg := LegOf(aToB, s.sqrtPrice, tick.sqrtPrice, s.liquidity, s.remaining, feeRate);
    VisitIsLeg(aToB, feeRate, tick, s);
    LegGuarantees(aToB, s.sqrtPrice, tick.sqrtPrice, s.liquidity, s.remaining, feeRate);
    FreeLegHasNoFee(aToB, s.sqrtPrice, tick.sqrtPrice, s.liquidity, s.remaining, feeRate);
    MovesCompose(aToB, p0, s.sqrtPrice, leg.next, TWO96, s.liquidity, s.result.amountOut, leg.amountOut, TWO64);
    OutputFitsU128(aToB, p0, leg.next, s.result.amountOut + leg.amountOut);
    WrapKeeps(s.result.amountIn + leg.amountIn);
    WrapKeeps(s.result.amountOut + leg.amountOut);
    WrapKeeps(s.result.feeAmount + leg.fee);
  }

  lemma FreeLegHasNoFee(aToB: bool, current: nat, target: nat, liquidity: nat, amount: nat, feeRate: nat)
    requires StepInputs(aToB, current, target, liquidity, feeRate)
    ensures var leg := LegOf(aToB, current, target, liquidity, amount, feeRate);
            leg.next == target && leg.amountIn == 0 ==> leg.fee == 0
  {
    hide InputFor, PriceAfterInput, OutputFor, Covers, Affordable, Onward;
    var needed := InputFor(aToB, current, target, liquidity, TWO64);
    LegGuarantees(aToB, current, target, liquidity, amount, feeRate);
    NoFeeOnNothing(feeRate);
    if liquidity > 0 && needed > Budget(amount, feeRate) {
      GrossGalois(needed, amount, feeRate, FEE_RATE_DENOMINATOR - feeRate);
    }
  }

  lemma NoFeeOnNothing(feeRate: nat)
    requires feeRate < FEE_RATE_DENOMINATOR
    ensures RangeFee(0, feeRate) == 0
  {
  }

  /** Every tick of the path lies strictly beyond `p`. */
  predicate Beyond(aToB: bool, p: nat, path: seq<TickData>) {
    forall i :: 0 <= i < |path| ==>
      InRange(path[i].sqrtPrice) && Onward(aToB, p, path[i].sqrtPrice) && path[i].sqrtPrice != p
  }

  lemma SoundIsOnward(aToB: bool, p: nat, liquidity: int, path: seq<TickData>)
    requires Sound(aToB, p, liquidity, path)
    ensures forall i :: 0 <= i < |path| ==> InRange(path[i].sqrtPrice) && Onward(aToB, p, path[i].sqrtPrice)
    decreases |path|
  {
    if path != [] {
      SoundIsOnward(aToB, path[0].sqrtPrice, LiquidityBeyond(aToB, liquidity, path[0]), path[1..]);
    }
  }

  /** The fees booked when `visits` visits each charge the whole remainder and spend none of it. */
  function FeesOnNothing(visits: nat, remaining: nat): nat {
    visits * remaining
  }

  predicate OnlyFeesAdded(before: SwapResult, after: SwapResult, visits: nat, remaining: nat) {
    && after.amountIn == before.amountIn && after.amountOut == before.amountOut
    && after.feeAmount == before.feeAmount + FeesOnNothing(visits, remaining)
  }

  lemma OneMoreFee(visits: nat, remaining: nat)
    ensures FeesOnNothing(0, remaining) == 0
    ensures FeesOnNothing(visits + 1, remaining) == remaining + FeesOnNothing(visits, remaining)
  {
  }

  lemma StuckVisit(aToB: bool, feeRate: u64, tick: TickData, s: LoopState)
    requires StepInputs(aToB, s.sqrtPrice, tick.sqrtPrice, s.liquidity, feeRate)
    requires s.liquidity > 0 && s.sqrtPrice != tick.sqrtPrice && Budget(s.remaining, feeRate) == 0
    ensures var r := Visit(aToB, feeRate, tick, s);
            && r.Ok? && r.value.remaining == s.remaining && r.value.sqrtPrice == s.sqrtPrice
            && r.value.liquidity == s.liquidity
            && (s.result.feeAmount + s.remaining < TWO128 ==> OnlyFeesAdded(s.result, r.value.result, 1, s.remaining))
  {
    hide Visit, Budget, LegOf, Wrap128, FeesOnNothing;
    VisitIsLeg(aToB, feeRate, tick, s);
    StuckLeg(aToB, s.sqrtPrice, tick.sqrtPrice, s.liquidity, s.remaining, feeRate);
    OneMoreFee(0, s.remaining);
    WrapKeeps(s.result.amountIn);
    WrapKeeps(s.result.amountOut);
    if s.result.feeAmount + s.remaining < TWO128 {
      WrapKeeps(s.result.feeAmount + s.remaining);
    }
  }

  /** Once the fee leaves nothing to spend, no later tick can use the remainder; each books it as a fee once more. */
  lemma StuckWalk(aToB: bool, feeRate: u64, path: seq<TickData>, s: LoopState)
    requires feeRate < FEE_RATE_DENOMINATOR && s.remaining > 0 && Budget(s.remaining, feeRate) == 0
    requires InRange(s.sqrtPrice) && Bearable(s.liquidity) && s.liquidity > 0 && Beyond(aToB, s.sqrtPrice, path)
    ensures var walk := Walk(aToB, feeRate, path, s);
            && walk.Ok? && walk.value.remaining == s.remaining && walk.value.sqrtPrice == s.sqrtPrice
            && (s.result.feeAmount + FeesOnNothing(|path|, s.remaining) < TWO128 ==>
                  OnlyFeesAdded(s.result, walk.value.result, |path|, s.remaining))
    decreases |path|
  {
    hide Visit, Budget, FeesOnNothing;
    OneMoreFee(if path == [] then 0 else |path| - 1, s.remaining);
    OneMoreFee(0, s.remaining);
    if path != [] {
      StuckVisit(aToB, feeRate, path[0], s);
      StuckWalk(aToB, feeRate, path[1..], Visit(aToB, feeRate, path[0], s).value);
    }
  }

  lemma StuckLeg(aToB: bool, current: nat, target: nat, liquidity: nat, amount: nat, feeRate: nat)
    requires StepInputs(aToB, current, target, liquidity, feeRate) && liquidity > 0 && current != target
    requires Budget(amount, feeRate) == 0
    ensures LegOf(aToB, current, target, liquidity, amount, feeRate) == Leg(0, 0, current, amount)
  {
    InputIsLeast(aToB, current, target, liquidity, 0, TWO64);
    assert liquidity * Gap(current, target) > 0;
    assert !Covers(aToB, current, target, liquidity, 0, TWO64);
    InputStopsShort(aToB, current, target, liquidity, 0, TWO64);
    NoInputNoMove(aToB, current, liquidity);
    FreeMove(aToB, aToB, current, current, liquidity);
  }

  lemma NoInputNoMove(aToB: bool, p: nat, liquidity: nat)
    requires liquidity > 0
    ensures PriceAfterInput(aToB, p, liquidity, 0, TWO64) == p
  {
    if aToB { CeilOfMultiple(p, liquidity * TWO64); }
  }

  /** On a sound path the machine walk ends exactly where Trading says, with the same totals. */
  lemma WalkIsTrading(aToB: bool, feeRate: u64, path: seq<TickData>, s: LoopState, p0: nat, amount: nat)
    requires feeRate < FEE_RATE_DENOMINATOR && Sound(aToB, s.sqrtPrice, s.liquidity, path)
             && Booked(aToB, p0, amount, s)
    ensures var trade := Trading(aToB, feeRate, path, s.sqrtPrice, s.liquidity, s.remaining);
            var walk := Walk(aToB, feeRate, path, s);
            && walk.Ok?
            && (trade.Stalls? ==> walk.value.remaining != 0)
            && (trade.Fills? ==>
                  && walk.value.remaining == 0
                  && walk.value.sqrtPrice == trade.price
                  && walk.value.result.amountOut == s.result.amountOut + trade.amountOut
                  && walk.value.result.feeAmount == s.result.feeAmount + trade.fee
                  && walk.value.result.amountIn + walk.value.result.feeAmount == amount)
    decreases |path|
  {
    hide Visit, LegOf, Budget, Affordable, OnlyFeesAdded;
    if s.remaining != 0 && path != [] {
      var tick := path[0];
      var leg := LegOf(aToB, s.sqrtPrice, tick.sqrtPrice, s.liquidity, s.remaining, feeRate);
      VisitIsLeg(aToB, feeRate, tick, s);
      var next := Visit(aToB, feeRate, tick, s).value;
      if leg.next == tick.sqrtPrice {
        VisitBooks(aToB, feeRate, tick, s, p0, amount);
        assert Sound(aToB, tick.sqrtPrice, LiquidityBeyond(aToB, s.liquidity, tick), path[1..]);
        WrapKeeps(LiquidityBeyond(aToB, s.liquidity, tick));
        WalkIsTrading(aToB, feeRate, path[1..], next, p0, amount);
      } else if leg.amountIn != 0 {
        VisitBooks(aToB, feeRate, tick, s, p0, amount);
        PartialLegSpendsAll(aToB, s.sqrtPrice, tick.sqrtPrice, s.liquidity, s.remaining, feeRate);
      } else {
        StalledLeg(aToB, feeRate, path, s);
      }
    }
  }

  lemma PartialLegSpendsAll(aToB: bool, current: nat, target: nat, liquidity: nat, amount: nat, feeRate: nat)
    requires StepInputs(aToB, current, target, liquidity, feeRate)
    ensures var leg := LegOf(aToB, current, target, liquidity, amount, feeRate);
            leg.next != target ==> leg.amountIn + leg.fee == amount && leg.amountIn == Budget(amount, feeRate)
  {
    hide InputFor, PriceAfterInput, OutputFor, Budget;
    LegGuarantees(aToB, current, target, liquidity, amount, feeRate);
  }

  lemma StalledIsStuck(aToB: bool, feeRate: u64, path: seq<TickData>, s: LoopState)
    requires feeRate < FEE_RATE_DENOMINATOR && Sound(aToB, s.sqrtPrice, s.liquidity, path) && path != []
             && s.remaining > 0
    requires var leg := LegOf(aToB, s.sqrtPrice, path[0].sqrtPrice, s.liquidity, s.remaining, feeRate);
             leg.next != path[0].sqrtPrice && leg.amountIn == 0
    ensures Budget(s.remaining, feeRate) == 0 && s.liquidity > 0 && Beyond(aToB, s.sqrtPrice, path)
  {
    hide LegOf, Budget;
    PartialLegSpendsAll(aToB, s.sqrtPrice, path[0].sqrtPrice, s.liquidity, s.remaining, feeRate);
    LegGuarantees(aToB, s.sqrtPrice, path[0].sqrtPrice, s.liquidity, s.remaining, feeRate);
    SoundIsOnward(aToB, s.sqrtPrice, s.liquidity, path);
    SoundIsOnward(aToB, path[0].sqrtPrice, LiquidityBeyond(aToB, s.liquidity, path[0]), path[1..]);
  }

  lemma StalledLeg(aToB: bool, feeRate: u64, path: seq<TickData>, s: LoopState)
    requires feeRate < FEE_RATE_DENOMINATOR && Sound(aToB, s.sqrtPrice, s.liquidity, path) && path != []
             && s.remaining > 0
    requires var leg := LegOf(aToB, s.sqrtPrice, path[0].sqrtPrice, s.liquidity, s.remaining, feeRate);
             leg.next != path[0].sqrtPrice && leg.amountIn == 0
    ensures Budget(s.remaining, feeRate) == 0
    ensures var walk := Walk(aToB, feeRate, path, s);
            && walk.Ok? && walk.value.remaining == s.remaining && walk.value.sqrtPrice == s.sqrtPrice
            && (s.result.feeAmount + FeesOnNothing(|path|, s.remaining) < TWO128 ==>
                  OnlyFeesAdded(s.result, walk.value.result, |path|, s.remaining))
  {
    hide Visit, LegOf, Budget, OnlyFeesAdded;
    StalledIsStuck(aToB, feeRate, path, s);
    StuckWalk(aToB, feeRate, path, s);
  }

  /** The fee swallows only remainders below its denominator. */
  lemma SwallowedIsSmall(amount: nat, feeRate: nat)
    requires feeRate < FEE_RATE_DENOMINATOR && Budget(amount, feeRate) == 0
    ensures amount < FEE_RATE_DENOMINATOR
  {
    var keep := FEE_RATE_DENOMINATOR - feeRate;
    FloorGalois(amount * keep, FEE_RATE_DENOMINATOR, 1);
    MulMono(1, keep, amount);
  }

  /** The totals of a walk that ends unfilled: the books, and the remainder booked as a fee once more at each of the
      last `stuck` ticks. */
  predicate Overbooked(aToB: bool, p0: nat, amount: nat, s: LoopState, stuck: nat) {
    && s.result.amountIn + s.result.feeAmount + s.remaining == amount + FeesOnNothing(stuck, s.remaining)
    && (stuck > 0 ==> s.remaining < FEE_RATE_DENOMINATOR)
    && InRange(p0) && Onward(aToB, p0, s.sqrtPrice)
    && Affordable(aToB, p0, s.sqrtPrice, TWO96, s.result.amountOut, TWO64)
  }

  /** Totals booked so far, followed by a stall, end overbooked by the fees of the stalled visits alone. */
  lemma StallOverbooks(aToB: bool, feeRate: u64, path: seq<TickData>, s: LoopState, p0: nat, amount: nat)
    requires feeRate < FEE_RATE_DENOMINATOR && Sound(aToB, s.sqrtPrice, s.liquidity, path) && path != []
    requires Booked(aToB, p0, amount, s) && s.remaining > 0 && amount + |path| * FEE_RATE_DENOMINATOR <= TWO128
    requires var leg := LegOf(aToB, s.sqrtPrice, path[0].sqrtPrice, s.liquidity, s.remaining, feeRate);
             leg.next != path[0].sqrtPrice && leg.amountIn == 0
    ensures var walk := Walk(aToB, feeRate, path, s);
            walk.Ok? && Overbooked(aToB, p0, amount, walk.value, |path|)
  {
    hide LegOf, Budget, Walk, Sound, Affordable;
    StalledLeg(aToB, feeRate, path, s);
    SwallowedIsSmall(s.remaining, feeRate);
    MulMono(s.remaining + 1, FEE_RATE_DENOMINATOR, |path|);
    assert (s.remaining + 1) * |path| == FeesOnNothing(|path|, s.remaining) + |path|;
  }

  /** A walk that stalls keeps exact totals too, as long as the remainder fits once more for every tick. */
  lemma StalledTotals(aToB: bool, feeRate: u64, path: seq<TickData>, s: LoopState, p0: nat, amount: nat)
      returns (stuck: nat)
    requires feeRate < FEE_RATE_DENOMINATOR && Sound(aToB, s.sqrtPrice, s.liquidity, path)
             && Booked(aToB, p0, amount, s)
    requires Trading(aToB, feeRate, path, s.sqrtPrice, s.liquidity, s.remaining).Stalls?
    requires amount + |path| * FEE_RATE_DENOMINATOR <= TWO128
    ensures stuck <= |path|
    ensures var walk := Walk(aToB, feeRate, path, s); walk.Ok? && Overbooked(aToB, p0, amount, walk.value, stuck)
    decreases |path|
  {
    hide Visit, LegOf, Budget, Affordable, FeesOnNothing;
    stuck := 0;
    OneMoreFee(0, s.remaining);
    if path != [] {
      var tick := path[0];
      var leg := LegOf(aToB, s.sqrtPrice, tick.sqrtPrice, s.liquidity, s.remaining, feeRate);
      if leg.next == tick.sqrtPrice {
        VisitIsLeg(aToB, feeRate, tick, s);
        VisitBooks(aToB, feeRate, tick, s, p0, amount);
        assert Sound(aToB, tick.sqrtPrice, LiquidityBeyond(aToB, s.liquidity, tick), path[1..]);
        WrapKeeps(LiquidityBeyond(aToB, s.liquidity, tick));
        stuck := StalledTotals(aToB, feeRate, path[1..], Visit(aToB, feeRate, tick, s).value, p0, amount);
      } else {
        stuck := |path|;
        StallOverbooks(aToB, feeRate, path, s, p0, amount);
      }
    }
  }
}

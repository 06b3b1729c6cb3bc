/** The liquidity chart of crates/graph/src/lib.rs: active liquidity on both sides of the pool's current tick. */
module LiquidityProfile {
  import opened Wrappers
  import opened DecimalOrder
  import opened Sequences
  import opened Widths

  type U256 = n: nat | n < TWO256

  /** A signed decimal after its sign is split off; a magnitude that does not parse is None. */
  datatype Net = Net(negative: bool, magnitude: Option<U256>)

  datatype ChartTick = ChartTick(index: int, net: Net, pairPrice: string)

  datatype ChartPool = ChartPool(liquidity: U256, tick: int, pairPrice: string)

  datatype Point = Point(priceUsd: string, activeLiquidity: U256)

  function Signed(net: Net): int
    requires net.magnitude.Some?
  {
    var magnitude: int := net.magnitude.value;
    if net.negative then -magnitude else magnitude
  }

  function ApplyLiquidity(active: U256, net: Net, upward: bool): Result<U256, string> {
    match net.magnitude
    case None => Err("liquidityNet is not a signed integer")
    case Some(magnitude) =>
      if net.negative == upward then
        if magnitude > active then Err("liquidityNet would make active liquidity negative")
        else
          var less: U256 := active - magnitude;
          Ok(less)
      else
        if active + magnitude >= TWO256 then Err("active liquidity overflow")
        else
          var more: U256 := active + magnitude;
          Ok(more)
  }

  /** What crossing a tick adds to active liquidity: its signed net going up, the opposite going down. */
  function Change(net: Net, upward: bool): int
    requires net.magnitude.Some?
  {
    if upward then Signed(net) else -Signed(net)
  }

  /** The step succeeds exactly when the signed sum is a 256-bit unsigned integer, and is that sum. */
  lemma AppliesSignedNet(active: U256, net: Net, upward: bool)
    requires net.magnitude.Some?
    ensures ApplyLiquidity(active, net, upward).Ok? <==> 0 <= active + Change(net, upward) < TWO256
    ensures ApplyLiquidity(active, net, upward).Ok? ==>
              ApplyLiquidity(active, net, upward).value == active + Change(net, upward)
  {
  }

  /** One tick of a walk: the new active liquidity, charted at the tick's price. */
  function PointAt(active: U256, tick: ChartTick, upward: bool, quoteUsd: string): Result<Point, string> {
    var next :- ApplyLiquidity(active, tick.net, upward);
    var price :- DecimalProduct(tick.pairPrice, quoteUsd);
    Ok(Point(price, next))
  }

  /** The points met walking away from the current tick. */
  function Walk(active: U256, path: seq<ChartTick>, upward: bool, quoteUsd: string): Result<seq<Point>, string>
    decreases |path|
  {
    if path == [] then Ok([])
    else
      var point :- PointAt(active, path[0], upward, quoteUsd);
      var rest :- Walk(point.activeLiquidity, path[1..], upward, quoteUsd);
      Ok([point] + rest)
  }

  function Prefixed(points: seq<Point>, rest: Result<seq<Point>, string>): Result<seq<Point>, string> {
    if rest.Ok? then Ok(points + rest.value) else rest
  }

  lemma WalkStep(points: seq<Point>, active: U256, path: seq<ChartTick>, upward: bool, quoteUsd: string)
    requires path != []
    ensures var point := PointAt(active, path[0], upward, quoteUsd);
            Prefixed(points, Walk(active, path, upward, quoteUsd)) ==
            if point.Err? then Err(point.error)
            else Prefixed(points + [point.value], Walk(point.value.activeLiquidity, path[1..], upward, quoteUsd))
  {
    hide PointAt;
    var point := PointAt(active, path[0], upward, quoteUsd);
    if point.Ok? {
      var rest := Walk(point.value.activeLiquidity, path[1..], upward, quoteUsd);
      if rest.Ok? {
        assert points + ([point.value] + rest.value) == points + [point.value] + rest.value;
      }
    }
  }

  /** `filter` on the side of the current tick: at or below it, or above it. */
  function Side(ticks: seq<ChartTick>, current: int, above: bool): seq<ChartTick> {
    if ticks == [] then []
    else (if (ticks[0].index > current) == above then [ticks[0]] else []) + Side(ticks[1..], current, above)
  }

  /** The whole chart: the lower side back in ascending order, the current price, the upper side. */
  function Chart(pool: ChartPool, ticks: seq<ChartTick>, quoteUsd: string): Result<seq<Point>, string> {
    var below :- Walk(pool.liquidity, Reverse(Side(ticks, pool.tick, false)), false, quoteUsd);
    var middle :- DecimalProduct(pool.pairPrice, quoteUsd);
    var above :- Walk(pool.liquidity, Side(ticks, pool.tick, true), true, quoteUsd);
    Ok(Reverse(below) + [Point(middle, pool.liquidity)] + above)
  }

  /** One of the two loops: `active` is carried from tick to tick, each tick charts a point. */
  method WalkSide(start: U256, path: seq<ChartTick>, upward: bool, quoteUsd: string)
      returns (r: Result<seq<Point>, string>)
    ensures r == Walk(start, path, upward, quoteUsd)
  {
    hide PointAt, Walk;
    var points: seq<Point> := [];
    var active := start;
    var i := 0;
    NoPrefix(Walk(start, path, upward, quoteUsd));
    assert path[0..] == path;
    while i < |path|
      invariant 0 <= i <= |path|
      invariant Walk(start, path, upward, quoteUsd) == Prefixed(points, Walk(active, path[i..], upward, quoteUsd))
    {
      WalkStep(points, active, path[i..], upward, quoteUsd);
      assert path[i..][1..] == path[i + 1..];
      var point := PointAt(active, path[i], upward, quoteUsd);
      if point.Err? {
        return Err(point.error);
      }
      active := point.value.activeLiquidity;
      points := points + [point.value];
      i := i + 1;
    }
    WalkEnds(active, upward, quoteUsd);
    assert path[i..] == [] && points + [] == points;
    r := Ok(points);
  }

  lemma NoPrefix(r: Result<seq<Point>, string>)
    ensures Prefixed([], r) == r
  {
    if r.Ok? {
      assert [] + r.value == r.value;
    }
  }

  lemma WalkEnds(active: U256, upward: bool, quoteUsd: string)
    ensures Walk(active, [], upward, quoteUsd) == Ok([])
  {
  }

  /** liquidity_points. */
  method LiquidityPoints(pool: ChartPool, ticks: seq<ChartTick>, quoteUsd: string)
      returns (r: Result<seq<Point>, string>)
    ensures r == Chart(pool, ticks, quoteUsd)
  {
    hide Walk, DecimalProduct;
    var below := WalkSide(pool.liquidity, Reverse(Side(ticks, pool.tick, false)), false, quoteUsd);
    if below.Err? {
      return below;
    }
    var middle := DecimalProduct(pool.pairPrice, quoteUsd);
    if middle.Err? {
      return Err(middle.error);
    }
    var points := Reverse(below.value) + [Point(middle.value, pool.liquidity)];
    var above := WalkSide(pool.liquidity, Side(ticks, pool.tick, true), true, quoteUsd);
    if above.Err? {
      return above;
    }
    r := Ok(points + above.value);
  }

  // ---------------------------------------------------------------- what the chart shows

  predicate AllParse(path: seq<ChartTick>) {
    forall i :: 0 <= i < |path| ==> path[i].net.magnitude.Some?
  }

  /** The liquidity gained over the first `k` ticks of a walk. */
  function Gained(path: seq<ChartTick>, upward: bool, k: nat): int
    requires AllParse(path) && k <= |path|
  {
    if k == 0 then 0 else Gained(path, upward, k - 1) + Change(path[k - 1].net, upward)
  }

  lemma {:induction false} GainedFromHead(path: seq<ChartTick>, upward: bool, k: nat)
    requires AllParse(path) && 0 < k <= |path|
    ensures AllParse(path[1..])
    ensures Gained(path, upward, k) == Change(path[0].net, upward) + Gained(path[1..], upward, k - 1)
  {
    if k > 1 {
      GainedFromHead(path, upward, k - 1);
      assert path[1..][k - 2] == path[k - 1];
    }
  }

  /** A walk that succeeds charts, at each tick, the starting liquidity plus everything gained up to it, at the
      exact product of the tick's price and the quote's. */
  lemma {:induction false} WalkIsPrefixSum(active: U256, path: seq<ChartTick>, upward: bool, quoteUsd: string, k: nat)
    requires Walk(active, path, upward, quoteUsd).Ok? && k < |path|
    ensures AllParse(path)
    ensures var points := Walk(active, path, upward, quoteUsd).value;
            && |points| == |path|
            && points[k].activeLiquidity == active + Gained(path, upward, k + 1)
            && DecimalProduct(path[k].pairPrice, quoteUsd) == Ok(points[k].priceUsd)
    decreases |path|
  {
    hide DecimalProduct;
    var point := PointAt(active, path[0], upward, quoteUsd).value;
    AppliesSignedNet(active, path[0].net, upward);
    WalkParses(active, path, upward, quoteUsd);
    GainedFromHead(path, upward, k + 1);
    if k > 0 {
      WalkIsPrefixSum(point.activeLiquidity, path[1..], upward, quoteUsd, k - 1);
    }
  }

  lemma {:induction false} WalkParses(active: U256, path: seq<ChartTick>, upward: bool, quoteUsd: string)
    requires Walk(active, path, upward, quoteUsd).Ok?
    ensures AllParse(path) && |Walk(active, path, upward, quoteUsd).value| == |path|
    decreases |path|
  {
    hide DecimalProduct;
    if path != [] {
      WalkParses(PointAt(active, path[0], upward, quoteUsd).value.activeLiquidity, path[1..], upward, quoteUsd);
      forall i | 0 <= i < |path| ensures path[i].net.magnitude.Some? {
        if i > 0 { assert path[i] == path[1..][i - 1]; }
      }
    }
  }

  /** A walk succeeds exactly when every net parses, the liquidity stays an unsigned 256-bit integer all the way, and
      every price can be formed. */
  lemma {:induction false} WalkSucceedsIff(active: U256, path: seq<ChartTick>, upward: bool, quoteUsd: string)
    ensures Walk(active, path, upward, quoteUsd).Ok? <==>
            && AllParse(path)
            && forall k :: 0 <= k < |path| ==> StepSucceeds(active, path, upward, quoteUsd, k)
    decreases |path|
  {
    hide DecimalProduct;
    if path != [] && path[0].net.magnitude.Some? {
      AppliesSignedNet(active, path[0].net, upward);
      var point := PointAt(active, path[0], upward, quoteUsd);
      ParseHeadAndRest(path);
      if AllParse(path) {
        assert Gained(path, upward, 1) == Gained(path, upward, 0) + Change(path[0].net, upward);
      }
      if point.Ok? {
        WalkSucceedsIff(point.value.activeLiquidity, path[1..], upward, quoteUsd);
        if AllParse(path) {
          StepsShift(active, point.value.activeLiquidity, path, upward, quoteUsd);
        }
      } else if AllParse(path) {
        assert !StepSucceeds(active, path, upward, quoteUsd, 0);
      }
    }
  }

  predicate StepSucceeds(active: U256, path: seq<ChartTick>, upward: bool, quoteUsd: string, k: nat)
    requires AllParse(path) && k < |path|
  {
    0 <= active + Gained(path, upward, k + 1) < TWO256 && DecimalProduct(path[k].pairPrice, quoteUsd).Ok?
  }

  lemma ParseHeadAndRest(path: seq<ChartTick>)
    requires path != []
    ensures AllParse(path) <==> path[0].net.magnitude.Some? && AllParse(path[1..])
  {
    assert forall i :: 0 < i < |path| ==> path[i] == path[1..][i - 1];
  }

  lemma StepsShift(active: U256, next: U256, path: seq<ChartTick>, upward: bool, quoteUsd: string)
    requires AllParse(path) && path != [] && next == active + Change(path[0].net, upward)
    ensures AllParse(path[1..])
    ensures (forall k :: 0 <= k < |path| ==> StepSucceeds(active, path, upward, quoteUsd, k)) <==>
            StepSucceeds(active, path, upward, quoteUsd, 0)
            && forall k :: 0 <= k < |path[1..]| ==> StepSucceeds(next, path[1..], upward, quoteUsd, k)
  {
    hide DecimalProduct, Gained;
    forall k | 0 <= k < |path[1..]|
      ensures StepSucceeds(next, path[1..], upward, quoteUsd, k)
              <==> StepSucceeds(active, path, upward, quoteUsd, k + 1)
    {
      GainedFromHead(path, upward, k + 2);
    }
    if forall k :: 0 <= k < |path[1..]| ==> StepSucceeds(next, path[1..], upward, quoteUsd, k) {
      forall k | 0 < k < |path| ensures StepSucceeds(active, path, upward, quoteUsd, k) {
        assert StepSucceeds(next, path[1..], upward, quoteUsd, k - 1);
      }
    }
  }

  /** The signed net liquidity of the ticks from `i` up to but not including `j`. */
  function NetBetween(path: seq<ChartTick>, i: nat, j: nat): int
    requires AllParse(path) && i <= j <= |path|
  {
    if i == j then 0 else NetBetween(path, i, j - 1) + Signed(path[j - 1].net)
  }

  lemma {:induction false} NetFromLeft(path: seq<ChartTick>, i: nat, j: nat)
    requires AllParse(path) && i < j <= |path|
    ensures NetBetween(path, i, j) == Signed(path[i].net) + NetBetween(path, i + 1, j)
  {
    if i + 1 < j {
      NetFromLeft(path, i, j - 1);
    }
  }

  /** Going up gains the net of the ticks passed. */
  lemma {:induction false} GainedAbove(low: seq<ChartTick>, high: seq<ChartTick>, k: nat)
    requires AllParse(low) && AllParse(high) && k <= |high|
    ensures AllParse(low + high) && Gained(high, true, k) == NetBetween(low + high, |low|, |low| + k)
  {
    if k > 0 {
      GainedAbove(low, high, k - 1);
      assert (low + high)[|low| + k - 1] == high[k - 1];
    }
  }

  /** Going down loses it. */
  lemma {:induction false} GainedBelow(low: seq<ChartTick>, high: seq<ChartTick>, k: nat)
    requires AllParse(low) && AllParse(high) && k <= |low|
    ensures AllParse(low + high) && AllParse(Reverse(low))
    ensures Gained(Reverse(low), false, k) == -NetBetween(low + high, |low| - k, |low|)
  {
    if k > 0 {
      GainedBelow(low, high, k - 1);
      NetFromLeft(low + high, |low| - k, |low|);
      assert Reverse(low)[k - 1] == low[|low| - k] == (low + high)[|low| - k];
    }
  }

  /** The ticks in the order of the chart: those at or below the current tick, then those above it. */
  function Charted(pool: ChartPool, ticks: seq<ChartTick>): seq<ChartTick> {
    Side(ticks, pool.tick, false) + Side(ticks, pool.tick, true)
  }

  lemma {:induction false} SidesSplit(ticks: seq<ChartTick>, current: int, above: bool, k: nat)
    requires k < |Side(ticks, current, above)|
    ensures Side(ticks, current, above)[k] in ticks && (Side(ticks, current, above)[k].index > current) == above
  {
    var here := if (ticks[0].index > current) == above then [ticks[0]] else [];
    if k >= |here| {
      SidesSplit(ticks[1..], current, above, k - |here|);
    }
  }

  predicate Ascending(ticks: seq<ChartTick>) {
    forall i, j :: 0 <= i < j < |ticks| ==> ticks[i].index < ticks[j].index
  }

  lemma {:induction false} NoneBelow(ticks: seq<ChartTick>, current: int)
    requires forall i :: 0 <= i < |ticks| ==> ticks[i].index > current
    ensures Side(ticks, current, false) == [] && Side(ticks, current, true) == ticks
  {
    if ticks != [] {
      NoneBelow(ticks[1..], current);
      assert [ticks[0]] + ticks[1..] == ticks;
    }
  }

  lemma HeadBelow(pool: ChartPool, ticks: seq<ChartTick>)
    requires ticks != [] && ticks[0].index <= pool.tick
    ensures Charted(pool, ticks) == [ticks[0]] + Charted(pool, ticks[1..])
  {
    var below, above := Side(ticks[1..], pool.tick, false), Side(ticks[1..], pool.tick, true);
    assert Side(ticks, pool.tick, false) == [ticks[0]] + below && Side(ticks, pool.tick, true) == [] + above;
    hide Side;
    assert [ticks[0]] + below + ([] + above) == [ticks[0]] + (below + above);
  }

  /** Ticks that arrive in ascending order are charted in that order, none left out. */
  lemma {:induction false} ChartKeepsOrder(pool: ChartPool, ticks: seq<ChartTick>)
    requires Ascending(ticks)
    ensures Charted(pool, ticks) == ticks
  {
    if ticks == [] {
      assert Side(ticks, pool.tick, false) == [];
    } else if ticks[0].index > pool.tick {
      NoneBelow(ticks, pool.tick);
      assert [] + ticks == ticks;
    } else {
      hide Charted;
      ChartKeepsOrder(pool, ticks[1..]);
      HeadBelow(pool, ticks);
    }
  }

  lemma ChartParts(pool: ChartPool, ticks: seq<ChartTick>, quoteUsd: string)
    requires Chart(pool, ticks, quoteUsd).Ok?
    ensures var low, high := Side(ticks, pool.tick, false), Side(ticks, pool.tick, true);
            && AllParse(low) && AllParse(high) && AllParse(Charted(pool, ticks)) && AllParse(Reverse(low))
            && Walk(pool.liquidity, Reverse(low), false, quoteUsd).Ok? && Walk(pool.liquidity, high, true, quoteUsd).Ok?
            && |Walk(pool.liquidity, Reverse(low), false, quoteUsd).value| == |low|
            && |Walk(pool.liquidity, high, true, quoteUsd).value| == |high|
  {
    hide Walk, DecimalProduct, Side;
    var low, high := Side(ticks, pool.tick, false), Side(ticks, pool.tick, true);
    WalkParses(pool.liquidity, Reverse(low), false, quoteUsd);
    WalkParses(pool.liquidity, high, true, quoteUsd);
    forall i | 0 <= i < |low| ensures low[i].net.magnitude.Some? {
      assert low[i] == Reverse(low)[|low| - 1 - i];
    }
  }

  /** A chart point below the current price. */
  lemma PointBelow(pool: ChartPool, ticks: seq<ChartTick>, quoteUsd: string, i: nat)
    requires Chart(pool, ticks, quoteUsd).Ok? && i < |Side(ticks, pool.tick, false)|
    ensures AllParse(Charted(pool, ticks))
    ensures var points, path := Chart(pool, ticks, quoteUsd).value, Charted(pool, ticks);
            var n := |Side(ticks, pool.tick, false)|;
            && i < |points| && n <= |path| && path[i].index <= pool.tick
            && points[i].activeLiquidity == pool.liquidity - NetBetween(path, i, n)
            && DecimalProduct(path[i].pairPrice, quoteUsd) == Ok(points[i].priceUsd)
  {
    hide Walk, DecimalProduct, Side, Gained, NetBetween;
    ChartParts(pool, ticks, quoteUsd);
    var low, high := Side(ticks, pool.tick, false), Side(ticks, pool.tick, true);
    SidesSplit(ticks, pool.tick, false, i);
    WalkIsPrefixSum(pool.liquidity, Reverse(low), false, quoteUsd, |low| - 1 - i);
    GainedBelow(low, high, |low| - i);
  }

  /** A chart point above it. */
  lemma PointAbove(pool: ChartPool, ticks: seq<ChartTick>, quoteUsd: string, i: nat)
    requires Chart(pool, ticks, quoteUsd).Ok? && |Side(ticks, pool.tick, false)| <= i < |Charted(pool, ticks)|
    ensures AllParse(Charted(pool, ticks))
    ensures var points, path := Chart(pool, ticks, quoteUsd).value, Charted(pool, ticks);
            var n := |Side(ticks, pool.tick, false)|;
            && i + 1 < |points| && path[i].index > pool.tick
            && points[i + 1].activeLiquidity == pool.liquidity + NetBetween(path, n, i + 1)
            && DecimalProduct(path[i].pairPrice, quoteUsd) == Ok(points[i + 1].priceUsd)
  {
    hide Walk, DecimalProduct, Side, Gained, NetBetween;
    ChartParts(pool, ticks, quoteUsd);
    var low, high := Side(ticks, pool.tick, false), Side(ticks, pool.tick, true);
    var k := i - |low|;
    SidesSplit(ticks, pool.tick, true, k);
    WalkIsPrefixSum(pool.liquidity, high, true, quoteUsd, k);
    GainedAbove(low, high, k + 1);
  }

  lemma ChartShape(pool: ChartPool, ticks: seq<ChartTick>, quoteUsd: string)
    requires Chart(pool, ticks, quoteUsd).Ok?
    ensures AllParse(Charted(pool, ticks))
    ensures var points, path := Chart(pool, ticks, quoteUsd).value, Charted(pool, ticks);
            var n := |Side(ticks, pool.tick, false)|;
            && |points| == |path| + 1 && n <= |path|
            && points[n].activeLiquidity == pool.liquidity
            && DecimalProduct(pool.pairPrice, quoteUsd) == Ok(points[n].priceUsd)
  {
    hide Walk, DecimalProduct, Side;
    ChartParts(pool, ticks, quoteUsd);
  }

  /** What the chart shows at tick `i`: below the current price the pool's liquidity less the net of all ticks
      from there up to it, above it the pool's liquidity plus the net of all ticks up to and including this one. */
  predicate ShowsTick(pool: ChartPool, path: seq<ChartTick>, n: nat, quoteUsd: string, points: seq<Point>, i: nat)
    requires AllParse(path) && n <= |path| && i < |path| && |points| == |path| + 1
  {
    if i < n then
      path[i].index <= pool.tick && points[i].activeLiquidity == pool.liquidity - NetBetween(path, i, n)
      && DecimalProduct(path[i].pairPrice, quoteUsd) == Ok(points[i].priceUsd)
    else
      path[i].index > pool.tick && points[i + 1].activeLiquidity == pool.liquidity + NetBetween(path, n, i + 1)
      && DecimalProduct(path[i].pairPrice, quoteUsd) == Ok(points[i + 1].priceUsd)
  }

  /** The whole chart: one point per tick and one for the current price, between the two sides. */
  lemma ChartIsProfile(pool: ChartPool, ticks: seq<ChartTick>, quoteUsd: string)
    requires Chart(pool, ticks, quoteUsd).Ok?
    ensures AllParse(Charted(pool, ticks))
    ensures var points, path := Chart(pool, ticks, quoteUsd).value, Charted(pool, ticks);
            var n := |Side(ticks, pool.tick, false)|;
            && |points| == |path| + 1 && n <= |path|
            && points[n].activeLiquidity == pool.liquidity
            && DecimalProduct(pool.pairPrice, quoteUsd) == Ok(points[n].priceUsd)
            && forall i :: 0 <= i < |path| ==> ShowsTick(pool, path, n, quoteUsd, points, i)
  {
    hide Walk, DecimalProduct, Side, NetBetween, Chart, Charted, ShowsTick;
    ChartShape(pool, ticks, quoteUsd);
    var points, path := Chart(pool, ticks, quoteUsd).value, Charted(pool, ticks);
    forall i | 0 <= i < |path| ensures ShowsTick(pool, path, |Side(ticks, pool.tick, false)|, quoteUsd, points, i) {
      TickIsShown(pool, ticks, quoteUsd, i);
    }
  }

  lemma TickIsShown(pool: ChartPool, ticks: seq<ChartTick>, quoteUsd: string, i: nat)
    requires Chart(pool, ticks, quoteUsd).Ok? && i < |Charted(pool, ticks)|
    ensures AllParse(Charted(pool, ticks))
    ensures var points, path := Chart(pool, ticks, quoteUsd).value, Charted(pool, ticks);
            var n := |Side(ticks, pool.tick, false)|;
            |points| == |path| + 1 && n <= |path| && ShowsTick(pool, path, n, quoteUsd, points, i)
  {
    hide Walk, DecimalProduct, Side, NetBetween, Chart, Charted;
    ChartShape(pool, ticks, quoteUsd);
    if i < |Side(ticks, pool.tick, false)| {
      PointBelow(pool, ticks, quoteUsd, i);
    } else {
      PointAbove(pool, ticks, quoteUsd, i);
    }
  }
}

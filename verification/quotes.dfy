/** Route weights and price impact of a quote (src/api/quote.rs, `handle_quote_inner`), over exact reals. */
module Quotes {
  import opened Models
  import opened SwapSimulation
  import opened OrderSplit
  import opened TickSwap

  datatype RouteStep = RouteStep(dexName: string, poolAddress: string, weight: nat)

  /** Pools, tick data and price curve behind a quote. */
  datatype Depth = Depth(pools: Pools, ticks: Ticks, curve: int -> real)
  {
    ghost predicate Valid() {
      SanePools(pools) && IsPriceCurve(curve)
    }
  }

  /** `alloc / amount`, the share of the order a split carries. */
  function Share(alloc: nat, amountIn: nat): (s: real)
    requires amountIn > 0
    ensures s >= 0.0 && s * amountIn as real == alloc as real
  {
    alloc as real / amountIn as real
  }

  lemma ShareAdds(a: nat, b: nat, amountIn: nat)
    requires amountIn > 0
    ensures Share(a + b, amountIn) == Share(a, amountIn) + Share(b, amountIn)
  {
    var n, x, y := amountIn as real, Share(a, amountIn), Share(b, amountIn);
    Distributes(n, x, y);
    CancelFactor(n, Share(a + b, amountIn), x + y);
  }

  lemma Distributes(n: real, x: real, y: real)
    ensures (x + y) * n == x * n + y * n
  {
  }

  lemma ShareOfAll(amountIn: nat)
    requires amountIn > 0
    ensures Share(amountIn, amountIn) == 1.0
  {
    CancelFactor(amountIn as real, Share(amountIn, amountIn), 1.0);
  }

  /** The percentage shown for a split, rounded down. */
  function Percent(alloc: nat, amountIn: nat): nat
    requires amountIn > 0
  {
    (Share(alloc, amountIn) * 100.0).Floor
  }

  lemma PercentRounds(alloc: nat, amountIn: nat)
    requires amountIn > 0
    ensures Percent(alloc, amountIn) * amountIn <= alloc * 100 < (Percent(alloc, amountIn) + 1) * amountIn
  {
    var s, pct := Share(alloc, amountIn), Percent(alloc, amountIn);
    FloorRounds(s * 100.0, pct);
    Rescale(s, amountIn as real, alloc as real);
    ScaledRounding(pct, s * 100.0, amountIn, alloc * 100);
  }

  lemma FloorRounds(x: real, n: int)
    requires n == x.Floor
    ensures n as real <= x < (n + 1) as real
  {
  }

  lemma ScaledRounding(n: nat, x: real, d: nat, product: nat)
    requires n as real <= x < (n + 1) as real && d > 0 && x * d as real == product as real
    ensures n * d <= product < (n + 1) * d
  {
    RealProduct(n, d);
    RealProduct(n + 1, d);
    ScaleBetween(n as real, x, (n + 1) as real, d as real,
                 (n * d) as real, product as real, ((n + 1) * d) as real);
  }

  lemma Rescale(s: real, a: real, n: real)
    requires s * a == n
    ensures (s * 100.0) * a == n * 100.0
  {
  }

  lemma RealProduct(x: nat, y: nat)
    ensures x as real * y as real == (x * y) as real
  {
  }

  lemma ScaleBetween(x: real, y: real, z: real, a: real, lower: real, middle: real, upper: real)
    requires x <= y < z && a > 0.0 && x * a == lower && y * a == middle && z * a == upper
    ensures lower <= middle < upper
  {
    MulPos(z - y, a);
    MulNonNeg(y - x, a);
    assert (z - y) * a == upper - middle && (y - x) * a == middle - lower;
  }

  function Clamp01(x: real): (r: real)
    ensures 0.0 <= r <= 1.0
  {
    if x < 0.0 then 0.0 else if x > 1.0 then 1.0 else x
  }

  function Out(d: Depth, hop: SwapHop, amount: real): SwapSimulationResult
    requires d.Valid() && hop.poolId in d.pools
  {
    SimulateHop(d.pools[hop.poolId], TicksOf(d.ticks, hop.poolId), hop, amount, d.curve)
  }

  /** What a hop loses against trading everything at the spot price. */
  function HopImpact(d: Depth, hop: SwapHop, amount: real): (r: real)
    requires d.Valid() && hop.poolId in d.pools
    ensures 0.0 <= r <= 1.0
  {
    var ideal := Ideal(d, hop, amount);
    if ideal > 0.0 then Clamp01(1.0 - Out(d, hop, amount).amountOut / ideal) else 1.0
  }

  /** The output at the spot price. */
  function Ideal(d: Depth, hop: SwapHop, amount: real): real
    requires d.Valid() && hop.poolId in d.pools
  {
    amount * Out(d, hop, 0.0).marginalPrice
  }

  /** The part of `survival` left after the hops; hops without a pool are passed over. */
  function Survival(d: Depth, hops: seq<SwapHop>, amount: real, survival: real): (r: real)
    requires d.Valid() && 0.0 <= survival <= 1.0
    ensures 0.0 <= r <= survival
    decreases |hops|
  {
    if hops == [] then survival
    else if hops[0].poolId !in d.pools then Survival(d, hops[1..], amount, survival)
    else
      Survival(d, hops[1..], Out(d, hops[0], amount).amountOut,
               Keep(survival, HopImpact(d, hops[0], amount)))
  }

  /** `survival * (1 - impact)` */
  function Keep(survival: real, impact: real): (r: real)
    requires 0.0 <= survival && 0.0 <= impact <= 1.0
    ensures 0.0 <= r <= survival
  {
    Dampen(survival, 1.0 - impact);
    survival * (1.0 - impact)
  }

  lemma Dampen(a: real, b: real)
    requires a >= 0.0 && 0.0 <= b <= 1.0
    ensures 0.0 <= a * b <= a
  {
  }

  /** `share * impact` */
  function Weigh(share: real, impact: real): (r: real)
    requires 0.0 <= share && 0.0 <= impact <= 1.0
    ensures 0.0 <= r <= share
  {
    Dampen(share, impact);
    share * impact
  }

  function PathImpact(d: Depth, s: Split): (r: real)
    requires d.Valid()
    ensures 0.0 <= r <= 1.0
  {
    1.0 - Survival(d, s.route.hops, s.allocIn as real, 1.0)
  }

  /** What one split adds to the impact; splits shown with weight zero add nothing. */
  function Contribution(d: Depth, s: Split, amountIn: nat): (r: real)
    requires d.Valid() && amountIn > 0
    ensures 0.0 <= r <= Share(s.allocIn, amountIn)
  {
    if Percent(s.allocIn, amountIn) == 0 then 0.0 else Weigh(Share(s.allocIn, amountIn), PathImpact(d, s))
  }

  function Impact(d: Depth, splits: seq<Split>, amountIn: nat): real
    requires d.Valid() && amountIn > 0
  {
    if splits == [] then 0.0
    else Impact(d, splits[..|splits| - 1], amountIn) + Contribution(d, splits[|splits| - 1], amountIn)
  }

  function TotalWeight(splits: seq<Split>, amountIn: nat): nat
    requires amountIn > 0
  {
    if splits == [] then 0
    else TotalWeight(splits[..|splits| - 1], amountIn) + Percent(splits[|splits| - 1].allocIn, amountIn)
  }

  /** One step per hop of every split with a positive weight, in order. */
  function StepsOf(splits: seq<Split>, amountIn: nat): seq<RouteStep>
    requires amountIn > 0
  {
    if splits == [] then []
    else
      var last := splits[|splits| - 1];
      StepsOf(splits[..|splits| - 1], amountIn) + StepsOfSplit(last, amountIn)
  }

  function StepsOfSplit(s: Split, amountIn: nat): seq<RouteStep>
    requires amountIn > 0
  {
    var pct := Percent(s.allocIn, amountIn);
    if pct == 0 then [] else HopSteps(s.route.hops, pct)
  }

  function HopSteps(hops: seq<SwapHop>, pct: nat): (steps: seq<RouteStep>)
    ensures |steps| == |hops|
  {
    seq(|hops|, i requires 0 <= i < |hops| => RouteStep(hops[i].dexName, hops[i].poolId, pct))
  }

  /** Any splits: the impact is at most the share of the order they carry. */
  lemma {:induction false} ImpactWithinShare(d: Depth, splits: seq<Split>, amountIn: nat)
    requires d.Valid() && amountIn > 0
    ensures 0.0 <= Impact(d, splits, amountIn) <= Share(SumIn(splits), amountIn)
  {
    if splits != [] {
      var front, last := splits[..|splits| - 1], splits[|splits| - 1];
      ImpactWithinShare(d, front, amountIn);
      ShareAdds(SumIn(front), last.allocIn, amountIn);
    }
  }

  /** Any splits: rounding down loses less than one percent point per split. */
  lemma {:induction false} WeightsRound(splits: seq<Split>, amountIn: nat)
    requires amountIn > 0
    ensures TotalWeight(splits, amountIn) * amountIn <= SumIn(splits) * 100
    ensures splits != [] ==> SumIn(splits) * 100 < (TotalWeight(splits, amountIn) + |splits|) * amountIn
  {
    if splits != [] {
      var front, last := splits[..|splits| - 1], splits[|splits| - 1];
      WeightsRound(front, amountIn);
      PercentRounds(last.allocIn, amountIn);
      var w, pct := TotalWeight(front, amountIn), Percent(last.allocIn, amountIn);
      assert (w + pct) * amountIn == w * amountIn + pct * amountIn;
      assert (w + |front| + (pct + 1)) * amountIn == (w + |front|) * amountIn + (pct + 1) * amountIn;
    }
  }

  lemma FactorBound(a: nat, b: nat, c: nat)
    requires c > 0
    ensures a * c <= b * c ==> a <= b
    ensures a * c < b * c ==> a < b
  {
  }

  lemma WeightsInRange(splits: seq<Split>, amountIn: nat)
    requires amountIn > 0 && splits != [] && SumIn(splits) == amountIn
    ensures 100 - |splits| < TotalWeight(splits, amountIn) <= 100
  {
    WeightsRound(splits, amountIn);
    FactorBound(TotalWeight(splits, amountIn), 100, amountIn);
    FactorBound(100, TotalWeight(splits, amountIn) + |splits|, amountIn);
  }

  /** For an order split without remainder the weights fall short of 100 by less than one point per
      split, and the impact is a fraction. */
  lemma QuoteInRange(d: Depth, splits: seq<Split>, routes: seq<RoutePath>, amountIn: nat)
    requires d.Valid() && amountIn > 0 && splits != [] && Conserves(splits, routes, amountIn)
    ensures 100 - |splits| < TotalWeight(splits, amountIn) <= 100
    ensures 0.0 <= Impact(d, splits, amountIn) <= 1.0
  {
    WeightsInRange(splits, amountIn);
    ImpactWithinShare(d, splits, amountIn);
    ShareOfAll(amountIn);
  }

  /** The quote loop. */
  method QuoteSplits(d: Depth, splits: seq<Split>, amountIn: nat, ghost routes: seq<RoutePath>)
    returns (priceImpact: real, steps: seq<RouteStep>)
    requires d.Valid() && amountIn > 0
    ensures priceImpact == Impact(d, splits, amountIn) && steps == StepsOf(splits, amountIn)
    ensures splits != [] && Conserves(splits, routes, amountIn) ==>
        0.0 <= priceImpact <= 1.0 && 100 - |splits| < TotalWeight(splits, amountIn) <= 100
  {
    priceImpact, steps := 0.0, [];
    for i := 0 to |splits|
      invariant priceImpact == Impact(d, splits[..i], amountIn)
      invariant steps == StepsOf(splits[..i], amountIn)
    {
      assert splits[..i + 1][..i] == splits[..i] && splits[..i + 1][i] == splits[i];
      var s := splits[i];
      var pct := Percent(s.allocIn, amountIn);
      if pct > 0 {
        var survival := SurviveRoute(d, s);
        priceImpact := priceImpact + Weigh(Share(s.allocIn, amountIn), 1.0 - survival);
        steps := steps + HopSteps(s.route.hops, pct);
      }
    }
    assert splits[..|splits|] == splits;
    if splits != [] && Conserves(splits, routes, amountIn) {
      QuoteInRange(d, splits, routes, amountIn);
    }
  }

  method SurviveRoute(d: Depth, s: Split) returns (survival: real)
    requires d.Valid()
    ensures survival == 1.0 - PathImpact(d, s)
  {
    survival := 1.0;
    var current := s.allocIn as real;
    var hops := s.route.hops;
    for k := 0 to |hops|
      invariant 0.0 <= survival <= 1.0
      invariant Survival(d, hops[k..], current, survival) == Survival(d, hops, s.allocIn as real, 1.0)
    {
      var hop := hops[k];
      assert hops[k..][0] == hop && hops[k..][1..] == hops[k + 1..];
      if hop.poolId in d.pools {
        var impact := HopImpact(d, hop, current);
        survival := Keep(survival, impact);
        current := Out(d, hop, current).amountOut;
      }
    }
  }

  /** Without tick data the clamp never acts: a swap never beats the spot price, so the impact of a
      positive input is exactly the shortfall against it. */
  lemma WithinTickImpact(d: Depth, hop: SwapHop, amount: real)
    requires d.Valid() && hop.poolId in d.pools && hop.poolId !in d.ticks
    requires d.pools[hop.poolId].liquidity > 0 && d.pools[hop.poolId].feeRate < 1000000 && amount > 0.0
    ensures var ideal := Ideal(d, hop, amount);
      ideal > 0.0 && HopImpact(d, hop, amount) == 1.0 - Out(d, hop, amount).amountOut / ideal
  {
    var pool := d.pools[hop.poolId];
    var swap, spot := SimulateHopWithinTick(pool, hop, amount), SimulateHopWithinTick(pool, hop, 0.0);
    assert Out(d, hop, amount) == swap && Out(d, hop, 0.0) == spot;
    WithinTickConcave(pool, hop, 0.0, amount);
    WithinMonotone(pool, hop, amount, amount);
    SpotPositive(pool, hop);
    MulPos(amount, spot.marginalPrice);
    BelowProduct(swap.amountOut, spot.amountOut, spot.marginalPrice, amount);
    Shortfall(Out(d, hop, amount).amountOut, Ideal(d, hop, amount));
  }

  lemma BelowProduct(out: real, start: real, rate: real, amount: real)
    requires start == 0.0 && out - start <= Times(rate, amount - 0.0)
    ensures out <= amount * rate
  {
  }

  lemma Shortfall(out: real, ideal: real)
    requires 0.0 <= out <= ideal && ideal > 0.0
    ensures Clamp01(1.0 - out / ideal) == 1.0 - out / ideal
  {
    FractionOf(out, ideal);
  }

  lemma SpotPositive(pool: PoolState, hop: SwapHop)
    requires Sane(pool) && pool.liquidity > 0 && pool.feeRate < 1000000
    ensures SpotMarginal(pool, hop) > 0.0
  {
    var x, y := PoolIn(pool, hop), PoolOut(pool, hop);
    MulPos(y, x);
    MulPos(x + 0.0, x + 0.0);
    DivPos(y * x, (x + 0.0) * (x + 0.0));
    AfterFeePositive(pool, ProductSlope(x, y, 0.0));
  }

  lemma FractionOf(part: real, whole: real)
    requires 0.0 <= part <= whole && whole > 0.0
    ensures 0.0 <= part / whole <= 1.0
  {
  }
}

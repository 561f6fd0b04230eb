/** How good the order split is: the bisection finds the price at which the routes take up the order, and over
    routes without tick data no other division of the same amount gives noticeably more. */
module OrderQuality {
  import opened Models
  import opened TickSwap
  import opened SwapSimulation
  import opened OrderSplit

  // ----- the bisection finds the threshold, for every simulator

  lemma {:induction false} NarrowInside(sim: Simulator, route: RoutePath, target: real, r: Range)
    requires r.low <= r.high
    ensures var e := Narrow(sim, route, target, r); r.low <= e.low <= e.high <= r.high
    decreases r.steps
  {
    if r.steps > 0 {
      HalfWay(r.low, r.high);
      var mid := (r.low + r.high) / 2.0;
      NarrowInside(sim, route, target, Range(mid, r.high, r.steps - 1));
      NarrowInside(sim, route, target, Range(r.low, mid, r.steps - 1));
    }
  }

  /** A higher target ends no higher: the two runs go the same way until the lower target goes up alone. */
  lemma {:induction false} NarrowMonotone(sim: Simulator, route: RoutePath, t: real, u: real, r: Range)
    requires t <= u && r.low <= r.high
    ensures var e, f := Narrow(sim, route, t, r), Narrow(sim, route, u, r); f.low <= e.low && f.high <= e.high
    decreases r.steps
  {
    if r.steps > 0 {
      HalfWay(r.low, r.high);
      var mid := (r.low + r.high) / 2.0;
      var up, down := Range(mid, r.high, r.steps - 1), Range(r.low, mid, r.steps - 1);
      if sim(route, mid).1 > u {
        NarrowMonotone(sim, route, t, u, up);
      } else if sim(route, mid).1 > t {
        NarrowInside(sim, route, t, up);
        NarrowInside(sim, route, u, down);
      } else {
        NarrowMonotone(sim, route, t, u, down);
      }
    }
  }

  lemma AllocationMonotone(sim: Simulator, route: RoutePath, t: real, u: real, total: real)
    requires t <= u && total >= 0.0
    ensures SolveAllocation(sim, route, u, total) <= SolveAllocation(sim, route, t, total)
  {
    NarrowMonotone(sim, route, t, u, Range(0.0, total, INNER_STEPS));
    NarrowInside(sim, route, t, Range(0.0, total, INNER_STEPS));
  }

  lemma {:induction false} SumMono(a: seq<real>, b: seq<real>)
    requires |a| == |b| && forall i :: 0 <= i < |a| ==> a[i] <= b[i]
    ensures Sum(a) <= Sum(b)
  {
    if a != [] {
      SumMono(a[..|a| - 1], b[..|b| - 1]);
    }
  }

  /** The higher the target marginal, the less is allocated in all. */
  lemma TotalMonotone(sim: Simulator, routes: seq<RoutePath>, t: real, u: real, total: real)
    requires t <= u && total >= 0.0
    ensures Sum(Allocations(sim, routes, u, total)) <= Sum(Allocations(sim, routes, t, total))
  {
    forall i | 0 <= i < |routes|
      ensures Allocations(sim, routes, u, total)[i] <= Allocations(sim, routes, t, total)[i]
    {
      AllocationMonotone(sim, routes[i], t, u, total);
    }
    SumMono(Allocations(sim, routes, u, total), Allocations(sim, routes, t, total));
  }

  predicate Fits(sim: Simulator, routes: seq<RoutePath>, target: real, total: real) {
    Sum(Allocations(sim, routes, target, total)) <= total
  }

  /** The allocations belong to a target `high` that fits the order. Every higher target fits as well, and no
      target lower than it by `max_spot / 2^20` fits, unless that is below zero. */
  lemma ThresholdFound(sim: Simulator, routes: seq<RoutePath>, total: real) returns (high: real)
    requires total >= 0.0
    ensures BestAllocations(sim, routes, total) == Allocations(sim, routes, high, total)
    ensures 0.0 <= high <= MaxSpot(sim, routes)
    ensures forall t :: t >= high ==> Fits(sim, routes, t, total)
    ensures forall t :: 0.0 < t <= high - MaxSpot(sim, routes) / 1048576.0 ==> !Fits(sim, routes, t, total)
  {
    var low;
    low, high := BisectionExit(sim, routes, total);
    forall t | t >= high
      ensures Fits(sim, routes, t, total)
    {
      TotalMonotone(sim, routes, high, t, total);
    }
    forall t | 0.0 < t <= high - MaxSpot(sim, routes) / 1048576.0
      ensures !Fits(sim, routes, t, total)
    {
      TotalMonotone(sim, routes, t, low, total);
    }
  }

  // ----- near-optimality over concave routes

  /** Between two inputs the output grows at a rate between the marginals at the two ends. */
  ghost predicate Concave(f: real -> (real, real)) {
    forall a, b :: 0.0 <= a <= b ==> ConcaveBetween(f(a), f(b), b - a)
  }

  ghost predicate ConcaveBetween(fa: (real, real), fb: (real, real), d: real) {
    && fa.0 >= 0.0 && fa.1 >= 0.0
    && Times(fb.1, d) <= fb.0 - fa.0 <= Times(fa.1, d)
  }

  function OutputOf(sim: Simulator, route: RoutePath): real -> (real, real) {
    x => sim(route, x)
  }

  lemma TimesLinear(m: real, x: real, y: real)
    ensures Times(m, x) + Times(m, y) == Times(m, x + y)
  {
  }

  lemma TimesOrder(m: real, n: real, x: real, y: real)
    requires 0.0 <= m <= n && 0.0 <= x <= y
    ensures 0.0 <= Times(m, x) <= Times(n, y)
  {
    MulNonNeg(m, x);
    MulNonNeg(n - m, x);
    MulNonNeg(n, y - x);
    assert Times(n, y) - Times(m, x) == (n - m) * x + n * (y - x);
  }

  /** A concave output's marginals do not grow. */
  lemma MarginalFalls(f: real -> (real, real), a: real, b: real)
    requires Concave(f) && 0.0 <= a <= b
    ensures f(b).1 <= f(a).1
  {
    assert ConcaveBetween(f(a), f(b), b - a);
    if a < b && f(b).1 > f(a).1 {
      StrictTimes(f(a).1, f(b).1, b - a);
    }
  }

  lemma StrictTimes(m: real, n: real, d: real)
    requires m < n && d > 0.0
    ensures Times(m, d) < Times(n, d)
  {
    MulPos(n - m, d);
    assert Times(n, d) - Times(m, d) == (n - m) * d;
  }

  /** Moving an amount `y` onto a route whose final bracket for `target` is `[low, high]` gains, net of its
      price at the target, at most the bracket's width at the spot rate. */
  lemma BracketLoss(f: real -> (real, real), target: real, total: real, low: real, high: real, x: real, y: real)
    requires Concave(f) && 0.0 <= target && 0.0 <= low <= x <= high <= total && 0.0 <= y <= total
    requires f(low).1 > target && (high == total || f(high).1 <= target)
    ensures f(y).0 - f(x).0 <= Times(target, y - x) + Times(f(0.0).1, high - low)
  {
    MarginalFalls(f, 0.0, low);
    MarginalFalls(f, 0.0, x);
    var spot, w := f(0.0).1, high - low;
    if y >= high {
      assert ConcaveBetween(f(high), f(y), y - high) && ConcaveBetween(f(x), f(high), high - x);
      TimesOrder(f(x).1, spot, high - x, w);
      if y == high {
        assert Times(target, y - high) == 0.0 == Times(f(high).1, y - high);
      } else {
        TimesOrder(f(high).1, target, y - high, y - high);
      }
      TimesOrder(target, target, 0.0, high - x);
      TimesLinear(target, y - high, high - x);
    } else if y >= x {
      assert ConcaveBetween(f(x), f(y), y - x);
      TimesOrder(f(x).1, spot, y - x, w);
      TimesOrder(target, target, 0.0, y - x);
    } else {
      LossBelow(f, target, low, high, x, y);
    }
  }

  /** The same for an amount below the allocation. */
  lemma LossBelow(f: real -> (real, real), target: real, low: real, high: real, x: real, y: real)
    requires Concave(f) && 0.0 <= target && 0.0 <= low <= x <= high && 0.0 <= y < x
    requires target < f(low).1 <= f(0.0).1
    ensures f(y).0 - f(x).0 <= Times(target, y - x) + Times(f(0.0).1, high - low)
  {
    var spot, w := f(0.0).1, high - low;
    var least := if y >= low then y else low;
    assert ConcaveBetween(f(least), f(x), x - least) && ConcaveBetween(f(x), f(x), 0.0);
    TimesOrder(f(x).1, f(x).1, 0.0, x - least);
    TimesOrder(target, spot, x - least, w);
    TimesLinear(target, y - x, x - least);
    if y < low {
      assert ConcaveBetween(f(y), f(low), low - y);
      TimesOrder(target, f(low).1, low - y, low - y);
      TimesLinear(target, y - low, low - y);
      assert Times(target, 0.0) == 0.0;
    } else {
      assert Times(target, y - x + (x - least)) == 0.0;
    }
  }

  /** What any amount `y` gains over the solver's allocation on one route, net of its price at the target. */
  lemma RouteLoss(sim: Simulator, route: RoutePath, target: real, total: real, y: real)
    requires Concave(OutputOf(sim, route)) && 0.0 <= target && 0.0 <= y <= total
    ensures var x := SolveAllocation(sim, route, target, total);
      sim(route, y).0 - sim(route, x).0 <= Times(target, y - x) + Times(sim(route, 0.0).1, total / 32768.0)
  {
    var f, x := OutputOf(sim, route), SolveAllocation(sim, route, target, total);
    var low, high := AllocationBracketed(sim, route, target, total, x);
    assert ConcaveBetween(f(0.0), f(y), y - 0.0);
    TimesOrder(f(0.0).1, f(0.0).1, 0.0, total / 32768.0);
    if f(0.0).1 <= target {
      TimesOrder(f(0.0).1, target, y, y);
    } else {
      BracketLoss(f, target, total, low, high, x, y);
    }
  }

  /** The output of dividing amounts over the first `n` routes. */
  function TotalOut(sim: Simulator, routes: seq<RoutePath>, xs: seq<real>, n: nat): real
    requires n <= |routes| == |xs|
  {
    if n == 0 then 0.0 else TotalOut(sim, routes, xs, n - 1) + sim(routes[n - 1], xs[n - 1]).0
  }

  /** The spot rates of the first `n` routes. */
  function Spots(sim: Simulator, routes: seq<RoutePath>, n: nat): real
    requires n <= |routes|
  {
    if n == 0 then 0.0 else Spots(sim, routes, n - 1) + sim(routes[n - 1], 0.0).1
  }

  ghost predicate AllConcave(sim: Simulator, routes: seq<RoutePath>) {
    forall i :: 0 <= i < |routes| ==> Concave(OutputOf(sim, routes[i]))
  }

  /** A division of the order: an amount within it for every route. */
  predicate IsDivision(routes: seq<RoutePath>, ys: seq<real>, total: real) {
    |ys| == |routes| && forall i :: 0 <= i < |ys| ==> 0.0 <= ys[i] <= total
  }

  /** Over the first `n` routes `ys` gives no more than `xs`, up to the price of the difference and the slack. */
  ghost predicate LossBounded(
    sim: Simulator, routes: seq<RoutePath>, target: real, total: real, ys: seq<real>, xs: seq<real>, n: nat)
    requires n <= |routes| == |ys| == |xs|
  {
    TotalOut(sim, routes, ys, n) - TotalOut(sim, routes, xs, n)
    <= Times(target, Sum(ys[..n]) - Sum(xs[..n])) + Times(Spots(sim, routes, n), total / 32768.0)
  }

  lemma {:induction false} DivisionLoss(
    sim: Simulator, routes: seq<RoutePath>, target: real, total: real, ys: seq<real>, xs: seq<real>, n: nat)
    requires AllConcave(sim, routes) && 0.0 <= target && 0.0 <= total && IsDivision(routes, ys, total)
    requires xs == Allocations(sim, routes, target, total) && n <= |routes|
    ensures LossBounded(sim, routes, target, total, ys, xs, n)
  {
    if n == 0 {
      assert ys[..0] == [] && xs[..0] == [];
      assert Times(target, 0.0) == 0.0 && Times(0.0, total / 32768.0) == 0.0;
    } else {
      var k := n - 1;
      DivisionLoss(sim, routes, target, total, ys, xs, k);
      assert Concave(OutputOf(sim, routes[k]));
      RouteLoss(sim, routes[k], target, total, ys[k]);
      SumLast(ys, n);
      SumLast(xs, n);
      LossAdds(target, Sum(ys[..k]) - Sum(xs[..k]), ys[k] - xs[k], Spots(sim, routes, k), sim(routes[k], 0.0).1,
               total / 32768.0, TotalOut(sim, routes, ys, k) - TotalOut(sim, routes, xs, k),
               sim(routes[k], ys[k]).0 - sim(routes[k], xs[k]).0);
      SameGap(Sum(ys[..k]), Sum(xs[..k]), ys[k], xs[k]);
    }
  }

  lemma SameGap(y: real, x: real, dy: real, dx: real)
    ensures (y + dy) - (x + dx) == (y - x) + (dy - dx)
  {
  }

  lemma LossAdds(
    target: real, gap: real, gap1: real, spots: real, spot: real, width: real, loss: real, loss1: real)
    requires loss <= Times(target, gap) + Times(spots, width)
    requires loss1 <= Times(target, gap1) + Times(spot, width)
    ensures loss + loss1 <= Times(target, gap + gap1) + Times(spots + spot, width)
  {
    TimesLinear(target, gap, gap1);
    TimesSum(spots, spot, width);
  }

  lemma SumLast(xs: seq<real>, n: nat)
    requires 0 < n <= |xs|
    ensures Sum(xs[..n]) == Sum(xs[..n - 1]) + xs[n - 1]
  {
    assert xs[..n][..n - 1] == xs[..n - 1];
  }

  lemma TimesSum(m: real, n: real, x: real)
    ensures Times(m, x) + Times(n, x) == Times(m + n, x)
  {
  }

  /** Over concave routes no division of the order gives more than the bisection's allocations, except for the
      price, at the final target, of what it hands out beyond them, and for one inner bracket width at the
      routes' spot rates. */
  lemma NearlyOptimal(sim: Simulator, routes: seq<RoutePath>, total: real, ys: seq<real>) returns (high: real)
    requires AllConcave(sim, routes) && 0.0 <= total && IsDivision(routes, ys, total)
    ensures BestAllocations(sim, routes, total) == Allocations(sim, routes, high, total)
    ensures 0.0 <= high <= MaxSpot(sim, routes)
    ensures var best := BestAllocations(sim, routes, total);
      && |best| == |routes|
      && TotalOut(sim, routes, ys, |routes|)
         <= TotalOut(sim, routes, best, |routes|) + Times(high, Sum(ys) - Sum(best))
            + Times(Spots(sim, routes, |routes|), total / 32768.0)
  {
    high := ThresholdFound(sim, routes, total);
    var best := BestAllocations(sim, routes, total);
    DivisionLoss(sim, routes, high, total, ys, best, |routes|);
    WholeSums(ys, best, |routes|);
  }

  /** In particular nothing is gained by dividing no more than what is allocated. */
  lemma SameAmountNearlyOptimal(sim: Simulator, routes: seq<RoutePath>, total: real, ys: seq<real>)
    requires AllConcave(sim, routes) && 0.0 <= total && IsDivision(routes, ys, total)
    requires Sum(ys) <= Sum(BestAllocations(sim, routes, total))
    ensures var best := BestAllocations(sim, routes, total);
      && |best| == |routes|
      && TotalOut(sim, routes, ys, |routes|)
         <= TotalOut(sim, routes, best, |routes|) + Times(Spots(sim, routes, |routes|), total / 32768.0)
  {
    var high := NearlyOptimal(sim, routes, total, ys);
    NoGain(high, Sum(ys), Sum(BestAllocations(sim, routes, total)));
  }

  lemma WholeSums(ys: seq<real>, xs: seq<real>, n: nat)
    requires n == |ys| == |xs|
    ensures Sum(ys[..n]) == Sum(ys) && Sum(xs[..n]) == Sum(xs)
  {
    assert ys[..n] == ys && xs[..n] == xs;
  }

  lemma NoGain(rate: real, y: real, x: real)
    requires rate >= 0.0 && y <= x
    ensures Times(rate, y - x) <= 0.0
  {
    MulNonNeg(rate, x - y);
    assert Times(rate, y - x) == -(rate * (x - y));
  }

  // ----- routes without tick data are concave

  /** A product of three, either way round. */
  lemma TimesTwice(m: real, n: real, x: real)
    ensures Times(m, Times(n, x)) == Times(n * m, x)
  {
  }

  /** The starting marginal of a route is a factor of its final one. */
  lemma {:induction false} MarginalFactors(
    hops: seq<SwapHop>, x: real, factor: real, pools: Pools, ticks: Ticks, curve: int -> real)
    requires SanePools(pools) && IsPriceCurve(curve)
    ensures IsMultiple(SimulateRoute(hops, x, factor, pools, ticks, curve),
                       SimulateRoute(hops, x, 1.0, pools, ticks, curve), factor)
    decreases |hops|, 0
  {
    if hops != [] && hops[0].poolId in pools {
      var h := SimulateHop(pools[hops[0].poolId], TicksOf(ticks, hops[0].poolId), hops[0], x, curve);
      RestFactors(hops[1..], h.amountOut, h.marginalPrice, factor, pools, ticks, curve);
    }
  }

  predicate IsMultiple(r: (real, real), unit: (real, real), factor: real) {
    r.0 == unit.0 && r.1 == factor * unit.1
  }

  lemma RestFactors(
    rest: seq<SwapHop>, out: real, hopMarginal: real, factor: real, pools: Pools, ticks: Ticks, curve: int -> real)
    requires SanePools(pools) && IsPriceCurve(curve)
    ensures IsMultiple(SimulateRoute(rest, out, Compound(factor, hopMarginal), pools, ticks, curve),
                       SimulateRoute(rest, out, Compound(1.0, hopMarginal), pools, ticks, curve), factor)
    decreases |rest|, 1
  {
    MarginalFactors(rest, out, Compound(factor, hopMarginal), pools, ticks, curve);
    MarginalFactors(rest, out, Compound(1.0, hopMarginal), pools, ticks, curve);
    MultipleOfMultiple(
      SimulateRoute(rest, out, Compound(factor, hopMarginal), pools, ticks, curve),
      SimulateRoute(rest, out, Compound(1.0, hopMarginal), pools, ticks, curve),
      SimulateRoute(rest, out, 1.0, pools, ticks, curve), factor, hopMarginal);
  }

  lemma MultipleOfMultiple(r: (real, real), s: (real, real), unit: (real, real), factor: real, m: real)
    requires IsMultiple(r, unit, Compound(factor, m)) && IsMultiple(s, unit, Compound(1.0, m))
    ensures IsMultiple(r, s, factor)
  {
  }

  ghost predicate WithoutTicks(hops: seq<SwapHop>, ticks: Ticks) {
    forall i :: 0 <= i < |hops| ==> hops[i].poolId !in ticks
  }

  lemma HopConcave(pool: PoolState, hop: SwapHop, a: real, b: real, curve: int -> real)
    requires Sane(pool) && IsPriceCurve(curve) && 0.0 <= a <= b
    ensures var ra, rb := SimulateHop(pool, None, hop, a, curve), SimulateHop(pool, None, hop, b, curve);
      && ra.amountOut >= 0.0 && ra.marginalPrice >= 0.0
      && ConcaveBetween((ra.amountOut, ra.marginalPrice), (rb.amountOut, rb.marginalPrice), b - a)
  {
    WithinMonotone(pool, hop, a, a);
    if pool.liquidity > 0 {
      WithinTickConcave(pool, hop, a, b);
      WithinForm(pool, hop, a);
      SlopeNonNegative(PoolIn(pool, hop), PoolOut(pool, hop), AfterFee(pool, a));
    } else {
      assert Times(0.0, b - a) == 0.0;
    }
  }

  lemma SlopeNonNegative(x: real, y: real, d: real)
    requires x > 0.0 && y > 0.0 && d >= 0.0
    ensures ProductSlope(x, y, d) >= 0.0
  {
    MulPos(y, x);
    MulPos(x + d, x + d);
    DivPos(y * x, (x + d) * (x + d));
  }

  /** Output and marginal of a composition, by the chain rule. */
  lemma Chained(ga: (real, real), gb: (real, real), fa: (real, real), fb: (real, real), d: real)
    requires d >= 0.0 && ConcaveBetween(ga, gb, d) && ConcaveBetween(fa, fb, gb.0 - ga.0)
    requires gb.1 >= 0.0 && fb.1 >= 0.0
    ensures ConcaveBetween((fa.0, ga.1 * fa.1), (fb.0, gb.1 * fb.1), d)
  {
    MulNonNeg(ga.1, fa.1);
    MulNonNeg(gb.1, d);
    TimesOrder(fa.1, fa.1, gb.0 - ga.0, Times(ga.1, d));
    TimesOrder(fb.1, fb.1, Times(gb.1, d), gb.0 - ga.0);
    TimesTwice(fa.1, ga.1, d);
    TimesTwice(fb.1, gb.1, d);
  }

  /** Any route through pools without tick data is concave in its input, whatever its length. */
  lemma {:induction false} RouteConcave(
    hops: seq<SwapHop>, a: real, b: real, pools: Pools, ticks: Ticks, curve: int -> real)
    requires SanePools(pools) && IsPriceCurve(curve) && WithoutTicks(hops, ticks) && 0.0 <= a <= b
    ensures RisesConcavely(SimulateRoute(hops, a, 1.0, pools, ticks, curve),
                           SimulateRoute(hops, b, 1.0, pools, ticks, curve), b - a)
    decreases |hops|, 0
  {
    if hops == [] {
      assert Times(1.0, b - a) == b - a;
    } else if hops[0].poolId !in pools {
      assert Times(0.0, b - a) == 0.0;
    } else {
      var pool, hop := pools[hops[0].poolId], hops[0];
      var ra, rb := SimulateHop(pool, None, hop, a, curve), SimulateHop(pool, None, hop, b, curve);
      HopConcave(pool, hop, a, b, curve);
      HopConcave(pool, hop, b, b, curve);
      HopMonotone(pool, None, hop, a, b, curve);
      RestConcave(hops[1..], (ra.amountOut, ra.marginalPrice), (rb.amountOut, rb.marginalPrice), b - a,
                  pools, ticks, curve);
    }
  }

  ghost predicate RisesConcavely(ra: (real, real), rb: (real, real), d: real) {
    ConcaveBetween(ra, rb, d) && rb.1 >= 0.0
  }

  lemma RestConcave(
    rest: seq<SwapHop>, ga: (real, real), gb: (real, real), d: real, pools: Pools, ticks: Ticks, curve: int -> real)
    requires SanePools(pools) && IsPriceCurve(curve) && WithoutTicks(rest, ticks)
    requires d >= 0.0 && RisesConcavely(ga, gb, d) && ga.0 <= gb.0
    ensures RisesConcavely(SimulateRoute(rest, ga.0, Compound(1.0, ga.1), pools, ticks, curve),
                           SimulateRoute(rest, gb.0, Compound(1.0, gb.1), pools, ticks, curve), d)
    decreases |rest|, 1
  {
    RouteConcave(rest, ga.0, gb.0, pools, ticks, curve);
    MarginalFactors(rest, ga.0, Compound(1.0, ga.1), pools, ticks, curve);
    MarginalFactors(rest, gb.0, Compound(1.0, gb.1), pools, ticks, curve);
    ChainedRoutes(ga, gb, SimulateRoute(rest, ga.0, 1.0, pools, ticks, curve),
                  SimulateRoute(rest, gb.0, 1.0, pools, ticks, curve),
                  SimulateRoute(rest, ga.0, Compound(1.0, ga.1), pools, ticks, curve),
                  SimulateRoute(rest, gb.0, Compound(1.0, gb.1), pools, ticks, curve), d);
  }

  lemma ChainedRoutes(
    ga: (real, real), gb: (real, real), fa: (real, real), fb: (real, real),
    ra: (real, real), rb: (real, real), d: real)
    requires d >= 0.0 && RisesConcavely(ga, gb, d) && RisesConcavely(fa, fb, gb.0 - ga.0)
    requires IsMultiple(ra, fa, Compound(1.0, ga.1)) && IsMultiple(rb, fb, Compound(1.0, gb.1))
    ensures RisesConcavely(ra, rb, d)
  {
    Chained(ga, gb, fa, fb, d);
    MulNonNeg(gb.1, fb.1);
    assert Compound(1.0, ga.1) == ga.1 && Compound(1.0, gb.1) == gb.1;
  }

  /** The simulator is the route simulation over these pools. */
  ghost predicate Simulates(sim: Simulator, pools: Pools, ticks: Ticks, curve: int -> real)
    requires SanePools(pools) && IsPriceCurve(curve)
  {
    forall r: RoutePath, x: real {:trigger sim(r, x)} :: sim(r, x) == SimulateRoute(r.hops, x, 1.0, pools, ticks, curve)
  }

  lemma ConcaveAt(
    sim: Simulator, route: RoutePath, a: real, b: real, pools: Pools, ticks: Ticks, curve: int -> real)
    requires SanePools(pools) && IsPriceCurve(curve) && WithoutTicks(route.hops, ticks) && 0.0 <= a <= b
    requires sim(route, a) == SimulateRoute(route.hops, a, 1.0, pools, ticks, curve)
    requires sim(route, b) == SimulateRoute(route.hops, b, 1.0, pools, ticks, curve)
    ensures ConcaveBetween(OutputOf(sim, route)(a), OutputOf(sim, route)(b), b - a)
  {
    RouteConcave(route.hops, a, b, pools, ticks, curve);
  }

  lemma SimulatedConcave(sim: Simulator, route: RoutePath, pools: Pools, ticks: Ticks, curve: int -> real)
    requires SanePools(pools) && IsPriceCurve(curve) && WithoutTicks(route.hops, ticks)
    requires Simulates(sim, pools, ticks, curve)
    ensures Concave(OutputOf(sim, route))
  {
    var f := OutputOf(sim, route);
    forall a, b | 0.0 <= a <= b
      ensures ConcaveBetween(f(a), f(b), b - a)
    {
      ConcaveAt(sim, route, a, b, pools, ticks, curve);
    }
  }
}

/** How good the finished split is: scaled to the whole order, truncated to whole units, the rest handed to its
    largest part. Over concave routes nothing else that could be done with the order gives noticeably more. */
module SplitQuality {
  import opened Models
  import opened TickSwap
  import opened SwapSimulation
  import opened OrderSplit
  import opened OrderQuality

  /** No input, no output. */
  ghost predicate NothingForNothing(sim: Simulator, routes: seq<RoutePath>) {
    forall i :: 0 <= i < |routes| ==> sim(routes[i], 0.0).0 == 0.0
  }

  /** No route pays more for the whole order than a 128-bit number holds. */
  ghost predicate OutputsInRange(sim: Simulator, routes: seq<RoutePath>, total: real) {
    forall i :: 0 <= i < |routes| ==> sim(routes[i], total).0 <= U128_MAX as real
  }

  /** The routes, the order and the simulator of a split whose quality is claimed. */
  ghost predicate Tractable(sim: Simulator, routes: seq<RoutePath>, amountIn: nat) {
    && routes != [] && 0 < amountIn <= U128_MAX
    && AllConcave(sim, routes) && NothingForNothing(sim, routes) && OutputsInRange(sim, routes, amountIn as real)
  }

  lemma OutputRises(sim: Simulator, routes: seq<RoutePath>, i: nat, a: real, b: real)
    requires AllConcave(sim, routes) && i < |routes| && 0.0 <= a <= b
    ensures 0.0 <= sim(routes[i], a).0 <= sim(routes[i], b).0
  {
    var f := OutputOf(sim, routes[i]);
    assert Concave(f) && ConcaveBetween(f(a), f(b), b - a) && ConcaveBetween(f(b), f(b), 0.0);
    TimesOrder(f(b).1, f(b).1, 0.0, b - a);
  }

  /** Less than one unit of input buys at most the spot rate. */
  lemma CrumbOutput(sim: Simulator, routes: seq<RoutePath>, i: nat, a: real)
    requires AllConcave(sim, routes) && NothingForNothing(sim, routes) && i < |routes| && 0.0 <= a <= 1.0
    ensures sim(routes[i], a).0 <= sim(routes[i], 0.0).1
  {
    var f := OutputOf(sim, routes[i]);
    assert Concave(f) && ConcaveBetween(f(0.0), f(a), a - 0.0);
    TimesOrder(f(0.0).1, f(0.0).1, a, 1.0);
    assert Times(f(0.0).1, 1.0) == f(0.0).1;
  }

  lemma Whole(x: real)
    requires 0.0 <= x <= U128_MAX as real
    ensures AsU128(x) as real <= x < AsU128(x) as real + 1.0
  {
  }

  lemma WholeMono(x: real, y: real)
    requires x <= y
    ensures AsU128(x) <= AsU128(y)
  {
  }

  // ----- scaling

  function ScaledUp(best: seq<real>, scale: real): (xs: seq<real>)
    ensures |xs| == |best|
  {
    seq(|best|, i requires 0 <= i < |best| => Scaled(best[i], scale))
  }

  lemma {:induction false} PartBelowSum(xs: seq<real>, i: nat)
    requires i < |xs| && forall k :: 0 <= k < |xs| ==> xs[k] >= 0.0
    ensures 0.0 <= xs[i] <= Sum(xs)
  {
    var n := |xs| - 1;
    if i < n {
      PartBelowSum(xs[..n], i);
    } else {
      SumNonNegative(xs[..n]);
    }
  }

  lemma {:induction false} SumNonNegative(xs: seq<real>)
    requires forall k :: 0 <= k < |xs| ==> xs[k] >= 0.0
    ensures Sum(xs) >= 0.0
  {
    if xs != [] {
      SumNonNegative(xs[..|xs| - 1]);
    }
  }

  /** Scaling takes every part up, none beyond the whole order. */
  lemma ScaledPart(best: seq<real>, total: real, i: nat)
    requires i < |best| && forall k :: 0 <= k < |best| ==> best[k] >= 0.0
    requires 0.0 < Sum(best) <= total
    ensures best[i] <= Scaled(best[i], total / Sum(best)) <= total
  {
    var sum, scale := Sum(best), total / Sum(best);
    PartBelowSum(best, i);
    ScaleRestores(sum, total);
    ScaledSum(best[i], sum - best[i], scale);
    ScaleUp(best[i], sum, total);
  }

  lemma ScaleUp(x: real, sum: real, total: real)
    requires x >= 0.0 && 0.0 < sum <= total
    ensures x <= Scaled(x, total / sum)
  {
    var more := total / sum - 1.0;
    assert total / sum >= 1.0;
    assert x * more >= 0.0;
    assert Scaled(x, total / sum) == x + x * more;
  }

  lemma {:induction false} ScalingGains(
    sim: Simulator, routes: seq<RoutePath>, best: seq<real>, total: real, n: nat)
    requires AllConcave(sim, routes) && n <= |routes| == |best|
    requires (forall k :: 0 <= k < |best| ==> best[k] >= 0.0) && 0.0 < Sum(best) <= total
    ensures TotalOut(sim, routes, best, n) <= TotalOut(sim, routes, ScaledUp(best, total / Sum(best)), n)
  {
    if n > 0 {
      ScalingGains(sim, routes, best, total, n - 1);
      ScaledPart(best, total, n - 1);
      OutputRises(sim, routes, n - 1, best[n - 1], Scaled(best[n - 1], total / Sum(best)));
    }
  }

  // ----- truncation

  lemma SumOutAppend(splits: seq<Split>, s: Split)
    ensures SumOut(splits + [s]) == SumOut(splits) + s.allocOut
  {
    assert (splits + [s])[..|splits|] == splits;
  }

  /** Each route loses less than one unit of output, or what less than one unit of input would have bought. */
  lemma {:induction false} TruncationLoss(
    sim: Simulator, routes: seq<RoutePath>, best: seq<real>, total: real, n: nat)
    requires AllConcave(sim, routes) && NothingForNothing(sim, routes) && OutputsInRange(sim, routes, total)
    requires n <= |routes| == |best| && (forall k :: 0 <= k < |best| ==> best[k] >= 0.0)
    requires 0.0 < Sum(best) <= total <= U128_MAX as real
    ensures var scale := total / Sum(best);
      TotalOut(sim, routes, ScaledUp(best, scale), n)
      <= SumOut(Truncated(sim, routes, best, scale, n)) as real + n as real + Spots(sim, routes, n)
  {
    if n > 0 {
      var scale, k := total / Sum(best), n - 1;
      TruncationLoss(sim, routes, best, total, k);
      var alloc := Scaled(best[k], scale);
      var out := sim(routes[k], alloc).0;
      ScaledPart(best, total, k);
      OutputRises(sim, routes, k, alloc, total);
      Whole(alloc);
      Whole(out);
      var f := OutputOf(sim, routes[k]);
      assert Concave(f) && ConcaveBetween(f(0.0), f(0.0), 0.0);
      var front := Truncated(sim, routes, best, scale, k);
      if AsU128(alloc) > 0 {
        SumOutAppend(front, Split(routes[k], AsU128(alloc), AsU128(out)));
      } else {
        CrumbOutput(sim, routes, k, alloc);
      }
    }
  }

  /** The part at `k` comes from a route `i`, and truncation took no more off it than off all parts together. */
  lemma {:induction false} PartSource(
    sim: Simulator, routes: seq<RoutePath>, best: seq<real>, scale: real, n: nat, k: nat) returns (i: nat)
    requires n <= |routes| == |best| && scale > 0.0 && (forall j :: 0 <= j < |best| ==> best[j] >= 0.0)
    requires k < |Truncated(sim, routes, best, scale, n)|
    ensures var t := Truncated(sim, routes, best, scale, n);
      && i < n && t[k].route == routes[i]
      && t[k].allocOut == AsU128(sim(routes[i], Scaled(best[i], scale)).0)
      && Scaled(best[i], scale) - t[k].allocIn as real <= ScaledTotal(best, scale, n) - SumIn(t) as real
  {
    var m := n - 1;
    var front := Truncated(sim, routes, best, scale, m);
    var alloc := Scaled(best[m], scale);
    ScaledSum(0.0, best[m], scale);
    if AsU128(alloc) > 0 {
      SumInAppend(front, Split(routes[m], AsU128(alloc), AsU128(sim(routes[m], alloc).0)));
    }
    if k < |front| {
      i := PartSource(sim, routes, best, scale, m, k);
    } else {
      i := m;
      TruncatedBelow(sim, routes, best, scale, m);
    }
  }

  lemma {:induction false} SumOutUpdate(splits: seq<Split>, k: nat, s: Split)
    requires k < |splits|
    ensures SumOut(splits[k := s]) == SumOut(splits) - splits[k].allocOut + s.allocOut
  {
    var n := |splits| - 1;
    if k == n {
      assert splits[k := s][..n] == splits[..n];
    } else {
      SumOutUpdate(splits[..n], k, s);
      assert splits[k := s][..n] == splits[..n][k := s];
    }
  }

  /** Handing the rest to the largest part never lowers the output. */
  lemma RestGains(sim: Simulator, routes: seq<RoutePath>, best: seq<real>, amountIn: nat)
    requires AllConcave(sim, routes) && |routes| == |best| && (forall k :: 0 <= k < |best| ==> best[k] >= 0.0)
    requires 0.0 < Sum(best) <= amountIn as real
    ensures var t := Truncated(sim, routes, best, amountIn as real / Sum(best), |routes|);
      SumOut(t) <= SumOut(GiveRest(sim, t, amountIn))
  {
    var total := amountIn as real;
    var scale := total / Sum(best);
    var t := Truncated(sim, routes, best, scale, |routes|);
    if SumIn(t) < amountIn && t != [] {
      ScaleRestores(Sum(best), total);
      var k := LastMax(t);
      var i := PartSource(sim, routes, best, scale, |routes|, k);
      ScaledTotalIsScaled(best, scale, |routes|);
      assert best[..|routes|] == best;
      var alloc := t[k].allocIn + (amountIn - SumIn(t));
      ScaledSum(0.0, best[i], scale);
      OutputRises(sim, routes, i, Scaled(best[i], scale), alloc as real);
      WholeMono(sim(routes[i], Scaled(best[i], scale)).0, sim(routes[i], alloc as real).0);
      SumOutUpdate(t, k, GiveRest(sim, t, amountIn)[k]);
    }
  }

  // ----- the finished split

  /** The output of the finished split falls short of that of the unscaled allocations by at most one unit, and
      one unit of input at the spot rate, per route. */
  lemma GrossLoss(sim: Simulator, routes: seq<RoutePath>, amountIn: nat)
    requires Tractable(sim, routes, amountIn) && |routes| > 1
    ensures var best := BestAllocations(sim, routes, amountIn as real);
      && |best| == |routes|
      && TotalOut(sim, routes, best, |routes|)
         <= SumOut(GrossSplit(sim, routes, amountIn)) as real + |routes| as real + Spots(sim, routes, |routes|)
  {
    var total, n := amountIn as real, |routes|;
    var best := BestAllocations(sim, routes, total);
    BestLength(sim, routes, total);
    var _, _ := BisectionExit(sim, routes, total);
    if Sum(best) > 0.0 {
      ScalingGains(sim, routes, best, total, n);
      TruncationLoss(sim, routes, best, total, n);
      RestGains(sim, routes, best, amountIn);
    } else {
      NothingAllocated(sim, routes, best, n);
    }
  }

  lemma {:induction false} NothingAllocated(sim: Simulator, routes: seq<RoutePath>, best: seq<real>, n: nat)
    requires AllConcave(sim, routes) && NothingForNothing(sim, routes) && n <= |routes| == |best|
    requires (forall k :: 0 <= k < |best| ==> best[k] >= 0.0) && Sum(best) <= 0.0
    ensures TotalOut(sim, routes, best, n) <= Spots(sim, routes, n)
  {
    if n > 0 {
      NothingAllocated(sim, routes, best, n - 1);
      PartBelowSum(best, n - 1);
      CrumbOutput(sim, routes, n - 1, best[n - 1]);
    }
  }

  /** What the finished split may fall short by: a unit of output and a unit of input at the spot rate per route,
      one inner bracket width at the spot rates, and the order's unallocated part at the final target. */
  function Slack(sim: Simulator, routes: seq<RoutePath>, amountIn: nat, high: real): real {
    var n, total := |routes|, amountIn as real;
    n as real + Spots(sim, routes, n) + Times(Spots(sim, routes, n), total / 32768.0)
    + Times(high, total - Sum(BestAllocations(sim, routes, total)))
  }

  /** However the whole order or part of it is divided over concave routes, the finished split yields as much up
      to that slack. */
  lemma GrossNearlyOptimal(sim: Simulator, routes: seq<RoutePath>, amountIn: nat, ys: seq<real>)
    returns (high: real)
    requires Tractable(sim, routes, amountIn)
    requires IsDivision(routes, ys, amountIn as real) && Sum(ys) <= amountIn as real
    ensures BestAllocations(sim, routes, amountIn as real) == Allocations(sim, routes, high, amountIn as real)
    ensures 0.0 <= high <= MaxSpot(sim, routes)
    ensures TotalOut(sim, routes, ys, |routes|)
         <= SumOut(GrossSplit(sim, routes, amountIn)) as real + Slack(sim, routes, amountIn, high)
  {
    var total, n := amountIn as real, |routes|;
    high := NearlyOptimal(sim, routes, total, ys);
    if n > 1 {
      GrossLoss(sim, routes, amountIn);
      TimesGrows(high, Sum(ys) - Sum(BestAllocations(sim, routes, total)),
                 total - Sum(BestAllocations(sim, routes, total)));
    } else {
      SlackNonNegative(sim, routes, amountIn, high);
      SingleRoute(sim, routes, amountIn, ys);
    }
  }

  lemma TimesGrows(rate: real, x: real, y: real)
    requires rate >= 0.0 && x <= y
    ensures Times(rate, x) <= Times(rate, y)
  {
    MulNonNeg(rate, y - x);
    assert Times(rate, y) - Times(rate, x) == rate * (y - x);
  }

  lemma {:induction false} SpotsNonNegative(sim: Simulator, routes: seq<RoutePath>, n: nat)
    requires AllConcave(sim, routes) && n <= |routes|
    ensures Spots(sim, routes, n) >= 0.0
  {
    if n > 0 {
      SpotsNonNegative(sim, routes, n - 1);
      var f := OutputOf(sim, routes[n - 1]);
      assert Concave(f) && ConcaveBetween(f(0.0), f(0.0), 0.0);
    }
  }

  lemma SlackNonNegative(sim: Simulator, routes: seq<RoutePath>, amountIn: nat, high: real)
    requires AllConcave(sim, routes) && high >= 0.0
    ensures Slack(sim, routes, amountIn, high) >= |routes| as real
  {
    var total := amountIn as real;
    var _, _ := BisectionExit(sim, routes, total);
    SpotsNonNegative(sim, routes, |routes|);
    TimesNonNegative(Spots(sim, routes, |routes|), total / 32768.0);
    TimesNonNegative(high, total - Sum(BestAllocations(sim, routes, total)));
  }

  lemma TimesNonNegative(rate: real, x: real)
    requires rate >= 0.0 && x >= 0.0
    ensures Times(rate, x) >= 0.0
  {
    MulNonNeg(rate, x);
  }

  lemma SingleRoute(sim: Simulator, routes: seq<RoutePath>, amountIn: nat, ys: seq<real>)
    requires Tractable(sim, routes, amountIn) && |routes| == 1 && IsDivision(routes, ys, amountIn as real)
    ensures TotalOut(sim, routes, ys, 1) <= SumOut(GrossSplit(sim, routes, amountIn)) as real + 1.0
  {
    OutputRises(sim, routes, 0, ys[0], amountIn as real);
    Whole(sim(routes[0], amountIn as real).0);
    assert TotalOut(sim, routes, ys, 0) == 0.0;
    var split := Split(routes[0], amountIn, AsU128(sim(routes[0], amountIn as real).0));
    SumOutAppend([], split);
    assert [] + [split] == [split];
  }

  // ----- pools without tick data

  lemma {:induction false} NothingThrough(
    hops: seq<SwapHop>, marginal: real, pools: Pools, ticks: Ticks, curve: int -> real)
    requires SanePools(pools) && IsPriceCurve(curve) && WithoutTicks(hops, ticks)
    ensures SimulateRoute(hops, 0.0, marginal, pools, ticks, curve).0 == 0.0
    decreases |hops|
  {
    if hops != [] && hops[0].poolId in pools {
      var r := SimulateHop(pools[hops[0].poolId], None, hops[0], 0.0, curve);
      assert forall i :: 0 <= i < |hops[1..]| ==> hops[1..][i] == hops[i + 1];
      NothingThrough(hops[1..], Compound(marginal, r.marginalPrice), pools, ticks, curve);
    }
  }

  /** Routes through pools without tick data are tractable, so the split over them is nearly optimal. */
  lemma SplitNearlyOptimal(
    routes: seq<RoutePath>, amountIn: nat, ys: seq<real>, pools: Pools, ticks: Ticks, curve: int -> real,
    sim: Simulator) returns (high: real)
    requires SanePools(pools) && IsPriceCurve(curve) && Simulates(sim, pools, ticks, curve)
    requires forall i :: 0 <= i < |routes| ==> WithoutTicks(routes[i].hops, ticks)
    requires routes != [] && 0 < amountIn <= U128_MAX && OutputsInRange(sim, routes, amountIn as real)
    requires IsDivision(routes, ys, amountIn as real) && Sum(ys) <= amountIn as real
    ensures BestAllocations(sim, routes, amountIn as real) == Allocations(sim, routes, high, amountIn as real)
    ensures 0.0 <= high <= MaxSpot(sim, routes)
    ensures TotalOut(sim, routes, ys, |routes|)
         <= SumOut(GrossSplit(sim, routes, amountIn)) as real + Slack(sim, routes, amountIn, high)
  {
    forall i | 0 <= i < |routes|
      ensures Concave(OutputOf(sim, routes[i])) && sim(routes[i], 0.0).0 == 0.0
    {
      SimulatedConcave(sim, routes[i], pools, ticks, curve);
      NothingThrough(routes[i].hops, 1.0, pools, ticks, curve);
    }
    high := GrossNearlyOptimal(sim, routes, amountIn, ys);
  }
}

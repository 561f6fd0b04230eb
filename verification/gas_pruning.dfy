/** Dropping routes that do not pay for their gas (src/router.rs, `optimize_order_split`). */
module GasPruning {
  import opened Models
  import opened OrderSplit

  const MAX_ROUTE_HOPS: nat := 3
  /** The largest finite `f64`. */
  const F64_MAX: real := 179769313486231570814527423731704356798070567525844996598917476803157260780028538760589558632766878171540458953514382464234321326889464182768467546703537516986049910576551282076245490090389328944075868508455133942304583236903222948165808559332123348274797826204144723168738177180919299881250404026184124858368.0

  /** The fixed inputs of the optimizer: the simulator and what one hop costs in target-token units. */
  datatype Env = Env(sim: Simulator, gasPerHop: real)

  function GasCost(env: Env, route: RoutePath): real {
    |route.hops| as real * env.gasPerHop
  }

  function NetOut(env: Env, s: Split): real {
    s.allocOut as real - GasCost(env, s.route)
  }

  function Net(env: Env, splits: seq<Split>): real {
    if splits == [] then 0.0 else Net(env, splits[..|splits| - 1]) + NetOut(env, splits[|splits| - 1])
  }

  /** Every part pays strictly more than its gas. */
  predicate AllProfitable(env: Env, splits: seq<Split>) {
    forall i :: 0 <= i < |splits| ==> NetOut(env, splits[i]) > 0.0
  }

  /** The index of the first part that does not pay for its gas. */
  function FirstUnprofitable(env: Env, splits: seq<Split>): (k: nat)
    requires !AllProfitable(env, splits)
    ensures k < |splits| && NetOut(env, splits[k]) <= 0.0
    ensures forall i :: 0 <= i < k ==> NetOut(env, splits[i]) > 0.0
  {
    if NetOut(env, splits[0]) <= 0.0 then 0
    else
      assert forall i :: 1 <= i < |splits| ==> splits[i] == splits[1..][i - 1];
      1 + FirstUnprofitable(env, splits[1..])
  }

  /** The index of the first part with the least net output. */
  function Weakest(env: Env, splits: seq<Split>): (k: nat)
    requires splits != []
    ensures k < |splits|
    ensures forall i :: 0 <= i < |splits| ==> NetOut(env, splits[k]) <= NetOut(env, splits[i])
    ensures forall i :: 0 <= i < k ==> NetOut(env, splits[k]) < NetOut(env, splits[i])
  {
    var n := |splits| - 1;
    if n == 0 then 0
    else
      var k := Weakest(env, splits[..n]);
      assert splits[..n][k] == splits[k] && forall i :: 0 <= i < n ==> splits[..n][i] == splits[i];
      if NetOut(env, splits[n]) < NetOut(env, splits[k]) then n else k
  }

  /** The pool of a route's first hop, by which routes are matched for removal. */
  function FirstPool(r: RoutePath): string {
    if r.hops == [] then "" else r.hops[0].poolId
  }

  /** Remove the first active route whose first hop uses pool `id`. */
  function RemoveByPool(active: seq<RoutePath>, id: string): (rest: seq<RoutePath>)
    ensures (exists i :: 0 <= i < |active| && FirstPool(active[i]) == id) ==> |rest| == |active| - 1
    ensures |rest| <= |active| && forall r :: r in rest ==> r in active
  {
    if active == [] then []
    else if FirstPool(active[0]) == id then active[1..]
    else
      var tail := RemoveByPool(active[1..], id);
      assert forall i :: 1 <= i < |active| ==> active[i] == active[1..][i - 1];
      [active[0]] + tail
  }

  /** A route of the split is always found among the active routes, so removing it shortens the list. */
  lemma RemovalShrinks(env: Env, active: seq<RoutePath>, amountIn: nat, k: nat)
    requires k < |GrossSplit(env.sim, active, amountIn)|
    ensures |RemoveByPool(active, FirstPool(GrossSplit(env.sim, active, amountIn)[k].route))| == |active| - 1
  {
    GrossConserves(env.sim, active, amountIn);
    var r := GrossSplit(env.sim, active, amountIn)[k].route;
    var i :| 0 <= i < |active| && active[i] == r;
    assert FirstPool(active[i]) == FirstPool(r);
  }

  /** The splits the pruning loop evaluates, in order. */
  function Candidates(env: Env, active: seq<RoutePath>, amountIn: nat, bestNet: real): seq<seq<Split>>
    decreases |active|
  {
    var splits := GrossSplit(env.sim, active, amountIn);
    if splits == [] then []
    else if !AllProfitable(env, splits) then
      var k := FirstUnprofitable(env, splits);
      RemovalShrinks(env, active, amountIn, k);
      var rest := RemoveByPool(active, FirstPool(splits[k].route));
      [splits] + if rest == [] then [] else Candidates(env, rest, amountIn, bestNet)
    else if Net(env, splits) > bestNet && |active| > 1 then
      var k := Weakest(env, splits);
      RemovalShrinks(env, active, amountIn, k);
      [splits] + Candidates(env, RemoveByPool(active, FirstPool(splits[k].route)), amountIn, Net(env, splits))
    else [splits]
  }

  /** The first of the all-profitable splits with the largest net output above `floor`, else `fallback`. */
  function BestOf(env: Env, candidates: seq<seq<Split>>, fallback: seq<Split>, floor: real): seq<Split>
    decreases |candidates|
  {
    if candidates == [] then fallback
    else
      var c := candidates[0];
      if AllProfitable(env, c) && Net(env, c) > floor then BestOf(env, candidates[1..], c, Net(env, c))
      else BestOf(env, candidates[1..], fallback, floor)
  }

  /** `BestOf` deserves its name. */
  lemma {:induction false} BestOfIsBest(
    env: Env, candidates: seq<seq<Split>>, fallback: seq<Split>, floor: real)
    ensures var b := BestOf(env, candidates, fallback, floor);
      && (b == fallback || (b in candidates && AllProfitable(env, b) && Net(env, b) > floor))
      && (forall c :: c in candidates && AllProfitable(env, c) ==> Net(env, c) <= floor || Net(env, c) <= Net(env, b))
      && ((exists c :: c in candidates && AllProfitable(env, c) && Net(env, c) > floor) ==>
            b in candidates && AllProfitable(env, b) && Net(env, b) > floor)
    decreases |candidates|
  {
    if candidates != [] {
      var c := candidates[0];
      var better := AllProfitable(env, c) && Net(env, c) > floor;
      BestOfIsBest(env, candidates[1..], if better then c else fallback, if better then Net(env, c) else floor);
      assert forall x :: x in candidates <==> x == c || x in candidates[1..];
    }
  }

  /** Routes of at most three hops. */
  function ShortRoutes(routes: seq<RoutePath>): (short: seq<RoutePath>)
    ensures forall r :: r in short <==> r in routes && |r.hops| <= MAX_ROUTE_HOPS
  {
    if routes == [] then []
    else
      var tail := ShortRoutes(routes[1..]);
      assert routes == [routes[0]] + routes[1..];
      if |routes[0].hops| <= MAX_ROUTE_HOPS then [routes[0]] + tail else tail
  }

  ghost predicate AllConserve(cs: seq<seq<Split>>, active: seq<RoutePath>, amountIn: nat) {
    forall c :: c in cs ==> c != [] && Conserves(c, active, amountIn)
  }

  /** A split over some of the routes is a split over all of them. */
  lemma WiderConserve(
    first: seq<Split>, cs: seq<seq<Split>>, rest: seq<RoutePath>, active: seq<RoutePath>, amountIn: nat)
    requires AllConserve(cs, rest, amountIn) && forall r :: r in rest ==> r in active
    requires first != [] && Conserves(first, active, amountIn)
    ensures AllConserve([first] + cs, active, amountIn)
  {
  }

  /** Every split the pruning loop evaluates conserves the order. */
  lemma {:induction false} CandidatesConserve(env: Env, active: seq<RoutePath>, amountIn: nat, bestNet: real)
    ensures AllConserve(Candidates(env, active, amountIn, bestNet), active, amountIn)
    decreases |active|
  {
    var splits := GrossSplit(env.sim, active, amountIn);
    if splits != [] {
      GrossConserves(env.sim, active, amountIn);
      if !AllProfitable(env, splits) {
        var k := FirstUnprofitable(env, splits);
        RemovalShrinks(env, active, amountIn, k);
        var rest := RemoveByPool(active, FirstPool(splits[k].route));
        CandidatesConserve(env, rest, amountIn, bestNet);
        var others := if rest == [] then [] else Candidates(env, rest, amountIn, bestNet);
        WiderConserve(splits, others, rest, active, amountIn);
      } else if Net(env, splits) > bestNet && |active| > 1 {
        var k := Weakest(env, splits);
        RemovalShrinks(env, active, amountIn, k);
        var rest := RemoveByPool(active, FirstPool(splits[k].route));
        CandidatesConserve(env, rest, amountIn, Net(env, splits));
        WiderConserve(splits, Candidates(env, rest, amountIn, Net(env, splits)), rest, active, amountIn);
      }
    }
  }

  lemma {:induction false} ProfitableNetPositive(env: Env, splits: seq<Split>)
    requires AllProfitable(env, splits)
    ensures Net(env, splits) >= 0.0
  {
    if splits != [] {
      ProfitableNetPositive(env, splits[..|splits| - 1]);
    }
  }

  ghost predicate OutputsFit(splits: seq<Split>) {
    forall i :: 0 <= i < |splits| ==> splits[i].allocOut <= U128_MAX
  }

  lemma GrossOutputsFit(sim: Simulator, routes: seq<RoutePath>, amountIn: nat)
    ensures OutputsFit(GrossSplit(sim, routes, amountIn))
  {
    if |routes| > 1 {
      var best := BestAllocations(sim, routes, amountIn as real);
      BestLength(sim, routes, amountIn as real);
      if Sum(best) > 0.0 {
        TruncatedFits(sim, routes, best, amountIn as real / Sum(best), |routes|);
      }
    }
  }

  lemma {:induction false} TruncatedFits(
    sim: Simulator, routes: seq<RoutePath>, best: seq<real>, scale: real, n: nat)
    requires n <= |routes| == |best|
    ensures OutputsFit(Truncated(sim, routes, best, scale, n))
  {
    if n > 0 {
      TruncatedFits(sim, routes, best, scale, n - 1);
    }
  }

  // ----- the code

  /** One pass over a split: the first part that does not pay, or the net total and the weakest part. */
  method ScanSplits(env: Env, splits: seq<Split>)
    returns (toRemove: Option<nat>, net: real, weakest: Option<nat>)
    requires env.gasPerHop >= 0.0 && splits != [] && OutputsFit(splits)
    ensures AllProfitable(env, splits) ==>
      toRemove == None && net == Net(env, splits) && weakest == Some(Weakest(env, splits))
    ensures !AllProfitable(env, splits) ==> toRemove == Some(FirstUnprofitable(env, splits))
  {
    toRemove, net, weakest := None, 0.0, None;
    var least := F64_MAX;
    for i := 0 to |splits|
      invariant forall j :: 0 <= j < i ==> NetOut(env, splits[j]) > 0.0
      invariant Scanned(env, splits, i, net, weakest, least)
    {
      ScanNext(env, splits, i, net, weakest, least);
      var netOut := NetOut(env, splits[i]);
      if netOut <= 0.0 {
        FirstLoss(env, splits, i);
        return Some(i), net, None;
      }
      net := net + netOut;
      if netOut < least {
        least := netOut;
        weakest := Some(i);
      }
    }
    assert splits[..|splits|] == splits;
  }

  /** Net total and weakest part of the first `i` splits. */
  ghost predicate Scanned(env: Env, splits: seq<Split>, i: nat, net: real, weakest: Option<nat>, least: real)
    requires i <= |splits|
  {
    && net == Net(env, splits[..i])
    && if i == 0 then weakest == None && least == F64_MAX
       else weakest == Some(Weakest(env, splits[..i])) && least == NetOut(env, splits[weakest.value])
  }

  lemma ScanNext(env: Env, splits: seq<Split>, i: nat, net: real, weakest: Option<nat>, least: real)
    requires env.gasPerHop >= 0.0 && OutputsFit(splits) && i < |splits|
    requires Scanned(env, splits, i, net, weakest, least)
    ensures var netOut := NetOut(env, splits[i]);
      if netOut < least then Scanned(env, splits, i + 1, net + netOut, Some(i), netOut)
      else Scanned(env, splits, i + 1, net + netOut, weakest, least)
  {
    assert splits[..i + 1][..i] == splits[..i] && splits[..i + 1][i] == splits[i];
    NetOutFits(env, splits[i]);
    if i > 0 {
      assert splits[..i + 1][weakest.value] == splits[weakest.value];
    }
  }

  lemma FirstLoss(env: Env, splits: seq<Split>, i: nat)
    requires i < |splits| && NetOut(env, splits[i]) <= 0.0
    requires forall j :: 0 <= j < i ==> NetOut(env, splits[j]) > 0.0
    ensures !AllProfitable(env, splits) && FirstUnprofitable(env, splits) == i
  {
    var k := FirstUnprofitable(env, splits);
    assert NetOut(env, splits[k]) <= 0.0;
  }

  lemma NetOutFits(env: Env, s: Split)
    requires env.gasPerHop >= 0.0 && s.allocOut <= U128_MAX
    ensures NetOut(env, s) < F64_MAX
  {
    assert |s.route.hops| as real * env.gasPerHop >= 0.0;
  }

  method OptimizeOrderSplit(env: Env, routes: seq<RoutePath>, amountIn: nat) returns (result: seq<Split>)
    requires env.gasPerHop >= 0.0
    ensures result == [] <==> ShortRoutes(routes) == [] || amountIn == 0
    ensures result != [] ==> Conserves(result, ShortRoutes(routes), amountIn)
    ensures var cs := Candidates(env, ShortRoutes(routes), amountIn, -1.0);
      (exists c :: c in cs && AllProfitable(env, c)) ==>
        && result in cs && AllProfitable(env, result)
        && forall c :: c in cs && AllProfitable(env, c) ==> Net(env, c) <= Net(env, result)
    ensures var cs := Candidates(env, ShortRoutes(routes), amountIn, -1.0);
      result != [] && (forall c :: c in cs ==> !AllProfitable(env, c)) ==>
        && |result| == 1 && result[0].allocIn == amountIn
        && result[0].allocOut == AsU128(env.sim(result[0].route, amountIn as real).0)
        && forall r :: r in ShortRoutes(routes) ==> AsU128(env.sim(r, amountIn as real).0) <= result[0].allocOut
  {
    if routes == [] || amountIn == 0 {
      return [];
    }
    var short := ShortRoutes(routes);
    if short == [] {
      return [];
    }
    var bestSplits := PruneLoop(env, short, amountIn);
    var cs := Candidates(env, short, amountIn, -1.0);
    BestOfIsBest(env, cs, [], -1.0);
    CandidatesConserve(env, short, amountIn, -1.0);
    forall c | c in cs && AllProfitable(env, c)
      ensures Net(env, c) > -1.0
    {
      ProfitableNetPositive(env, c);
    }
    if bestSplits == [] {
      result := Fallback(env, short, amountIn);
    } else {
      result := bestSplits;
    }
  }

  /** Evaluate, drop one route, evaluate again: the loop keeps the best all-profitable split. */
  method PruneLoop(env: Env, short: seq<RoutePath>, amountIn: nat) returns (bestSplits: seq<Split>)
    requires env.gasPerHop >= 0.0
    ensures bestSplits == BestOf(env, Candidates(env, short, amountIn, -1.0), [], -1.0)
  {
    var active := short;
    bestSplits := [];
    var bestNet := -1.0;
    ghost var goal := BestOf(env, Candidates(env, short, amountIn, -1.0), [], -1.0);
    while true
      invariant BestOf(env, Candidates(env, active, amountIn, bestNet), bestSplits, bestNet) == goal
      decreases |active|
    {
      var splits := OptimizeOrderSplitGross(env.sim, active, amountIn);
      if splits == [] {
        break;
      }
      GrossOutputsFit(env.sim, active, amountIn);
      var toRemove, net, weakest := ScanSplits(env, splits);
      if toRemove.Some? {
        RemovalShrinks(env, active, amountIn, toRemove.value);
        active := RemoveByPool(active, FirstPool(splits[toRemove.value].route));
        if active == [] {
          break;
        }
        continue;
      }
      if net > bestNet {
        bestNet := net;
        bestSplits := splits;
        if weakest.Some? && |active| > 1 {
          RemovalShrinks(env, active, amountIn, weakest.value);
          active := RemoveByPool(active, FirstPool(splits[weakest.value].route));
          continue;
        }
      }
      break;
    }
  }

  /** No split pays for its gas: the whole input through the route with the largest output. */
  method Fallback(env: Env, short: seq<RoutePath>, amountIn: nat) returns (result: seq<Split>)
    requires short != [] && amountIn > 0
    ensures |result| == 1 && result[0].allocIn == amountIn && Conserves(result, short, amountIn)
    ensures forall r :: r in short ==> AsU128(env.sim(r, amountIn as real).0) <= result[0].allocOut
    ensures result[0].allocOut == AsU128(env.sim(result[0].route, amountIn as real).0)
  {
    var bestRoute, maxOut := short[0], 0;
    for i := 0 to |short|
      invariant bestRoute in short
      invariant forall j :: 0 <= j < i ==> AsU128(env.sim(short[j], amountIn as real).0) <= maxOut
      invariant maxOut > 0 ==> maxOut == AsU128(env.sim(bestRoute, amountIn as real).0)
    {
      var (out, _) := env.sim(short[i], amountIn as real);
      if AsU128(out) > maxOut {
        maxOut := AsU128(out);
        bestRoute := short[i];
      }
    }
    result := [Split(bestRoute, amountIn, maxOut)];
    assert result[..0] == [];
  }
}

/** Splitting an order over several routes: nested bisection on the marginal price
    (src/router.rs, `solve_allocation_for_target_marginal`, `optimize_order_split_gross`).
    The route simulation is a parameter: everything here holds for every simulator. */
module OrderSplit {
  import opened Models

  /** Output and marginal price of putting an amount through a route. */
  type Simulator = (RoutePath, real) -> (real, real)

  datatype Split = Split(route: RoutePath, allocIn: nat, allocOut: nat)

  const U128_MAX: int := 0xffff_ffff_ffff_ffff_ffff_ffff_ffff_ffff
  const INNER_STEPS: nat := 15
  const OUTER_STEPS: nat := 20

  /** `x as u128`: truncation that saturates at both ends. */
  function AsU128(x: real): (n: nat)
    ensures x >= 0.0 ==> n as real <= x
    ensures n <= U128_MAX
  {
    if x <= 0.0 then 0 else if x.Floor > U128_MAX then U128_MAX else x.Floor
  }

  /** `w` halved `n` times. */
  function Halved(w: real, n: nat): real
    decreases n
  {
    if n == 0 then w else Halved(w / 2.0, n - 1)
  }

  lemma HalvedInner(w: real)
    ensures Halved(w, INNER_STEPS) == w / 32768.0
  {
    HalvedFive(w, 10);
    HalvedFive(w / 32.0, 5);
    HalvedFive(w / 1024.0, 0);
  }

  lemma HalvedOuter(w: real)
    ensures Halved(w, OUTER_STEPS) == w / 1048576.0
  {
    HalvedFive(w, 15);
    HalvedInner(w / 32.0);
  }

  lemma HalvedFive(w: real, n: nat)
    ensures Halved(w, n + 5) == Halved(w / 32.0, n)
  {
    assert Halved(w, n + 5) == Halved(w / 2.0, n + 4) == Halved(w / 4.0, n + 3) == Halved(w / 8.0, n + 2)
      == Halved(w / 16.0, n + 1);
  }

  // ----- the inner solver

  /** An interval with the number of halvings still to do. */
  datatype Range = Range(low: real, high: real, steps: nat)

  /** Halve the bracket around the target marginal until no step is left. */
  function Narrow(sim: Simulator, route: RoutePath, target: real, r: Range): Range
    decreases r.steps
  {
    if r.steps == 0 then r
    else
      var mid := (r.low + r.high) / 2.0;
      if sim(route, mid).1 > target then Narrow(sim, route, target, Range(mid, r.high, r.steps - 1))
      else Narrow(sim, route, target, Range(r.low, mid, r.steps - 1))
  }

  function SolveAllocation(sim: Simulator, route: RoutePath, target: real, maxAmount: real): real {
    if sim(route, 0.0).1 <= target then 0.0
    else
      var r := Narrow(sim, route, target, Range(0.0, maxAmount, INNER_STEPS));
      (r.low + r.high) / 2.0
  }

  method SolveAllocationForTargetMarginal(sim: Simulator, route: RoutePath, target: real, maxAmount: real)
    returns (alloc: real)
    ensures alloc == SolveAllocation(sim, route, target, maxAmount)
  {
    var (_, spot) := sim(route, 0.0);
    if spot <= target {
      return 0.0;
    }
    var low, high := 0.0, maxAmount;
    for i := 0 to INNER_STEPS
      invariant Narrow(sim, route, target, Range(low, high, INNER_STEPS - i))
                == Narrow(sim, route, target, Range(0.0, maxAmount, INNER_STEPS))
    {
      var mid := (low + high) / 2.0;
      var (_, marginal) := sim(route, mid);
      if marginal > target {
        low := mid;
      } else {
        high := mid;
      }
    }
    return (low + high) / 2.0;
  }

  /** The bracket keeps a marginal above the target at its lower end and at most the target at its
      upper end (or the upper end is the limit), and halves its width with every step. */
  lemma {:induction false} NarrowBrackets(
    sim: Simulator, route: RoutePath, target: real, maxAmount: real, r: Range)
    requires 0.0 <= r.low <= r.high <= maxAmount
    requires sim(route, r.low).1 > target
    requires r.high == maxAmount || sim(route, r.high).1 <= target
    ensures var e := Narrow(sim, route, target, r);
      && r.low <= e.low <= e.high <= r.high
      && sim(route, e.low).1 > target
      && (e.high == maxAmount || sim(route, e.high).1 <= target)
      && e.high - e.low == Halved(r.high - r.low, r.steps)
    decreases r.steps
  {
    if r.steps > 0 {
      var mid := (r.low + r.high) / 2.0;
      var next := if sim(route, mid).1 > target then Range(mid, r.high, r.steps - 1)
                  else Range(r.low, mid, r.steps - 1);
      NarrowBrackets(sim, route, target, maxAmount, next);
      assert next.high - next.low == (r.high - r.low) / 2.0;
    }
  }

  /** An interval of width `maxAmount / 2^15` with a marginal above the target at its lower end and at most
      the target, or the limit, at its upper end. */
  ghost predicate IsFinalBracket(
    sim: Simulator, route: RoutePath, target: real, maxAmount: real, low: real, high: real)
  {
    && 0.0 <= low <= high <= maxAmount && high - low == maxAmount / 32768.0
    && sim(route, low).1 > target
    && (high == maxAmount || sim(route, high).1 <= target)
  }

  /** The allocation is zero, or the middle of a final bracket. */
  lemma AllocationBracketed(sim: Simulator, route: RoutePath, target: real, maxAmount: real, alloc: real)
    returns (low: real, high: real)
    requires maxAmount >= 0.0 && alloc == SolveAllocation(sim, route, target, maxAmount)
    ensures 0.0 <= alloc <= maxAmount
    ensures if sim(route, 0.0).1 <= target then alloc == 0.0
            else IsFinalBracket(sim, route, target, maxAmount, low, high) && alloc == (low + high) / 2.0
  {
    low, high := 0.0, 0.0;
    if sim(route, 0.0).1 > target {
      var r := Range(0.0, maxAmount, INNER_STEPS);
      NarrowBrackets(sim, route, target, maxAmount, r);
      low, high := Narrow(sim, route, target, r).low, Narrow(sim, route, target, r).high;
      HalvedInner(maxAmount);
    }
  }

  // ----- the outer bisection

  function Sum(xs: seq<real>): real {
    if xs == [] then 0.0 else Sum(xs[..|xs| - 1]) + xs[|xs| - 1]
  }

  /** The inner solver's answer for every route at one target marginal. */
  function Allocations(sim: Simulator, routes: seq<RoutePath>, target: real, total: real): (allocs: seq<real>)
    ensures |allocs| == |routes|
    ensures forall i :: 0 <= i < |routes| ==> allocs[i] == SolveAllocation(sim, routes[i], target, total)
  {
    seq(|routes|, i requires 0 <= i < |routes| => SolveAllocation(sim, routes[i], target, total))
  }

  /** The largest spot marginal, at least zero. */
  function MaxSpot(sim: Simulator, routes: seq<RoutePath>): (m: real)
    ensures m >= 0.0
    ensures forall i :: 0 <= i < |routes| ==> sim(routes[i], 0.0).1 <= m
  {
    if routes == [] then 0.0
    else
      var m := MaxSpot(sim, routes[..|routes| - 1]);
      var spot := sim(routes[|routes| - 1], 0.0).1;
      if spot > m then spot else m
  }

  /** The outer bracket with the number of halvings still to do. */
  datatype Bracket = Bracket(low: real, high: real, best: seq<real>, steps: nat)

  /** One step of the outer bisection. */
  function Halve(sim: Simulator, routes: seq<RoutePath>, total: real, b: Bracket): Bracket
    requires b.steps > 0
  {
    var mid := (b.low + b.high) / 2.0;
    var allocs := Allocations(sim, routes, mid, total);
    if Sum(allocs) > total then Bracket(mid, b.high, b.best, b.steps - 1)
    else Bracket(b.low, mid, allocs, b.steps - 1)
  }

  function Bisect(sim: Simulator, routes: seq<RoutePath>, total: real, b: Bracket): Bracket
    decreases b.steps
  {
    if b.steps == 0 then b else Bisect(sim, routes, total, Halve(sim, routes, total, b))
  }

  function StartBracket(sim: Simulator, routes: seq<RoutePath>): Bracket {
    Bracket(0.0, MaxSpot(sim, routes), seq(|routes|, _ => 0.0), OUTER_STEPS)
  }

  /** The allocations the bisection settles on. */
  function BestAllocations(sim: Simulator, routes: seq<RoutePath>, total: real): seq<real> {
    Bisect(sim, routes, total, StartBracket(sim, routes)).best
  }

  /** `best` is always the inner solver's answer at the upper end and never exceeds the total; the
      lower end is zero or asks for more than the total. */
  ghost predicate BracketOk(sim: Simulator, routes: seq<RoutePath>, total: real, b: Bracket) {
    && 0.0 <= b.low <= b.high
    && b.best == Allocations(sim, routes, b.high, total)
    && Sum(b.best) <= total
    && (b.low == 0.0 || Sum(Allocations(sim, routes, b.low, total)) > total)
  }

  lemma StartBracketOk(sim: Simulator, routes: seq<RoutePath>, total: real)
    requires total >= 0.0
    ensures BracketOk(sim, routes, total, StartBracket(sim, routes))
  {
    var b := StartBracket(sim, routes);
    assert b.best == Allocations(sim, routes, b.high, total);
    SumZeros(b.best);
  }

  lemma {:induction false} SumZeros(xs: seq<real>)
    requires forall i :: 0 <= i < |xs| ==> xs[i] == 0.0
    ensures Sum(xs) == 0.0
  {
    if xs != [] {
      SumZeros(xs[..|xs| - 1]);
    }
  }

  lemma HalveKeeps(sim: Simulator, routes: seq<RoutePath>, total: real, b: Bracket)
    requires b.steps > 0 && BracketOk(sim, routes, total, b)
    ensures var h := Halve(sim, routes, total, b);
      && h.steps == b.steps - 1
      && BracketOk(sim, routes, total, h) && h.high <= b.high && h.high - h.low == (b.high - b.low) / 2.0
  {
    var mid := (b.low + b.high) / 2.0;
    HalfWay(b.low, b.high);
    ChooseHalf(sim, routes, total, b, mid);
  }

  lemma ChooseHalf(sim: Simulator, routes: seq<RoutePath>, total: real, b: Bracket, mid: real)
    requires b.steps > 0 && BracketOk(sim, routes, total, b) && b.low <= mid <= b.high
    ensures var allocs := Allocations(sim, routes, mid, total);
      if Sum(allocs) > total then BracketOk(sim, routes, total, Bracket(mid, b.high, b.best, b.steps - 1))
      else BracketOk(sim, routes, total, Bracket(b.low, mid, allocs, b.steps - 1))
  {
  }

  lemma HalfWay(low: real, high: real)
    requires low <= high
    ensures var mid := (low + high) / 2.0;
      low <= mid <= high && high - mid == (high - low) / 2.0 == mid - low
  {
  }

  /** `e` lies in `b`, as narrow as its steps allow. */
  predicate Narrowed(b: Bracket, e: Bracket) {
    e.high <= b.high && e.high - e.low == Halved(b.high - b.low, b.steps)
  }

  lemma NarrowedFurther(b: Bracket, h: Bracket, e: Bracket)
    requires b.steps > 0 && h.steps == b.steps - 1
    requires h.high <= b.high && h.high - h.low == (b.high - b.low) / 2.0 && Narrowed(h, e)
    ensures Narrowed(b, e)
  {
  }

  lemma {:induction false} BisectKeeps(
    sim: Simulator, routes: seq<RoutePath>, total: real, b: Bracket, e: Bracket)
    requires BracketOk(sim, routes, total, b) && e == Bisect(sim, routes, total, b)
    ensures BracketOk(sim, routes, total, e) && Narrowed(b, e)
    decreases b.steps
  {
    if b.steps > 0 {
      var h := Halve(sim, routes, total, b);
      HalveKeeps(sim, routes, total, b);
      BisectUnfolds(sim, routes, total, b);
      BisectKeeps(sim, routes, total, h, e);
      NarrowedFurther(b, h, e);
    }
  }

  lemma BisectUnfolds(sim: Simulator, routes: seq<RoutePath>, total: real, b: Bracket)
    requires b.steps > 0
    ensures Bisect(sim, routes, total, b) == Bisect(sim, routes, total, Halve(sim, routes, total, b))
  {
  }

  /** What the nested bisection guarantees at exit. */
  lemma BisectionExit(sim: Simulator, routes: seq<RoutePath>, total: real) returns (low: real, high: real)
    requires total >= 0.0
    ensures var best := BestAllocations(sim, routes, total);
      && best == Allocations(sim, routes, high, total)
      && Sum(best) <= total
      && (forall i :: 0 <= i < |best| ==> 0.0 <= best[i] <= total)
      && 0.0 <= low <= high <= MaxSpot(sim, routes)
      && (low == 0.0 || Sum(Allocations(sim, routes, low, total)) > total)
      && high - low == MaxSpot(sim, routes) / 1048576.0
  {
    var b := StartBracket(sim, routes);
    StartBracketOk(sim, routes, total);
    var e := Bisect(sim, routes, total, b);
    BisectKeeps(sim, routes, total, b, e);
    low, high := e.low, e.high;
    HalvedOuter(MaxSpot(sim, routes));
    forall i | 0 <= i < |e.best|
      ensures 0.0 <= e.best[i] <= total
    {
      var _, _ := AllocationBracketed(sim, routes[i], e.high, total, e.best[i]);
    }
  }

  /** The bisection as the source runs it. */
  method FindBestAllocations(sim: Simulator, routes: seq<RoutePath>, total: real) returns (best: seq<real>)
    ensures best == BestAllocations(sim, routes, total)
  {
    var maxSpot := FindMaxSpot(sim, routes);
    var low, high := 0.0, maxSpot;
    best := seq(|routes|, _ => 0.0);
    ghost var b := StartBracket(sim, routes);
    for k := 0 to OUTER_STEPS
      invariant b == Bracket(low, high, best, OUTER_STEPS - k)
      invariant Bisect(sim, routes, total, b) == Bisect(sim, routes, total, StartBracket(sim, routes))
    {
      low, high, best := HalveBracket(sim, routes, total, low, high, best, OUTER_STEPS - k);
      BisectUnfolds(sim, routes, total, b);
      b := Halve(sim, routes, total, b);
    }
  }

  /** One round of the outer loop. */
  method HalveBracket(
    sim: Simulator, routes: seq<RoutePath>, total: real, low: real, high: real, best: seq<real>, ghost steps: nat)
    returns (low': real, high': real, best': seq<real>)
    requires steps > 0
    ensures Bracket(low', high', best', steps - 1) == Halve(sim, routes, total, Bracket(low, high, best, steps))
  {
    var mid := (low + high) / 2.0;
    var allocs, sum := SolveAll(sim, routes, mid, total);
    if sum > total {
      return mid, high, best;
    } else {
      return low, mid, allocs;
    }
  }

  method FindMaxSpot(sim: Simulator, routes: seq<RoutePath>) returns (maxSpot: real)
    ensures maxSpot == MaxSpot(sim, routes)
  {
    maxSpot := 0.0;
    for i := 0 to |routes|
      invariant maxSpot == MaxSpot(sim, routes[..i])
    {
      assert routes[..i + 1][..i] == routes[..i];
      var (_, spot) := sim(routes[i], 0.0);
      if spot > maxSpot {
        maxSpot := spot;
      }
    }
    assert routes[..|routes|] == routes;
  }

  method SolveAll(sim: Simulator, routes: seq<RoutePath>, target: real, total: real)
    returns (allocs: seq<real>, sum: real)
    ensures allocs == Allocations(sim, routes, target, total) && sum == Sum(allocs)
  {
    sum, allocs := 0.0, [];
    for i := 0 to |routes|
      invariant |allocs| == i && sum == Sum(allocs)
      invariant forall j :: 0 <= j < i ==> allocs[j] == SolveAllocation(sim, routes[j], target, total)
    {
      var alloc := SolveAllocationForTargetMarginal(sim, routes[i], target, total);
      assert (allocs + [alloc])[..i] == allocs;
      allocs := allocs + [alloc];
      sum := sum + alloc;
    }
  }

  // ----- whole units

  function SumIn(splits: seq<Split>): nat {
    if splits == [] then 0 else SumIn(splits[..|splits| - 1]) + splits[|splits| - 1].allocIn
  }

  function SumOut(splits: seq<Split>): nat {
    if splits == [] then 0 else SumOut(splits[..|splits| - 1]) + splits[|splits| - 1].allocOut
  }

  /** A product kept as a single term. */
  function Scaled(x: real, scale: real): real {
    x * scale
  }

  /** The first `n` routes with their scaled allocation truncated; routes left with nothing are dropped. */
  function Truncated(sim: Simulator, routes: seq<RoutePath>, best: seq<real>, scale: real, n: nat): seq<Split>
    requires n <= |routes| && |best| == |routes|
  {
    if n == 0 then []
    else
      var front := Truncated(sim, routes, best, scale, n - 1);
      var alloc := Scaled(best[n - 1], scale);
      if AsU128(alloc) > 0
      then front + [Split(routes[n - 1], AsU128(alloc), AsU128(sim(routes[n - 1], alloc).0))]
      else front
  }

  /** `max_by_key` on the allocation: the last of the largest. */
  function LastMax(splits: seq<Split>): (k: nat)
    requires splits != []
    ensures k < |splits|
    ensures forall i :: 0 <= i < |splits| ==> splits[i].allocIn <= splits[k].allocIn
    ensures forall i :: k < i < |splits| ==> splits[i].allocIn < splits[k].allocIn
  {
    var n := |splits| - 1;
    if n == 0 then 0
    else
      var k := LastMax(splits[..n]);
      if splits[n].allocIn >= splits[k].allocIn then n
      else
        assert splits[..n][k] == splits[k];
        k
  }

  /** Give what truncation lost to the largest split. */
  function GiveRest(sim: Simulator, splits: seq<Split>, amountIn: nat): seq<Split> {
    if SumIn(splits) < amountIn && splits != [] then
      var k := LastMax(splits);
      var s := splits[k];
      var alloc := s.allocIn + (amountIn - SumIn(splits));
      splits[k := Split(s.route, alloc, AsU128(sim(s.route, alloc as real).0))]
    else splits
  }

  function GrossSplit(sim: Simulator, routes: seq<RoutePath>, amountIn: nat): seq<Split> {
    if routes == [] || amountIn == 0 then []
    else if |routes| == 1 then [Split(routes[0], amountIn, AsU128(sim(routes[0], amountIn as real).0))]
    else
      var total := amountIn as real;
      var best := BestAllocations(sim, routes, total);
      BestLength(sim, routes, total);
      if Sum(best) > 0.0 then
        GiveRest(sim, Truncated(sim, routes, best, total / Sum(best), |routes|), amountIn)
      else [Split(routes[0], amountIn, AsU128(sim(routes[0], total).0))]
  }

  lemma BestLength(sim: Simulator, routes: seq<RoutePath>, total: real)
    ensures |BestAllocations(sim, routes, total)| == |routes|
  {
    BisectLength(sim, routes, total, StartBracket(sim, routes));
  }

  lemma {:induction false} BisectLength(sim: Simulator, routes: seq<RoutePath>, total: real, b: Bracket)
    requires |b.best| == |routes|
    ensures |Bisect(sim, routes, total, b).best| == |routes|
    decreases b.steps
  {
    if b.steps > 0 {
      BisectLength(sim, routes, total, Halve(sim, routes, total, b));
    }
  }

  method OptimizeOrderSplitGross(sim: Simulator, routes: seq<RoutePath>, amountIn: nat) returns (result: seq<Split>)
    ensures result == GrossSplit(sim, routes, amountIn)
  {
    if routes == [] || amountIn == 0 {
      return [];
    }
    var total := amountIn as real;
    if |routes| == 1 {
      var (out, _) := sim(routes[0], total);
      return [Split(routes[0], amountIn, AsU128(out))];
    }
    var best := FindBestAllocations(sim, routes, total);
    BestLength(sim, routes, total);
    if Sum(best) > 0.0 {
      var handedOut;
      result, handedOut := TruncateAll(sim, routes, best, total / Sum(best));
      if handedOut < amountIn && result != [] {
        var diff := amountIn - handedOut;
        var k := LastMax(result);
        var alloc := result[k].allocIn + diff;
        var (out, _) := sim(result[k].route, alloc as real);
        result := result[k := Split(result[k].route, alloc, AsU128(out))];
      }
    } else {
      var (out, _) := sim(routes[0], total);
      result := [Split(routes[0], amountIn, AsU128(out))];
    }
  }

  method TruncateAll(sim: Simulator, routes: seq<RoutePath>, best: seq<real>, scale: real)
    returns (result: seq<Split>, handedOut: nat)
    requires |best| == |routes|
    ensures result == Truncated(sim, routes, best, scale, |routes|)
    ensures handedOut == SumIn(result)
  {
    result, handedOut := [], 0;
    for i := 0 to |routes|
      invariant result == Truncated(sim, routes, best, scale, i)
      invariant handedOut == SumIn(result)
    {
      var allocF := Scaled(best[i], scale);
      var allocU := AsU128(allocF);
      if allocU > 0 {
        var (out, _) := sim(routes[i], allocF);
        var split := Split(routes[i], allocU, AsU128(out));
        SumInAppend(result, split);
        result := result + [split];
        handedOut := handedOut + allocU;
      }
    }
  }

  // ----- conservation

  /** A split of `amountIn` over routes of the list: positive parts that add up exactly. */
  ghost predicate Conserves(splits: seq<Split>, routes: seq<RoutePath>, amountIn: nat) {
    SumIn(splits) == amountIn && PositiveParts(splits, routes)
  }

  ghost predicate PositiveParts(splits: seq<Split>, routes: seq<RoutePath>) {
    forall i :: 0 <= i < |splits| ==> splits[i].allocIn > 0 && splits[i].route in routes
  }

  lemma SumInAppend(splits: seq<Split>, s: Split)
    ensures SumIn(splits + [s]) == SumIn(splits) + s.allocIn
  {
    assert (splits + [s])[..|splits|] == splits;
  }

  lemma ScaledSum(a: real, b: real, scale: real)
    ensures Scaled(a + b, scale) == Scaled(a, scale) + Scaled(b, scale)
    ensures b >= 0.0 && scale >= 0.0 ==> Scaled(b, scale) >= 0.0
  {
    if b >= 0.0 && scale >= 0.0 {
      assert b * scale >= 0.0;
    }
  }

  lemma ScaleRestores(sum: real, total: real)
    requires sum > 0.0 && total > 0.0
    ensures total / sum > 0.0 && Scaled(sum, total / sum) == total
  {
  }

  /** The scaled allocations of the first `n` routes, added up. */
  function ScaledTotal(best: seq<real>, scale: real, n: nat): real
    requires n <= |best|
  {
    if n == 0 then 0.0 else ScaledTotal(best, scale, n - 1) + Scaled(best[n - 1], scale)
  }

  lemma {:induction false} ScaledTotalIsScaled(best: seq<real>, scale: real, n: nat)
    requires n <= |best|
    ensures ScaledTotal(best, scale, n) == Scaled(Sum(best[..n]), scale)
  {
    if n == 0 {
      assert best[..0] == [];
      ScaledSum(0.0, 0.0, scale);
    } else {
      ScaledTotalIsScaled(best, scale, n - 1);
      assert best[..n][..n - 1] == best[..n - 1];
      ScaledSum(Sum(best[..n - 1]), best[n - 1], scale);
    }
  }

  /** Truncation only takes away. */
  lemma {:induction false} TruncatedBelow(
    sim: Simulator, routes: seq<RoutePath>, best: seq<real>, scale: real, n: nat)
    requires n <= |routes| == |best| && scale > 0.0
    requires forall i :: 0 <= i < |best| ==> best[i] >= 0.0
    ensures SumIn(Truncated(sim, routes, best, scale, n)) as real <= ScaledTotal(best, scale, n)
  {
    if n > 0 {
      TruncatedBelow(sim, routes, best, scale, n - 1);
      var front := Truncated(sim, routes, best, scale, n - 1);
      var alloc := Scaled(best[n - 1], scale);
      ScaledSum(0.0, best[n - 1], scale);
      if AsU128(alloc) > 0 {
        SumInAppend(front, Split(routes[n - 1], AsU128(alloc), AsU128(sim(routes[n - 1], alloc).0)));
      }
    }
  }

  lemma {:induction false} TruncatedParts(
    sim: Simulator, routes: seq<RoutePath>, best: seq<real>, scale: real, n: nat)
    requires n <= |routes| == |best|
    ensures PositiveParts(Truncated(sim, routes, best, scale, n), routes)
  {
    if n > 0 {
      TruncatedParts(sim, routes, best, scale, n - 1);
    }
  }

  lemma {:induction false} SumInUpdate(splits: seq<Split>, k: nat, s: Split)
    requires k < |splits|
    ensures SumIn(splits[k := s]) == SumIn(splits) - splits[k].allocIn + s.allocIn
  {
    var n := |splits| - 1;
    if k == n {
      assert splits[k := s][..n] == splits[..n];
    } else {
      SumInUpdate(splits[..n], k, s);
      assert splits[k := s][..n] == splits[..n][k := s];
    }
  }

  /** Every non-empty gross split conserves the input: the truncation loss is handed back exactly. */
  lemma GrossConserves(sim: Simulator, routes: seq<RoutePath>, amountIn: nat)
    ensures var g := GrossSplit(sim, routes, amountIn);
      g != [] ==> Conserves(g, routes, amountIn)
  {
    var total := amountIn as real;
    if |routes| > 1 && amountIn > 0 && Sum(BestAllocations(sim, routes, total)) > 0.0 {
      var best := BestAllocations(sim, routes, total);
      var _, _ := BisectionExit(sim, routes, total);
      var scale := total / Sum(best);
      ScaleRestores(Sum(best), total);
      TruncatedBelow(sim, routes, best, scale, |routes|);
      TruncatedParts(sim, routes, best, scale, |routes|);
      ScaledTotalIsScaled(best, scale, |routes|);
      assert best[..|routes|] == best;
      var t := Truncated(sim, routes, best, scale, |routes|);
      if SumIn(t) < amountIn && t != [] {
        var k := LastMax(t);
        SumInUpdate(t, k, GiveRest(sim, t, amountIn)[k]);
      }
    }
  }
}

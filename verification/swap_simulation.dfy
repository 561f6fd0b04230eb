/** Single-hop and whole-route swap simulation over exact reals (src/router.rs). */
module SwapSimulation {
  import opened Models
  import opened Text
  import opened TickSwap

  const FEE_SCALE: real := 1000000.0
  const SCALE_64: real := 18446744073709551616.0
  const SCALE_96: real := 79228162514264337593543950336.0
  const MIN_SQRT_PRICE_X64: real := 4295048016.0
  const MAX_SQRT_PRICE_X64: real := 79226673515401279992447579055.0
  const TINY: real := 0.000000000000000001

  datatype SwapSimulationResult = SwapSimulationResult(
    amountOut: real,
    marginalPrice: real,
    finalSqrtPriceInternal: real)

  /** Prices are positive and fees take at most the whole input, so that no IEEE infinity arises. */
  predicate Sane(pool: PoolState) {
    pool.sqrtPrice > 0 && pool.feeRate <= 1000000
  }

  function PoolScale(pool: PoolState): (scale: real)
    ensures scale > 0.0
  {
    if Lower(pool.dexName) == "turbos" then SCALE_96 else SCALE_64
  }

  function FeeFactor(pool: PoolState): real {
    1.0 - pool.feeRate as real / FEE_SCALE
  }

  /** What is left of an input, or of a marginal price, after the pool's fee. */
  function AfterFee(pool: PoolState, amount: real): (r: real)
    ensures Sane(pool) && amount >= 0.0 ==> r >= 0.0
  {
    if Sane(pool) && amount >= 0.0 then
      FeeFactorRange(pool);
      MulNonNeg(amount, FeeFactor(pool));
      amount * FeeFactor(pool)
    else amount * FeeFactor(pool)
  }

  function SqrtPriceInternal(pool: PoolState): (p: real)
    ensures pool.sqrtPrice > 0 ==> p > 0.0
  {
    if pool.sqrtPrice > 0 then DivPos(pool.sqrtPrice as real, PoolScale(pool));
      pool.sqrtPrice as real / PoolScale(pool)
    else pool.sqrtPrice as real / PoolScale(pool)
  }

  // ----- constant liquidity

  /** The virtual reserve the input is added to. */
  function InReserve(l: real, p: real, down: bool): real
    requires p > 0.0
  {
    if down then l / p else l * p
  }

  function OutReserve(l: real, p: real, down: bool): real
    requires p > 0.0
  {
    if down then l * p else l / p
  }

  lemma ReservePositive(l: real, p: real, down: bool)
    requires l > 0.0 && p > 0.0
    ensures InReserve(l, p, down) > 0.0 && OutReserve(l, p, down) > 0.0
    ensures InReserve(l, p, down) * OutReserve(l, p, down) == l * l
  {
    MulPos(l, p);
    DivPos(l, p);
    assert (l / p) * (l * p) == ((l / p) * p) * l;
  }

  /** Constant-product output for `dx` against reserves `x` and `y`. */
  function ProductOut(x: real, y: real, dx: real): real
    requires x + dx > 0.0
  {
    (y * dx) / (x + dx)
  }

  /** Derivative of `ProductOut` in `dx`. */
  function ProductSlope(x: real, y: real, dx: real): real
    requires x + dx > 0.0
  {
    var d := x + dx;
    MulPos(d, d);
    (y * x) / (d * d)
  }

  /** The virtual reserves of a pool on the input and the output side of a hop. */
  function PoolIn(pool: PoolState, hop: SwapHop): (x: real)
    requires Sane(pool)
    ensures pool.liquidity > 0 ==> x > 0.0
  {
    var l, p, down := pool.liquidity as real, SqrtPriceInternal(pool), hop.inputToken == pool.coinTypeA;
    if l > 0.0 then ReservePositive(l, p, down); InReserve(l, p, down) else InReserve(l, p, down)
  }

  function PoolOut(pool: PoolState, hop: SwapHop): (y: real)
    requires Sane(pool)
    ensures pool.liquidity > 0 ==> y > 0.0
  {
    var l, p, down := pool.liquidity as real, SqrtPriceInternal(pool), hop.inputToken == pool.coinTypeA;
    if l > 0.0 then ReservePositive(l, p, down); OutReserve(l, p, down) else OutReserve(l, p, down)
  }

  function SimulateHopWithinTick(pool: PoolState, hop: SwapHop, amountIn: real): SwapSimulationResult
    requires Sane(pool)
  {
    var p := SqrtPriceInternal(pool);
    var l := pool.liquidity as real;
    if amountIn <= 0.0 || pool.liquidity == 0 then
      SwapSimulationResult(0.0, SpotMarginal(pool, hop), p)
    else
      var dx := AfterFee(pool, amountIn);
      var x, y := PoolIn(pool, hop), PoolOut(pool, hop);
      SwapSimulationResult(
        ProductOut(x, y, dx),
        AfterFee(pool, ProductSlope(x, y, dx)),
        if hop.inputToken == pool.coinTypeA then PriceDown(l, p, dx) else PriceUp(l, p, dx))
  }

  function SpotMarginal(pool: PoolState, hop: SwapHop): real
    requires Sane(pool)
  {
    if pool.liquidity == 0 then 0.0
    else AfterFee(pool, ProductSlope(PoolIn(pool, hop), PoolOut(pool, hop), 0.0))
  }

  lemma FeeFactorRange(pool: PoolState)
    requires Sane(pool)
    ensures 0.0 <= FeeFactor(pool) <= 1.0
    ensures pool.feeRate < 1000000 ==> FeeFactor(pool) > 0.0
  {
  }

  // ----- with ticks

  function MarketOf(pool: PoolState, td: PoolTickData, hop: SwapHop, curve: int -> real): Market {
    var down := hop.inputToken == pool.coinTypeA;
    Market(td.ticks, curve, down, (if down then MIN_SQRT_PRICE_X64 else MAX_SQRT_PRICE_X64) / PoolScale(pool))
  }

  function StartState(pool: PoolState, td: PoolTickData, amountIn: real): SwapState {
    SwapState(AfterFee(pool, amountIn), SqrtPriceInternal(pool), pool.liquidity as real, td.currentTickIndex, 0.0, 0.0)
  }

  function MaxReal(a: real, b: real): real {
    if a >= b then a else b
  }

  /** What the loop's final variables are turned into. */
  function Finish(pool: PoolState, s: SwapState): SwapSimulationResult
  {
    if s.l <= 0.0 || s.sqrtp <= 0.0 then
      SwapSimulationResult(MaxReal(s.out, 0.0), 0.0, MaxReal(s.sqrtp, 0.0))
    else
      var x, y := s.l / s.sqrtp, s.l * s.sqrtp;
      var dxEff := MaxReal(s.lastDx, TINY);
      DivPos(s.l, s.sqrtp);
      SwapSimulationResult(MaxReal(s.out, 0.0), AfterFee(pool, ProductSlope(x, y, dxEff)), s.sqrtp)
  }

  function SimulateSwapTickAware(
    pool: PoolState, td: PoolTickData, hop: SwapHop, amountIn: real, curve: int -> real): SwapSimulationResult
    requires Sane(pool) && IsPriceCurve(curve)
  {
    if td.ticks == [] then SimulateHopWithinTick(pool, hop, amountIn)
    else if amountIn <= 0.0 then SimulateHopWithinTick(pool, hop, 0.0)
    else
      MarketValid(pool, td, hop, curve);
      Finish(pool, Run(MarketOf(pool, td, hop, curve), StartState(pool, td, amountIn), |td.ticks| + 2))
  }

  /** Tick prices: positive and strictly increasing, as `1.0001^(tick/2)` is. */
  ghost predicate IsPriceCurve(curve: int -> real) {
    && (forall t :: curve(t) > 0.0)
    && (forall s, t :: s < t ==> curve(s) < curve(t))
  }

  lemma MarketValid(pool: PoolState, td: PoolTickData, hop: SwapHop, curve: int -> real)
    requires IsPriceCurve(curve)
    ensures MarketOf(pool, td, hop, curve).Valid()
  {
    DivPos(MIN_SQRT_PRICE_X64, PoolScale(pool));
    DivPos(MAX_SQRT_PRICE_X64, PoolScale(pool));
  }

  /** The loop as the source runs it. */
  method RunSwapLoop(
    pool: PoolState, td: PoolTickData, hop: SwapHop, amountIn: real, curve: int -> real)
    returns (r: SwapSimulationResult)
    requires Sane(pool) && IsPriceCurve(curve)
    ensures r == SimulateSwapTickAware(pool, td, hop, amountIn, curve)
  {
    if td.ticks == [] {
      return SimulateHopWithinTick(pool, hop, amountIn);
    }
    if amountIn <= 0.0 {
      return SimulateHopWithinTick(pool, hop, 0.0);
    }
    MarketValid(pool, td, hop, curve);
    var m := MarketOf(pool, td, hop, curve);
    var s := StartState(pool, td, amountIn);
    s := IterateSwap(m, s, |td.ticks| + 2);
    r := Finish(pool, s);
  }

  /** The loop itself. */
  method IterateSwap(m: Market, start: SwapState, maxIter: nat) returns (s: SwapState)
    requires m.Valid() && start.sqrtp > 0.0
    ensures s == Run(m, start, maxIter)
  {
    s := start;
    var i := 0;
    while i < maxIter
      invariant i <= maxIter && s.sqrtp > 0.0
      invariant Run(m, s, maxIter - i) == Run(m, start, maxIter)
    {
      ghost var before := s;
      var stop;
      s, stop := SwapIteration(m, s);
      RunUnfolds(m, before, maxIter - i);
      if stop {
        break;
      }
      i := i + 1;
    }
  }

  /** One pass through the loop body, and whether it breaks. */
  method SwapIteration(m: Market, s: SwapState) returns (s': SwapState, stop: bool)
    requires m.Valid() && s.sqrtp > 0.0
    ensures Halted(m, s) ==> stop && s' == s
    ensures !Halted(m, s) ==> s' == Advance(m, s) && (stop ==> Halted(m, s'))
  {
    var remaining, sqrtp, l, tick, out, lastDx := s.remaining, s.sqrtp, s.l, s.tick, s.out, s.lastDx;
    stop := true;
    if remaining <= DUST {
      return s, stop;
    }
    var nextTick := PickNextTick(m.ticks, tick, m.down);
    var target := if nextTick.Some? then m.curve(nextTick.value) else m.limit;
    if l <= 0.0 || (if m.down then sqrtp <= target else sqrtp >= target) {
      return s, stop;
    }
    var delta := if m.down then ReachDown(l, sqrtp, target) else ReachUp(l, sqrtp, target);
    if remaining <= delta {
      var q := SpendPrice(m, s);
      out := out + if m.down then PayDown(l, sqrtp, q) else PayUp(l, sqrtp, q);
      lastDx := remaining;
      sqrtp := q;
      remaining := 0.0;
      stop := false;
    } else {
      out := out + if m.down then PayDown(l, sqrtp, target) else PayUp(l, sqrtp, target);
      remaining := remaining - delta;
      lastDx := delta;
      sqrtp := target;
      if nextTick.Some? {
        var net := NetOf(m.ticks, nextTick.value) as real;
        l := if m.down then l - net else l + net;
        tick := nextTick.value;
        stop := false;
      }
    }
    s' := SwapState(remaining, sqrtp, l, tick, out, lastDx);
  }

  lemma RunUnfolds(m: Market, s: SwapState, fuel: nat)
    requires m.Valid() && s.sqrtp > 0.0 && fuel > 0
    ensures Halted(m, s) ==> Run(m, s, fuel) == s
    ensures !Halted(m, s) ==>
      && Advance(m, s).sqrtp > 0.0
      && Run(m, s, fuel) == Run(m, Advance(m, s), fuel - 1)
      && (Halted(m, Advance(m, s)) ==> Run(m, s, fuel) == Advance(m, s))
  {
    if !Halted(m, s) {
      AdvancePrice(m, s);
    }
  }

  // ----- the two formulas agree

  /** The constant-product output is the payout of the tick formula. */
  lemma ProductOutIsPay(l: real, p: real, dx: real, down: bool)
    requires l > 0.0 && p > 0.0 && dx > 0.0
    ensures InReserve(l, p, down) > 0.0
    ensures PriceUp(l, p, dx) > 0.0
    ensures ProductOut(InReserve(l, p, down), OutReserve(l, p, down), dx)
            == if down then PayDown(l, p, PriceDown(l, p, dx)) else PayUp(l, p, PriceUp(l, p, dx))
  {
    ReservePositive(l, p, down);
    SpendUpRate(l, p, dx);
    if down {
      ProductOutDown(l, p, dx);
    } else {
      ProductOutUp(l, p, dx);
    }
  }

  lemma ProductOutDown(l: real, p: real, dx: real)
    requires l > 0.0 && p > 0.0 && dx > 0.0 && l / p > 0.0
    ensures ProductOut(l / p, l * p, dx) == PayDown(l, p, PriceDown(l, p, dx))
  {
    SpendDownRate(l, p, dx);
    PriceDownPositive(l, p, dx);
    DivPos(l, p);
    MulPos(l, p);
    MulPos(l * p, dx);
    var x, q := l / p, PriceDown(l, p, dx);
    DivPos((l * p) * dx, x + dx);
    ReserveTimesPrice(l, p, dx, x, q);
    SameQuotient((l * p) * dx, x + dx, ProductOut(x, l * p, dx), dx * Times(p, q));
  }

  lemma ReserveTimesPrice(l: real, p: real, dx: real, x: real, q: real)
    requires p > 0.0 && x * p == l && q * (l + dx * p) == l * p
    ensures (dx * Times(p, q)) * (x + dx) == (l * p) * dx
  {
    assert q * (x + dx) * p == q * (x * p + dx * p) == l * p;
    CancelFactor(p, q * (x + dx), l);
    assert (dx * Times(p, q)) * (x + dx) == dx * p * (q * (x + dx));
  }

  lemma CancelFactor(c: real, a: real, b: real)
    requires c != 0.0 && a * c == b * c
    ensures a == b
  {
  }

  lemma SameQuotient(n: real, d: real, a: real, b: real)
    requires d > 0.0 && a * d == n && b * d == n
    ensures a == b
  {
    CancelFactor(d, a, b);
  }

  lemma ProductOutUp(l: real, p: real, dx: real)
    requires l > 0.0 && p > 0.0 && dx > 0.0 && l * p > 0.0 && PriceUp(l, p, dx) > 0.0
    ensures ProductOut(l * p, l / p, dx) == PayUp(l, p, PriceUp(l, p, dx))
  {
    SpendUpRate(l, p, dx);
    PriceUpPositive(l, p, dx);
    DivPos(l, p);
    var y, q := l / p, PriceUp(l, p, dx);
    MulPos(y, dx);
    DivPos(y * dx, l * p + dx);
    var out := ProductOut(l * p, y, dx);
    assert l * q == l * p + dx;
    PriceTimesOut(l, p, dx, y, q, out);
    MulPos(p, q);
    SameQuotient(dx, Times(p, q), out, PayUp(l, p, q));
  }

  lemma PriceTimesOut(l: real, p: real, dx: real, y: real, q: real, out: real)
    requires l > 0.0 && p > 0.0 && y * p == l && out * (l * q) == y * dx
    ensures out * Times(p, q) == dx
  {
    assert (out * Times(p, q)) * l == out * (l * q) * p == y * dx * p == dx * l;
    CancelFactor(l, out * Times(p, q), dx);
  }

  /** A swap that stays short of the first tick: output and final price equal the constant-product form
      exactly when the input after fees is more than dust. */
  lemma NoCrossingAgreesUnlessDust(
    pool: PoolState, td: PoolTickData, hop: SwapHop, amountIn: real, curve: int -> real)
    requires Sane(pool) && IsPriceCurve(curve) && td.ticks != []
    requires amountIn > 0.0 && pool.liquidity > 0 && pool.feeRate < 1000000
    requires var m := MarketOf(pool, td, hop, curve);
      var target := (MarketValid(pool, td, hop, curve); m.Target(td.currentTickIndex));
      var start := StartState(pool, td, amountIn);
      && (if m.down then target < start.sqrtp else start.sqrtp < target)
      && start.remaining <= Reach(m, start, target)
    ensures var aware := SimulateSwapTickAware(pool, td, hop, amountIn, curve);
      var within := SimulateHopWithinTick(pool, hop, amountIn);
      (aware.amountOut == within.amountOut && aware.finalSqrtPriceInternal == within.finalSqrtPriceInternal)
      <==> AfterFee(pool, amountIn) > DUST
  {
    MarketValid(pool, td, hop, curve);
    var m, start := MarketOf(pool, td, hop, curve), StartState(pool, td, amountIn);
    WithinIsPay(pool, td, hop, amountIn, curve);
    if start.remaining > DUST {
      OneIteration(m, start, |td.ticks| + 2);
    } else {
      RunUnfolds(m, start, |td.ticks| + 2);
    }
  }

  /** An input the loop takes for dust buys nothing, while the within-tick form pays something for it. */
  lemma DustBuysNothing(
    pool: PoolState, td: PoolTickData, hop: SwapHop, amountIn: real, curve: int -> real)
    requires Sane(pool) && IsPriceCurve(curve) && td.ticks != []
    requires amountIn > 0.0 && pool.liquidity > 0 && pool.feeRate < 1000000 && AfterFee(pool, amountIn) <= DUST
    ensures SimulateSwapTickAware(pool, td, hop, amountIn, curve).amountOut == 0.0
    ensures SimulateHopWithinTick(pool, hop, amountIn).amountOut > 0.0
  {
    MarketValid(pool, td, hop, curve);
    var m, start := MarketOf(pool, td, hop, curve), StartState(pool, td, amountIn);
    RunUnfolds(m, start, |td.ticks| + 2);
    FinishKeeps(pool, start);
    AfterFeePositive(pool, amountIn);
    WithinIsPay(pool, td, hop, amountIn, curve);
    PayPositive(m, start);
  }

  const DUSTY_POOL: PoolState := PoolState("0x1", "Cetus", "A", "B", 18446744073709551616, 1000000, 0, false)

  /** As when a second hop is fed the sliver a first one left: `1e-13` of A for B at price one. */
  lemma DustExample(curve: int -> real)
    requires IsPriceCurve(curve)
    ensures var td, hop := PoolTickData("0x1", 0, [TickInfo(-1, 0)]), SwapHop("0x1", "Cetus", "A", "B", 0);
      SimulateSwapTickAware(DUSTY_POOL, td, hop, 0.0000000000001, curve).amountOut
      < SimulateHopWithinTick(DUSTY_POOL, hop, 0.0000000000001).amountOut
  {
    var td, hop := PoolTickData("0x1", 0, [TickInfo(-1, 0)]), SwapHop("0x1", "Cetus", "A", "B", 0);
    assert FeeFactor(DUSTY_POOL) == 1.0;
    DustBuysNothing(DUSTY_POOL, td, hop, 0.0000000000001, curve);
  }

  /** The within-tick simulation in terms of the loop's formulas. */
  lemma WithinIsPay(pool: PoolState, td: PoolTickData, hop: SwapHop, amountIn: real, curve: int -> real)
    requires Sane(pool) && amountIn > 0.0 && pool.liquidity > 0 && pool.feeRate < 1000000
    ensures var m, start := MarketOf(pool, td, hop, curve), StartState(pool, td, amountIn);
      var within := SimulateHopWithinTick(pool, hop, amountIn);
      && start.remaining > 0.0 && start.sqrtp > 0.0
      && within.finalSqrtPriceInternal == SpendPrice(m, start)
      && within.amountOut == Pay(m, start.l, start.sqrtp, SpendPrice(m, start))
      && within.amountOut > 0.0
  {
    AfterFeePositive(pool, amountIn);
    var m, start := MarketOf(pool, td, hop, curve), StartState(pool, td, amountIn);
    var l, p, dx := start.l, start.sqrtp, start.remaining;
    ProductOutIsPay(l, p, dx, m.down);
    PayPositive(m, start);
  }

  lemma PayPositive(m: Market, s: SwapState)
    requires s.l > 0.0 && s.sqrtp > 0.0 && s.remaining > 0.0
    ensures Pay(m, s.l, s.sqrtp, SpendPrice(m, s)) > 0.0
  {
    SpendExchanges(m, s);
    var q := SpendPrice(m, s);
    if m.down {
      MulPos(s.sqrtp, q);
      MulPos(s.remaining, Times(s.sqrtp, q));
    } else {
      DivideOut(s.remaining, Pay(m, s.l, s.sqrtp, q), s.sqrtp, q);
    }
  }

  /** A swap that does not reach the first tick takes a single iteration. */
  lemma OneIteration(m: Market, s: SwapState, fuel: nat)
    requires m.Valid() && s.sqrtp > 0.0 && fuel > 0 && !Halted(m, s)
    requires s.remaining <= Reach(m, s, m.Target(s.tick))
    ensures var q := SpendPrice(m, s);
      Run(m, s, fuel) == SwapState(0.0, q, s.l, s.tick, s.out + Pay(m, s.l, s.sqrtp, q), s.remaining)
  {
    RunUnfolds(m, s, fuel);
  }

  // ----- constant-product output is increasing and concave

  /** Between two inputs the output grows at a rate between the marginals returned at the two ends. */
  lemma WithinTickConcave(pool: PoolState, hop: SwapHop, a: real, b: real)
    requires Sane(pool) && pool.liquidity > 0 && 0.0 <= a <= b
    ensures var ra, rb := SimulateHopWithinTick(pool, hop, a), SimulateHopWithinTick(pool, hop, b);
      && 0.0 <= Times(rb.marginalPrice, b - a)
      && Times(rb.marginalPrice, b - a) <= rb.amountOut - ra.amountOut <= Times(ra.marginalPrice, b - a)
  {
    WithinForm(pool, hop, a);
    WithinForm(pool, hop, b);
    FeeConcave(pool, PoolIn(pool, hop), PoolOut(pool, hop), a, b);
  }

  /** Output and marginal of the within-tick simulation, also at input zero. */
  lemma WithinForm(pool: PoolState, hop: SwapHop, a: real)
    requires Sane(pool) && pool.liquidity > 0 && 0.0 <= a
    ensures var r, dx := SimulateHopWithinTick(pool, hop, a), AfterFee(pool, a);
      && r.amountOut == ProductOut(PoolIn(pool, hop), PoolOut(pool, hop), dx)
      && r.marginalPrice == AfterFee(pool, ProductSlope(PoolIn(pool, hop), PoolOut(pool, hop), dx))
  {
    if a == 0.0 {
      ZeroInput(PoolIn(pool, hop), PoolOut(pool, hop));
      assert AfterFee(pool, a) == 0.0;
    }
  }

  lemma ZeroInput(x: real, y: real)
    requires x > 0.0
    ensures ProductOut(x, y, 0.0) == 0.0
  {
  }

  lemma FeeConcave(pool: PoolState, x: real, y: real, a: real, b: real)
    requires Sane(pool) && x > 0.0 && y > 0.0 && 0.0 <= a <= b
    ensures var d1, d2 := AfterFee(pool, a), AfterFee(pool, b);
      && 0.0 <= Times(AfterFee(pool, ProductSlope(x, y, d2)), b - a)
      && Times(AfterFee(pool, ProductSlope(x, y, d2)), b - a) <= ProductOut(x, y, d2) - ProductOut(x, y, d1)
      && ProductOut(x, y, d2) - ProductOut(x, y, d1) <= Times(AfterFee(pool, ProductSlope(x, y, d1)), b - a)
  {
    AfterFeeMono(pool, a, b);
    var d1, d2 := AfterFee(pool, a), AfterFee(pool, b);
    ChordBelowStart(x, y, d1, d2);
    ChordAboveEnd(x, y, d1, d2);
    AfterFeeMoves(pool, ProductSlope(x, y, d1), a, b);
    AfterFeeMoves(pool, ProductSlope(x, y, d2), a, b);
  }

  lemma AfterFeePositive(pool: PoolState, amount: real)
    requires pool.feeRate < 1000000 && amount > 0.0
    ensures AfterFee(pool, amount) > 0.0
  {
    var f := FeeFactor(pool);
    assert f > 0.0;
    MulPos(amount, f);
    assert AfterFee(pool, amount) == amount * f;
  }

  lemma AfterFeeMono(pool: PoolState, a: real, b: real)
    requires Sane(pool) && a <= b
    ensures AfterFee(pool, a) <= AfterFee(pool, b)
  {
    var f := FeeFactor(pool);
    assert f >= 0.0;
    MulMono(a, b, f);
    assert AfterFee(pool, a) == a * f && AfterFee(pool, b) == b * f;
  }

  /** The fee can be taken off the price or off the amount. */
  lemma AfterFeeMoves(pool: PoolState, s: real, a: real, b: real)
    ensures Times(AfterFee(pool, s), b - a) == Times(s, AfterFee(pool, b) - AfterFee(pool, a))
  {
    var f := FeeFactor(pool);
    assert AfterFee(pool, s) == s * f && AfterFee(pool, a) == a * f && AfterFee(pool, b) == b * f;
    Distribute(s, f, a, b);
  }

  lemma Distribute(s: real, f: real, a: real, b: real)
    ensures s * (b * f - a * f) == (s * f) * (b - a)
  {
  }

  lemma ChordBelowStart(x: real, y: real, d1: real, d2: real)
    requires x > 0.0 && y > 0.0 && 0.0 <= d1 <= d2
    ensures ProductOut(x, y, d2) - ProductOut(x, y, d1) <= Times(ProductSlope(x, y, d1), d2 - d1)
  {
    var u, v, step := x + d1, x + d2, d2 - d1;
    AreaNonNeg(x, y, step);
    ChordTimesArea(x, y, d1, d2);
    SlopeTimesArea(x, y, d1, step);
    TimesMono(u, u, u, v);
    QuotientMono(Area(x, y, step), Times(u, u), Times(u, v),
                 Times(ProductSlope(x, y, d1), step), ProductOut(x, y, d2) - ProductOut(x, y, d1));
  }

  lemma ChordAboveEnd(x: real, y: real, d1: real, d2: real)
    requires x > 0.0 && y > 0.0 && 0.0 <= d1 <= d2
    ensures 0.0 <= Times(ProductSlope(x, y, d2), d2 - d1) <= ProductOut(x, y, d2) - ProductOut(x, y, d1)
  {
    var u, v, step := x + d1, x + d2, d2 - d1;
    AreaNonNeg(x, y, step);
    ChordTimesArea(x, y, d1, d2);
    SlopeTimesArea(x, y, d2, step);
    TimesMono(u, v, v, v);
    QuotientMono(Area(x, y, step), Times(u, v), Times(v, v),
                 ProductOut(x, y, d2) - ProductOut(x, y, d1), Times(ProductSlope(x, y, d2), step));
    SignOfQuotient(Area(x, y, step), Times(v, v), Times(ProductSlope(x, y, d2), step));
  }

  function Area(x: real, y: real, step: real): real {
    y * x * step
  }

  lemma AreaNonNeg(x: real, y: real, step: real)
    requires x > 0.0 && y > 0.0 && step >= 0.0
    ensures Area(x, y, step) >= 0.0
  {
    MulPos(y, x);
    MulNonNeg(y * x, step);
  }

  lemma SignOfQuotient(k: real, d: real, q: real)
    requires k >= 0.0 && d > 0.0 && q * d == k
    ensures q >= 0.0
  {
    if q < 0.0 {
      MulPos(-q, d);
    }
  }

  lemma SlopeTimesArea(x: real, y: real, d: real, step: real)
    requires x > 0.0 && d >= 0.0
    ensures Times(ProductSlope(x, y, d), step) * Times(x + d, x + d) == Area(x, y, step)
  {
    var u := x + d;
    MulPos(u, u);
    var s := ProductSlope(x, y, d);
    assert s * (u * u) == y * x;
    assert (s * step) * (u * u) == (s * (u * u)) * step;
  }

  lemma ChordTimesArea(x: real, y: real, d1: real, d2: real)
    requires x > 0.0 && 0.0 <= d1 && 0.0 <= d2
    ensures (ProductOut(x, y, d2) - ProductOut(x, y, d1)) * Times(x + d1, x + d2) == Area(x, y, d2 - d1)
  {
    var u, v := x + d1, x + d2;
    var o1, o2 := ProductOut(x, y, d1), ProductOut(x, y, d2);
    assert o1 * u == y * d1 && o2 * v == y * d2;
    assert (o2 - o1) * (u * v) == (o2 * v) * u - (o1 * u) * v;
    assert y * d2 * u - y * d1 * v == y * x * (d2 - d1);
  }

  // ----- price bounds and monotonicity of a whole hop

  /** The output of a tick-crossing swap is priced, for the part of the input actually used, between
      the initial and the final price; the price moves only in the swap direction. */
  lemma TickAwareSandwiched(
    pool: PoolState, td: PoolTickData, hop: SwapHop, amountIn: real, curve: int -> real)
    requires Sane(pool) && IsPriceCurve(curve) && td.ticks != [] && amountIn > 0.0 && pool.feeRate < 1000000
    ensures var r, p, m := SimulateSwapTickAware(pool, td, hop, amountIn, curve), SqrtPriceInternal(pool),
                           MarketOf(pool, td, hop, curve);
      var paid := AfterFee(pool, amountIn) - Unspent(pool, td, hop, amountIn, curve);
      && 0.0 <= paid <= AfterFee(pool, amountIn)
      && r.amountOut >= 0.0 && r.finalSqrtPriceInternal > 0.0
      && (if m.down then r.finalSqrtPriceInternal <= p else p <= r.finalSqrtPriceInternal)
      && Sandwiched(m, paid, r.amountOut, p, r.finalSqrtPriceInternal)
  {
    MarketValid(pool, td, hop, curve);
    AfterFeePositive(pool, amountIn);
    var m, start := MarketOf(pool, td, hop, curve), StartState(pool, td, amountIn);
    var f := Run(m, start, |td.ticks| + 2);
    RunSandwiched(m, start, |td.ticks| + 2);
    assert f.out - start.out == f.out;
    FinishKeeps(pool, f);
  }

  /** The part of the input after fees that is left when the loop ends. */
  function Unspent(pool: PoolState, td: PoolTickData, hop: SwapHop, amountIn: real, curve: int -> real): real
    requires Sane(pool) && IsPriceCurve(curve)
  {
    MarketValid(pool, td, hop, curve);
    Run(MarketOf(pool, td, hop, curve), StartState(pool, td, amountIn), |td.ticks| + 2).remaining
  }

  lemma FinishKeeps(pool: PoolState, f: SwapState)
    requires f.out >= 0.0 && f.sqrtp > 0.0
    ensures Finish(pool, f).amountOut == f.out && Finish(pool, f).finalSqrtPriceInternal == f.sqrtp
  {
  }

  /** More input never yields less output, whichever of the two simulators the hop uses. */
  lemma HopMonotone(
    pool: PoolState, td: Option<PoolTickData>, hop: SwapHop, a: real, b: real, curve: int -> real)
    requires Sane(pool) && IsPriceCurve(curve) && a <= b
    ensures 0.0 <= SimulateHop(pool, td, hop, a, curve).amountOut <= SimulateHop(pool, td, hop, b, curve).amountOut
  {
    if td.None? || td.value.ticks == [] {
      WithinMonotone(pool, hop, a, b);
    } else if a <= 0.0 {
      TickAwareNonNegative(pool, td.value, hop, b, curve);
    } else {
      MarketValid(pool, td.value, hop, curve);
      AfterFeeMono(pool, a, b);
      RunMonotone(MarketOf(pool, td.value, hop, curve), StartState(pool, td.value, a), StartState(pool, td.value, b),
                  |td.value.ticks| + 2);
    }
  }

  lemma WithinMonotone(pool: PoolState, hop: SwapHop, a: real, b: real)
    requires Sane(pool) && a <= b
    ensures 0.0 <= SimulateHopWithinTick(pool, hop, a).amountOut <= SimulateHopWithinTick(pool, hop, b).amountOut
  {
    if pool.liquidity > 0 {
      if b > 0.0 {
        WithinTickConcave(pool, hop, 0.0, b);
      }
      if a > 0.0 {
        WithinTickConcave(pool, hop, 0.0, a);
        WithinTickConcave(pool, hop, a, b);
      }
    }
  }

  lemma TickAwareNonNegative(pool: PoolState, td: PoolTickData, hop: SwapHop, a: real, curve: int -> real)
    requires Sane(pool) && IsPriceCurve(curve) && td.ticks != []
    ensures SimulateSwapTickAware(pool, td, hop, a, curve).amountOut >= 0.0
  {
  }

  // ----- routes

  /** Tick data when the pool has any, else the within-tick form. */
  function SimulateHop(
    pool: PoolState, td: Option<PoolTickData>, hop: SwapHop, amountIn: real, curve: int -> real): SwapSimulationResult
    requires Sane(pool) && IsPriceCurve(curve)
  {
    match td
    case Some(data) => SimulateSwapTickAware(pool, data, hop, amountIn, curve)
    case None => SimulateHopWithinTick(pool, hop, amountIn)
  }

  type Pools = map<string, PoolState>
  type Ticks = map<string, PoolTickData>

  ghost predicate SanePools(pools: Pools) {
    forall id :: id in pools ==> Sane(pools[id])
  }

  function TicksOf(ticks: Ticks, id: string): Option<PoolTickData> {
    if id in ticks then Some(ticks[id]) else None
  }

  function Compound(marginal: real, hopMarginal: real): real {
    marginal * hopMarginal
  }

  /** Output and product of the hop marginals; a missing pool zeroes both. */
  function SimulateRoute(
    hops: seq<SwapHop>, amount: real, marginal: real, pools: Pools, ticks: Ticks, curve: int -> real): (real, real)
    requires SanePools(pools) && IsPriceCurve(curve)
  {
    if hops == [] then (amount, marginal)
    else if hops[0].poolId !in pools then (0.0, 0.0)
    else
      var r := SimulateHop(pools[hops[0].poolId], TicksOf(ticks, hops[0].poolId), hops[0], amount, curve);
      SimulateRoute(hops[1..], r.amountOut, Compound(marginal, r.marginalPrice), pools, ticks, curve)
  }

  method RunHop(pool: PoolState, td: Option<PoolTickData>, hop: SwapHop, amountIn: real, curve: int -> real)
    returns (r: SwapSimulationResult)
    requires Sane(pool) && IsPriceCurve(curve)
    ensures r == SimulateHop(pool, td, hop, amountIn, curve)
  {
    match td
    case Some(data) => r := RunSwapLoop(pool, data, hop, amountIn, curve);
    case None => r := SimulateHopWithinTick(pool, hop, amountIn);
  }

  method SimulateRouteTickAware(route: RoutePath, amountIn: real, pools: Pools, ticks: Ticks, curve: int -> real)
    returns (out: real, marginal: real)
    requires SanePools(pools) && IsPriceCurve(curve)
    ensures (out, marginal) == SimulateRoute(route.hops, amountIn, 1.0, pools, ticks, curve)
  {
    out, marginal := amountIn, 1.0;
    for i := 0 to |route.hops|
      invariant SimulateRoute(route.hops[i..], out, marginal, pools, ticks, curve)
                == SimulateRoute(route.hops, amountIn, 1.0, pools, ticks, curve)
    {
      var hop := route.hops[i];
      assert route.hops[i..][0] == hop && route.hops[i..][1..] == route.hops[i + 1..];
      if hop.poolId !in pools {
        return 0.0, 0.0;
      }
      var r := RunHop(pools[hop.poolId], TicksOf(ticks, hop.poolId), hop, out, curve);
      out, marginal := r.amountOut, Compound(marginal, r.marginalPrice);
    }
  }

  /** More input into a route never yields less output, over any mix of pools and tick data. */
  lemma {:induction false} RouteMonotone(
    hops: seq<SwapHop>, a: real, b: real, ma: real, mb: real, pools: Pools, ticks: Ticks, curve: int -> real)
    requires SanePools(pools) && IsPriceCurve(curve) && a <= b
    ensures SimulateRoute(hops, a, ma, pools, ticks, curve).0 <= SimulateRoute(hops, b, mb, pools, ticks, curve).0
  {
    if hops != [] && hops[0].poolId in pools {
      var pool, td := pools[hops[0].poolId], TicksOf(ticks, hops[0].poolId);
      HopMonotone(pool, td, hops[0], a, b, curve);
      var ra, rb := SimulateHop(pool, td, hops[0], a, curve), SimulateHop(pool, td, hops[0], b, curve);
      RouteMonotone(hops[1..], ra.amountOut, rb.amountOut,
                    Compound(ma, ra.marginalPrice), Compound(mb, rb.marginalPrice), pools, ticks, curve);
    }
  }
}

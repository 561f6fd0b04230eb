/** Tick-crossing swap simulation over exact reals (src/router.rs, `simulate_swap_tick_aware_detailed`). */
module TickSwap {
  import opened Models

  /** `remaining` at or below this counts as spent. */
  const DUST: real := 0.000000000001

  // ----- ticks

  /** The closest initialized tick strictly beyond `current` in the swap direction. */
  function PickNextTick(ticks: seq<TickInfo>, current: int, down: bool): (next: Option<int>)
    ensures next.Some? ==> Beyond(next.value, current, down) && HasTick(ticks, next.value)
    ensures forall i :: 0 <= i < |ticks| && Beyond(ticks[i].tickIndex, current, down) ==>
      next.Some? && !Beyond(next.value, ticks[i].tickIndex, down)
  {
    if ticks == [] then None
    else
      var rest := PickNextTick(ticks[1..], current, down);
      var t := ticks[0].tickIndex;
      if !Beyond(t, current, down) then rest
      else if rest.None? || Beyond(rest.value, t, down) then Some(t)
      else rest
  }

  /** `t` lies strictly further along the swap direction than `current`. */
  predicate Beyond(t: int, current: int, down: bool) {
    if down then t < current else t > current
  }

  predicate HasTick(ticks: seq<TickInfo>, t: int) {
    exists i :: 0 <= i < |ticks| && ticks[i].tickIndex == t
  }

  /** `liquidity_net` of the first entry for tick `t`, zero when there is none. */
  function NetOf(ticks: seq<TickInfo>, t: int): int {
    if ticks == [] then 0
    else if ticks[0].tickIndex == t then ticks[0].liquidityNet
    else NetOf(ticks[1..], t)
  }

  ghost predicate DistinctTicks(ticks: seq<TickInfo>) {
    forall i, j :: 0 <= i < j < |ticks| ==> ticks[i].tickIndex != ticks[j].tickIndex
  }

  /** Sum of `liquidity_net` over the entries whose index lies in `[lo, hi)`. */
  function SumNet(ticks: seq<TickInfo>, lo: int, hi: int): int {
    if ticks == [] then 0
    else (if lo <= ticks[0].tickIndex < hi then ticks[0].liquidityNet else 0) + SumNet(ticks[1..], lo, hi)
  }

  /** How many entries still lie beyond `current`. */
  function CountBeyond(ticks: seq<TickInfo>, current: int, down: bool): (n: nat)
    ensures n <= |ticks|
  {
    if ticks == [] then 0
    else (if Beyond(ticks[0].tickIndex, current, down) then 1 else 0) + CountBeyond(ticks[1..], current, down)
  }

  // ----- the loop

  /** What does not change during one swap: the ticks, the price of a tick, the direction and the
      price limit used once no tick is left. */
  datatype Market = Market(ticks: seq<TickInfo>, curve: int -> real, down: bool, limit: real)
  {
    /** Tick prices are positive and strictly increasing; so is the limit positive. */
    ghost predicate Valid() {
      && limit > 0.0
      && (forall t :: curve(t) > 0.0)
      && (forall s, t :: s < t ==> curve(s) < curve(t))
    }

    function Target(tick: int): (p: real)
      requires Valid()
      ensures p > 0.0
    {
      match PickNextTick(ticks, tick, down)
      case Some(t) => curve(t)
      case None => limit
    }
  }

  /** The variables of the loop. */
  datatype SwapState = SwapState(remaining: real, sqrtp: real, l: real, tick: int, out: real, lastDx: real)

  /** No further iteration changes anything. */
  predicate Halted(m: Market, s: SwapState)
    requires m.Valid()
  {
    || s.remaining <= DUST
    || s.l <= 0.0
    || (if m.down then s.sqrtp <= m.Target(s.tick) else s.sqrtp >= m.Target(s.tick))
  }

  // The six formulas of the loop; down swaps coin A in, up swaps coin B in.

  /** Input that moves the price from `p` down to `target`. */
  function ReachDown(l: real, p: real, target: real): real
    requires p > 0.0 && target > 0.0
  {
    l * (p - target) / (p * target)
  }

  function ReachUp(l: real, p: real, target: real): real {
    l * (target - p)
  }

  /** The price after spending `r` at constant liquidity `l`. */
  function PriceDown(l: real, p: real, r: real): real
    requires l > 0.0 && p > 0.0 && r >= 0.0
  {
    MulNonNeg(r, p);
    l * p / (l + r * p)
  }

  function PriceUp(l: real, p: real, r: real): real
    requires l > 0.0
  {
    p + r / l
  }

  /** Output for moving the price from `p` to `q` at liquidity `l`. */
  function PayDown(l: real, p: real, q: real): real {
    l * (p - q)
  }

  function PayUp(l: real, p: real, q: real): real
    requires p > 0.0 && q > 0.0
  {
    l * (q - p) / (p * q)
  }

  function Reach(m: Market, s: SwapState, target: real): real
    requires s.sqrtp > 0.0 && target > 0.0
  {
    if m.down then ReachDown(s.l, s.sqrtp, target) else ReachUp(s.l, s.sqrtp, target)
  }

  function SpendPrice(m: Market, s: SwapState): (q: real)
    requires s.sqrtp > 0.0 && s.l > 0.0 && s.remaining >= 0.0
    ensures q > 0.0
  {
    if m.down then
      PriceDownPositive(s.l, s.sqrtp, s.remaining);
      PriceDown(s.l, s.sqrtp, s.remaining)
    else
      PriceUpPositive(s.l, s.sqrtp, s.remaining);
      PriceUp(s.l, s.sqrtp, s.remaining)
  }

  function Pay(m: Market, l: real, p: real, q: real): real
    requires p > 0.0 && q > 0.0
  {
    if m.down then PayDown(l, p, q) else PayUp(l, p, q)
  }

  /** One iteration of the loop. */
  function Advance(m: Market, s: SwapState): SwapState
    requires m.Valid() && s.sqrtp > 0.0 && !Halted(m, s)
  {
    var target := m.Target(s.tick);
    var delta := Reach(m, s, target);
    if s.remaining <= delta then
      var q := SpendPrice(m, s);
      SwapState(0.0, q, s.l, s.tick, s.out + Pay(m, s.l, s.sqrtp, q), s.remaining)
    else
      var crossed := SwapState(s.remaining - delta, target, s.l, s.tick, s.out + Pay(m, s.l, s.sqrtp, target), delta);
      match PickNextTick(m.ticks, s.tick, m.down)
      case None => crossed
      case Some(t) =>
        var net := NetOf(m.ticks, t) as real;
        crossed.(l := if m.down then s.l - net else s.l + net, tick := t)
  }

  /** At most `fuel` iterations. */
  function Run(m: Market, s: SwapState, fuel: nat): SwapState
    requires m.Valid() && s.sqrtp > 0.0
    decreases fuel
  {
    if fuel == 0 || Halted(m, s) then s
    else
      AdvancePrice(m, s);
      Run(m, Advance(m, s), fuel - 1)
  }

  // ----- one iteration

  /** The price moves in the swap direction, by a positive amount, and never past the target. */
  lemma AdvancePrice(m: Market, s: SwapState)
    requires m.Valid() && s.sqrtp > 0.0 && !Halted(m, s)
    ensures var q, target := Advance(m, s).sqrtp, m.Target(s.tick);
      if m.down then target <= q < s.sqrtp else s.sqrtp < q <= target
  {
    if s.remaining <= Reach(m, s, m.Target(s.tick)) {
      SpendFacts(m, s, m.Target(s.tick));
    }
  }

  /** A product kept as a single term: the proofs below reason about it linearly. */
  function Times(a: real, b: real): real {
    a * b
  }

  /** Input `paid` and output `got` are related by the product of the two end prices. */
  predicate Exchanges(m: Market, paid: real, got: real, p: real, q: real) {
    if m.down then got == paid * Times(p, q) else got * Times(p, q) == paid
  }

  /** Spending everything within reach stops short of the target. */
  lemma SpendFacts(m: Market, s: SwapState, target: real)
    requires s.sqrtp > 0.0 && s.l > 0.0 && s.remaining > 0.0 && target > 0.0
    requires if m.down then target < s.sqrtp else s.sqrtp < target
    requires s.remaining <= Reach(m, s, target)
    ensures var q := SpendPrice(m, s);
      if m.down then target <= q < s.sqrtp else s.sqrtp < q <= target
  {
    if m.down {
      SpendDownRate(s.l, s.sqrtp, s.remaining);
      SpendDownBound(s.l, s.sqrtp, target, s.remaining);
    } else {
      SpendUpRate(s.l, s.sqrtp, s.remaining);
      SpendUpBound(s.l, s.sqrtp, target, s.remaining);
    }
  }

  lemma SpendExchanges(m: Market, s: SwapState)
    requires s.sqrtp > 0.0 && s.l > 0.0 && s.remaining > 0.0
    ensures Exchanges(m, s.remaining, Pay(m, s.l, s.sqrtp, SpendPrice(m, s)), s.sqrtp, SpendPrice(m, s))
  {
    if m.down {
      SpendDownRate(s.l, s.sqrtp, s.remaining);
    } else {
      SpendUpRate(s.l, s.sqrtp, s.remaining);
    }
  }

  /** Crossing to the target uses up the reach at the same exchange relation. */
  lemma CrossFacts(m: Market, s: SwapState, target: real)
    requires s.sqrtp > 0.0 && s.l > 0.0 && target > 0.0
    requires if m.down then target < s.sqrtp else s.sqrtp < target
    ensures Reach(m, s, target) > 0.0
    ensures Exchanges(m, Reach(m, s, target), Pay(m, s.l, s.sqrtp, target), s.sqrtp, target)
  {
    if m.down {
      CrossDown(s.l, s.sqrtp, target);
    } else {
      CrossUp(s.l, s.sqrtp, target);
    }
  }

  lemma PriceDownPositive(l: real, p: real, r: real)
    requires l > 0.0 && p > 0.0 && r >= 0.0
    ensures PriceDown(l, p, r) > 0.0
    ensures PriceDown(l, p, r) * (l + r * p) == l * p
  {
    MulNonNeg(r, p);
    MulPos(l, p);
    DivPos(l * p, l + r * p);
  }

  lemma PriceUpPositive(l: real, p: real, r: real)
    requires l > 0.0 && p > 0.0 && r >= 0.0
    ensures PriceUp(l, p, r) >= p
    ensures l * (PriceUp(l, p, r) - p) == r
  {
    if r > 0.0 {
      DivPos(r, l);
    }
  }

  lemma SpendDownRate(l: real, p: real, r: real)
    requires l > 0.0 && r > 0.0 && p > 0.0
    ensures 0.0 < PriceDown(l, p, r) < p
    ensures PayDown(l, p, PriceDown(l, p, r)) == r * Times(p, PriceDown(l, p, r))
  {
    PriceDownPositive(l, p, r);
    var q := PriceDown(l, p, r);
    MulPos(r, p);
    MulPos(q, r * p);
    assert q * l + q * (r * p) == l * p;
    LessByFactor(l, q, p);
  }

  lemma SpendDownBound(l: real, p: real, target: real, r: real)
    requires l > 0.0 && r > 0.0 && 0.0 < target < p
    requires r <= ReachDown(l, p, target)
    ensures target <= PriceDown(l, p, r)
  {
    PriceDownPositive(l, p, r);
    CrossDown(l, p, target);
    MulPos(r, p);
    MulPos(p, target);
    MulMono(r, ReachDown(l, p, target), Times(p, target));
    assert r * Times(p, target) <= l * p - l * target;
    assert target * (l + r * p) == l * target + r * Times(p, target);
    LessByFactor(l + r * p, target, PriceDown(l, p, r));
  }

  lemma SpendUpRate(l: real, p: real, r: real)
    requires l > 0.0 && r > 0.0 && 0.0 < p
    ensures p < PriceUp(l, p, r)
    ensures PayUp(l, p, PriceUp(l, p, r)) * Times(p, PriceUp(l, p, r)) == r
  {
    PriceUpPositive(l, p, r);
    CrossUp(l, p, PriceUp(l, p, r));
  }

  lemma SpendUpBound(l: real, p: real, target: real, r: real)
    requires l > 0.0 && r > 0.0 && 0.0 < p < target
    requires r <= ReachUp(l, p, target)
    ensures PriceUp(l, p, r) <= target
  {
    PriceUpPositive(l, p, r);
    LessByFactor(l, PriceUp(l, p, r) - p, target - p);
  }

  lemma CrossDown(l: real, p: real, target: real)
    requires l > 0.0 && 0.0 < target < p
    ensures ReachDown(l, p, target) > 0.0
    ensures PayDown(l, p, target) == ReachDown(l, p, target) * Times(p, target)
  {
    MulPos(p, target);
    MulPos(l, p - target);
    DivPos(l * (p - target), p * target);
  }

  lemma CrossUp(l: real, p: real, target: real)
    requires l > 0.0 && 0.0 < p < target
    ensures ReachUp(l, p, target) > 0.0
    ensures PayUp(l, p, target) * Times(p, target) == ReachUp(l, p, target)
  {
    MulPos(p, target);
    MulPos(l, target - p);
    DivPos(l * (target - p), p * target);
  }

  // ----- whole swaps

  lemma AdvanceExchanges(m: Market, s: SwapState)
    requires m.Valid() && s.sqrtp > 0.0 && !Halted(m, s)
    ensures var s' := Advance(m, s);
      && 0.0 <= s'.remaining < s.remaining
      && Exchanges(m, s.remaining - s'.remaining, s'.out - s.out, s.sqrtp, s'.sqrtp)
  {
    var target := m.Target(s.tick);
    if s.remaining <= Reach(m, s, target) {
      SpendExchanges(m, s);
    } else {
      CrossFacts(m, s, target);
    }
  }

  /** `got` for `paid` is priced between the two end prices `p` (first) and `q` (last). */
  predicate Sandwiched(m: Market, paid: real, got: real, p: real, q: real) {
    if m.down then paid * Times(q, q) <= got <= paid * Times(p, p)
    else got * Times(p, p) <= paid <= got * Times(q, q)
  }

  /** Over any number of crossed ticks the price only moves in the swap direction, and what is paid
      out for the input used up is priced between the final and the initial price. */
  lemma {:induction false} RunSandwiched(m: Market, s: SwapState, fuel: nat)
    requires m.Valid() && s.sqrtp > 0.0
    ensures var f := Run(m, s, fuel);
      && f.sqrtp > 0.0
      && (if m.down then f.sqrtp <= s.sqrtp else s.sqrtp <= f.sqrtp)
      && f.remaining <= s.remaining && s.out <= f.out
      && (s.remaining >= 0.0 ==> f.remaining >= 0.0)
      && Sandwiched(m, s.remaining - f.remaining, f.out - s.out, s.sqrtp, f.sqrtp)
    decreases fuel
  {
    if fuel != 0 && !Halted(m, s) {
      var s' := Advance(m, s);
      AdvancePrice(m, s);
      AdvanceExchanges(m, s);
      RunSandwiched(m, s', fuel - 1);
      var f := Run(m, s', fuel - 1);
      var c, g, c', g' := s.remaining - s'.remaining, s'.out - s.out, s'.remaining - f.remaining, f.out - s'.out;
      PasteSandwich(m, c, g, c', g', s.sqrtp, s'.sqrtp, f.sqrtp);
      assert s.remaining - f.remaining == c + c' && f.out - s.out == g + g';
    }
  }

  lemma PasteSandwich(m: Market, c: real, g: real, c': real, g': real, p: real, q: real, z: real)
    requires c > 0.0 && c' >= 0.0 && g' >= 0.0 && p > 0.0 && q > 0.0 && z > 0.0
    requires if m.down then z <= q <= p else p <= q <= z
    requires Exchanges(m, c, g, p, q) && Sandwiched(m, c', g', q, z)
    ensures g >= 0.0
    ensures Sandwiched(m, c + c', g + g', p, z)
  {
    if m.down {
      PasteLower(c, g, c', g', p, q, z, z);
      PasteUpper(c, g, c', g', p, q, q, p);
    } else {
      DivideOut(c, g, p, q);
      PasteLower(g, c, g', c', p, q, q, p);
      PasteUpper(g, c, g', c', p, q, z, z);
    }
  }

  // Chaining one priced piece `(x, y)` between `p` and `q` with a bounded rest between `q` and `z`.

  lemma PasteLower(x: real, y: real, x': real, y': real, p: real, q: real, a: real, z: real)
    requires x >= 0.0 && x' >= 0.0 && 0.0 < z <= q && z <= p && z <= a
    requires y == x * Times(p, q) && x' * Times(a, a) <= y'
    ensures y >= 0.0 && (x + x') * Times(z, z) <= y + y'
  {
    TimesMono(z, z, p, q);
    TimesMono(z, z, a, a);
    PasteAbove(x, y, x', y', Times(p, q), Times(a, a), Times(z, z));
  }

  lemma PasteUpper(x: real, y: real, x': real, y': real, p: real, q: real, a: real, z: real)
    requires x >= 0.0 && x' >= 0.0 && 0.0 < q <= z && 0.0 < p <= z && 0.0 < a <= z
    requires y == x * Times(p, q) && y' <= x' * Times(a, a)
    ensures y + y' <= (x + x') * Times(z, z)
  {
    TimesMono(p, q, z, z);
    TimesMono(a, a, z, z);
    PasteBelow(x, y, x', y', Times(p, q), Times(a, a), Times(z, z));
  }

  lemma PasteAbove(x: real, y: real, x': real, y': real, rate: real, rate': real, bound: real)
    requires x >= 0.0 && x' >= 0.0 && y == x * rate && x' * rate' <= y'
    requires 0.0 < bound <= rate && bound <= rate'
    ensures y >= 0.0 && (x + x') * bound <= y + y'
  {
    MulNonNeg(x, rate);
    MulMono(bound, rate, x);
    MulMono(bound, rate', x');
  }

  lemma PasteBelow(x: real, y: real, x': real, y': real, rate: real, rate': real, bound: real)
    requires x >= 0.0 && x' >= 0.0 && y == x * rate && y' <= x' * rate'
    requires rate <= bound && rate' <= bound
    ensures y + y' <= (x + x') * bound
  {
    MulMono(rate, bound, x);
    MulMono(rate', bound, x');
  }

  lemma TimesMono(a: real, b: real, c: real, d: real)
    requires 0.0 < a <= c && 0.0 < b <= d
    ensures 0.0 < Times(a, b) <= Times(c, d)
  {
    MulPos(a, b);
    MulMono(a, c, b);
    MulMono(b, d, c);
  }

  lemma DivideOut(c: real, g: real, p: real, q: real)
    requires c > 0.0 && p > 0.0 && q > 0.0 && g * Times(p, q) == c
    ensures g > 0.0
  {
    MulPos(p, q);
    if g <= 0.0 {
      MulNonNeg(-g, Times(p, q));
    }
  }

  // ----- the loop bound

  lemma {:induction false} CountDrops(ticks: seq<TickInfo>, current: int, next: int, down: bool)
    requires Beyond(next, current, down)
    ensures CountBeyond(ticks, next, down) <= CountBeyond(ticks, current, down)
    ensures HasTick(ticks, next) ==> CountBeyond(ticks, next, down) < CountBeyond(ticks, current, down)
  {
    if ticks != [] {
      CountDrops(ticks[1..], current, next, down);
      if HasTick(ticks, next) && ticks[0].tickIndex != next {
        var i :| 0 <= i < |ticks| && ticks[i].tickIndex == next;
        assert ticks[1..][i - 1].tickIndex == next;
      }
    }
  }

  /** Every iteration that does not end the loop crosses a tick not crossed before. */
  lemma AdvanceProgress(m: Market, s: SwapState)
    requires m.Valid() && s.sqrtp > 0.0 && !Halted(m, s)
    ensures var s' := Advance(m, s);
      && s'.sqrtp > 0.0
      && (Halted(m, s')
          || CountBeyond(m.ticks, s'.tick, m.down) < CountBeyond(m.ticks, s.tick, m.down))
  {
    AdvancePrice(m, s);
    match PickNextTick(m.ticks, s.tick, m.down)
    case Some(t) => CountDrops(m.ticks, s.tick, t, m.down);
    case None =>
  }

  lemma {:induction false} RunHalts(m: Market, s: SwapState, fuel: nat)
    requires m.Valid() && s.sqrtp > 0.0
    requires CountBeyond(m.ticks, s.tick, m.down) + 1 <= fuel
    ensures Run(m, s, fuel).sqrtp > 0.0 && Halted(m, Run(m, s, fuel))
    decreases fuel
  {
    if !Halted(m, s) {
      AdvanceProgress(m, s);
      if !Halted(m, Advance(m, s)) {
        RunHalts(m, Advance(m, s), fuel - 1);
      }
    }
  }

  lemma {:induction false} RunStable(m: Market, s: SwapState, fuel: nat, extra: nat)
    requires m.Valid() && s.sqrtp > 0.0
    requires CountBeyond(m.ticks, s.tick, m.down) + 1 <= fuel
    ensures Run(m, s, fuel + extra) == Run(m, s, fuel)
    decreases fuel
  {
    if !Halted(m, s) {
      AdvanceProgress(m, s);
      if !Halted(m, Advance(m, s)) {
        RunStable(m, Advance(m, s), fuel - 1, extra);
      }
    }
  }

  /** `ticks.len() + 2` iterations always suffice: the loop has come to rest, and no larger bound changes it. */
  lemma LoopBoundSuffices(m: Market, s: SwapState, extra: nat)
    requires m.Valid() && s.sqrtp > 0.0
    ensures var f := Run(m, s, |m.ticks| + 2);
      f.sqrtp > 0.0 && Halted(m, f) && Run(m, s, |m.ticks| + 2 + extra) == f
  {
    RunHalts(m, s, |m.ticks| + 2);
    RunStable(m, s, |m.ticks| + 2, extra);
  }

  // ----- active liquidity

  lemma {:induction false} SumNetSplit(ticks: seq<TickInfo>, lo: int, mid: int, hi: int)
    requires lo <= mid <= hi
    ensures SumNet(ticks, lo, hi) == SumNet(ticks, lo, mid) + SumNet(ticks, mid, hi)
  {
    if ticks != [] {
      SumNetSplit(ticks[1..], lo, mid, hi);
    }
  }

  /** An interval that holds a single tick sums to that tick's `liquidity_net`. */
  lemma {:induction false} SumNetSingle(ticks: seq<TickInfo>, lo: int, hi: int, t: int)
    requires DistinctTicks(ticks) && lo <= t < hi
    requires forall i :: 0 <= i < |ticks| && lo <= ticks[i].tickIndex < hi ==> ticks[i].tickIndex == t
    ensures SumNet(ticks, lo, hi) == NetOf(ticks, t)
  {
    if ticks != [] {
      SumNetSingle(ticks[1..], lo, hi, t);
      if ticks[0].tickIndex == t {
        NoEntry(ticks[1..], t);
      }
    }
  }

  lemma {:induction false} NoEntry(ticks: seq<TickInfo>, t: int)
    requires forall i :: 0 <= i < |ticks| ==> ticks[i].tickIndex != t
    ensures NetOf(ticks, t) == 0
  {
    if ticks != [] {
      NoEntry(ticks[1..], t);
    }
  }

  /** Sum of `liquidity_net` over the ticks passed on the way from tick `a` to tick `b`. */
  function NetCrossed(m: Market, a: int, b: int): int {
    if m.down then -SumNet(m.ticks, b, a) else SumNet(m.ticks, a + 1, b + 1)
  }

  lemma AdvanceLiquidity(m: Market, s: SwapState)
    requires m.Valid() && s.sqrtp > 0.0 && !Halted(m, s) && DistinctTicks(m.ticks)
    ensures var s' := Advance(m, s);
      && !Beyond(s.tick, s'.tick, m.down)
      && s'.l == s.l + NetCrossed(m, s.tick, s'.tick) as real
  {
    NoNet(m.ticks, s.tick);
    NoNet(m.ticks, s.tick + 1);
    match PickNextTick(m.ticks, s.tick, m.down)
    case None =>
    case Some(t) =>
      if m.down {
        SumNetSingle(m.ticks, t, s.tick, t);
      } else {
        SumNetSingle(m.ticks, s.tick + 1, t + 1, t);
      }
  }

  lemma {:induction false} NoNet(ticks: seq<TickInfo>, at: int)
    ensures SumNet(ticks, at, at) == 0
  {
    if ticks != [] {
      NoNet(ticks[1..], at);
    }
  }

  /** Active liquidity is the initial liquidity minus (down) or plus (up) the `liquidity_net` of
      exactly the ticks passed. */
  lemma {:induction false} LiquidityTracksTicks(m: Market, s: SwapState, fuel: nat)
    requires m.Valid() && s.sqrtp > 0.0 && DistinctTicks(m.ticks)
    ensures var f := Run(m, s, fuel);
      && !Beyond(s.tick, f.tick, m.down)
      && f.l == s.l + NetCrossed(m, s.tick, f.tick) as real
    decreases fuel
  {
    if fuel == 0 || Halted(m, s) {
      NoNet(m.ticks, s.tick);
      NoNet(m.ticks, s.tick + 1);
    } else {
      var s' := Advance(m, s);
      AdvancePrice(m, s);
      AdvanceLiquidity(m, s);
      LiquidityTracksTicks(m, s', fuel - 1);
      var f := Run(m, s', fuel - 1);
      if m.down {
        SumNetSplit(m.ticks, f.tick, s'.tick, s.tick);
      } else {
        SumNetSplit(m.ticks, s.tick + 1, s'.tick + 1, f.tick + 1);
      }
    }
  }

  // ----- more input never pays out less

  lemma PriceDownMono(l: real, p: real, r1: real, r2: real)
    requires l > 0.0 && p > 0.0 && 0.0 <= r1 <= r2
    ensures PriceDown(l, p, r2) <= PriceDown(l, p, r1)
  {
    PriceDownPositive(l, p, r1);
    PriceDownPositive(l, p, r2);
    MulMono(r1, r2, p);
    MulNonNeg(r1, p);
    QuotientMono(l * p, l + r1 * p, l + r2 * p, PriceDown(l, p, r1), PriceDown(l, p, r2));
  }

  lemma QuotientMono(n: real, d1: real, d2: real, q1: real, q2: real)
    requires 0.0 < d1 <= d2 && n >= 0.0
    requires q1 * d1 == n && q2 * d2 == n
    ensures q2 <= q1
  {
    if q2 < 0.0 {
      MulPos(-q2, d2);
    }
    MulMono(d1, d2, q2);
    LessByFactor(d1, q2, q1);
  }

  lemma PriceUpMono(l: real, p: real, r1: real, r2: real)
    requires l > 0.0 && p > 0.0 && 0.0 <= r1 <= r2
    ensures PriceUp(l, p, r1) <= PriceUp(l, p, r2)
  {
    PriceUpPositive(l, p, r1);
    PriceUpPositive(l, p, r2);
    LessByFactor(l, PriceUp(l, p, r1) - p, PriceUp(l, p, r2) - p);
  }

  lemma PayDownMono(l: real, p: real, q1: real, q2: real)
    requires l > 0.0 && q2 <= q1
    ensures PayDown(l, p, q1) <= PayDown(l, p, q2)
  {
    MulMono(p - q1, p - q2, l);
  }

  lemma PayUpMono(l: real, p: real, q1: real, q2: real)
    requires l > 0.0 && 0.0 < p < q1 <= q2
    ensures PayUp(l, p, q1) <= PayUp(l, p, q2)
  {
    CrossUp(l, p, q1);
    CrossUp(l, p, q2);
    PayUpOrder(l, p, q1, q2, PayUp(l, p, q1), PayUp(l, p, q2));
  }

  lemma PayUpOrder(l: real, p: real, q1: real, q2: real, y1: real, y2: real)
    requires l > 0.0 && 0.0 < p < q1 <= q2
    requires y1 * Times(p, q1) == l * (q1 - p) && y2 * Times(p, q2) == l * (q2 - p)
    ensures y1 <= y2
  {
    ComplementQuotient(l, p, q1, y1);
    ComplementQuotient(l, p, q2, y2);
    MulPos(l, p);
    QuotientMono(l * p, q1, q2, l - y1 * p, l - y2 * p);
    LessByFactor(p, y1, y2);
  }

  lemma ComplementQuotient(l: real, p: real, q: real, y: real)
    requires y * Times(p, q) == l * (q - p)
    ensures (l - y * p) * q == l * p
  {
    assert y * Times(p, q) == y * p * q;
  }

  /** Two swaps that differ in the input left pay out, and move the price, in the order of their inputs. */
  lemma {:induction false} RunMonotone(m: Market, a: SwapState, b: SwapState, fuel: nat)
    requires m.Valid() && a.sqrtp > 0.0
    requires a.remaining <= b.remaining
    requires a.sqrtp == b.sqrtp && a.l == b.l && a.tick == b.tick && a.out == b.out
    ensures var f, g := Run(m, a, fuel), Run(m, b, fuel);
      && f.out <= g.out
      && if m.down then g.sqrtp <= f.sqrtp else f.sqrtp <= g.sqrtp
    decreases fuel
  {
    if fuel == 0 || Halted(m, b) {
      assert Halted(m, b) ==> Halted(m, a);
    } else if Halted(m, a) {
      RunSandwiched(m, b, fuel);
    } else {
      AdvancePrice(m, a);
      AdvancePrice(m, b);
      var target := m.Target(a.tick);
      var reach := Reach(m, a, target);
      if a.remaining <= reach {
        AdvanceMonotone(m, a, b);
        RunSandwiched(m, Advance(m, b), fuel - 1);
      } else {
        RunMonotone(m, Advance(m, a), Advance(m, b), fuel - 1);
      }
    }
  }

  /** The iteration that spends `a` completely, next to the same iteration with more input. */
  lemma AdvanceMonotone(m: Market, a: SwapState, b: SwapState)
    requires m.Valid() && a.sqrtp > 0.0 && !Halted(m, a) && !Halted(m, b)
    requires a.remaining <= b.remaining && a.remaining <= Reach(m, a, m.Target(a.tick))
    requires a.sqrtp == b.sqrtp && a.l == b.l && a.tick == b.tick && a.out == b.out
    ensures var f, g := Advance(m, a), Advance(m, b);
      && f.out <= g.out
      && if m.down then g.sqrtp <= f.sqrtp else f.sqrtp <= g.sqrtp
  {
    var target := m.Target(a.tick);
    SpendFacts(m, a, target);
    var q1, q2 := SpendPrice(m, a), Advance(m, b).sqrtp;
    if b.remaining <= Reach(m, b, target) {
      if m.down {
        PriceDownMono(a.l, a.sqrtp, a.remaining, b.remaining);
      } else {
        PriceUpMono(a.l, a.sqrtp, a.remaining, b.remaining);
      }
    }
    if m.down {
      PayDownMono(a.l, a.sqrtp, q1, q2);
    } else {
      PayUpMono(a.l, a.sqrtp, q1, q2);
    }
  }

  // ----- real arithmetic

  lemma LessByFactor(c: real, a: real, b: real)
    requires c > 0.0
    ensures c * a < c * b ==> a < b
    ensures c * a <= c * b ==> a <= b
    ensures a * c <= b * c ==> a <= b
  {
  }

  lemma MulPos(a: real, b: real)
    requires a > 0.0 && b > 0.0
    ensures a * b > 0.0
  {
  }

  lemma MulNonNeg(a: real, b: real)
    requires a >= 0.0 && b >= 0.0
    ensures a * b >= 0.0
  {
  }

  lemma DivPos(a: real, b: real)
    requires a > 0.0 && b > 0.0
    ensures a / b > 0.0 && (a / b) * b == a
  {
  }

  lemma MulMono(a: real, b: real, c: real)
    requires a <= b && c >= 0.0
    ensures a * c <= b * c
  {
  }
}

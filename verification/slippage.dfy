/** Basis-point slippage and sqrt-price limits (src/slippage.rs). The `powf` behind the compound
    per-hop budget is a parameter. */
module Slippage {
  import opened Models

  const BPS_SCALE: nat := 10_000
  const U128_MAX: nat := 0xffff_ffff_ffff_ffff_ffff_ffff_ffff_ffff
  const MIN_SQRT_PRICE: nat := 4295048016
  const MAX_SQRT_PRICE: nat := 79226673515401279992447579055

  datatype SlippageError = OutOfRange

  /** A validated tolerance, and the compound retain function of the whole path's hops. */
  datatype SlippageBps = SlippageBps(bps: nat, compound: (nat, nat) -> nat)
  {
    /** What validation and `powf` of a ratio at most one guarantee. */
    ghost predicate Valid() {
      bps < BPS_SCALE && forall i, n :: compound(i, n) <= BPS_SCALE
    }

    function RetainBps(): nat
      requires Valid()
    {
      BPS_SCALE - bps
    }

    function ApplyToAmount(amount: nat): nat
      requires Valid()
    {
      ApplyRetainBps(amount, RetainBps())
    }

    function IncrementalHopRetainBps(totalHops: nat): (r: nat)
      requires Valid()
      ensures r <= BPS_SCALE
    {
      if totalHops <= 1 then RetainBps() else compound(1, totalHops)
    }

    /** The last hop gets the whole tolerance, an earlier one its compound share. */
    function HopAdverseBps(hopIdx: nat, totalHops: nat): (r: nat)
      requires Valid()
      ensures r <= BPS_SCALE
    {
      if totalHops <= 1 || hopIdx + 1 == totalHops then bps
      else BPS_SCALE - IncrementalHopRetainBps(totalHops)
    }

    function IntermediateHopMinOut(expectedOut: nat, totalHops: nat): nat
      requires Valid()
    {
      ApplyRetainBps(expectedOut, IncrementalHopRetainBps(totalHops))
    }
  }

  /** Rounds the tolerance to basis points, capped below the whole. */
  function TryFromTolerance(tolerance: real, compound: (nat, nat) -> nat): Result<SlippageBps, SlippageError> {
    if !(0.0 <= tolerance < 1.0) then Err(OutOfRange)
    else
      var bps := (tolerance * 10000.0 + 0.5).Floor;
      Ok(SlippageBps(if bps > BPS_SCALE - 1 then BPS_SCALE - 1 else bps, compound))
  }

  /** Exactly the tolerances from zero up to, not including, one are accepted; the rounding error is at most
      half a basis point, except where it would reach the whole. */
  lemma ToleranceRounds(tolerance: real, compound: (nat, nat) -> nat)
    requires forall i, n :: compound(i, n) <= BPS_SCALE
    ensures var r := TryFromTolerance(tolerance, compound);
      && (r.Ok? <==> 0.0 <= tolerance < 1.0)
      && (r.Ok? ==>
            && r.value.Valid() && r.value.bps as real <= tolerance * 10000.0 + 0.5
            && (tolerance * 10000.0 - 0.5 < r.value.bps as real || r.value.bps == BPS_SCALE - 1))
  {
  }

  /** Split into quotient and remainder so that no product exceeds 128 bits. */
  function ApplyRetainBps(amount: nat, retain: nat): nat {
    amount / BPS_SCALE * retain + amount % BPS_SCALE * retain / BPS_SCALE
  }

  /** It is the exact floor of `amount * retain / 10000`, and no intermediate leaves 128 bits. */
  lemma ApplyRetainIsFloor(amount: nat, retain: nat)
    requires retain <= BPS_SCALE
    ensures ApplyRetainBps(amount, retain) == amount * retain / BPS_SCALE
    ensures ApplyRetainBps(amount, retain) <= amount
    ensures amount <= U128_MAX ==>
      && amount / BPS_SCALE * retain <= U128_MAX
      && amount % BPS_SCALE * retain <= U128_MAX
      && ApplyRetainBps(amount, retain) <= U128_MAX
  {
    var q, r := amount / BPS_SCALE, amount % BPS_SCALE;
    assert amount == q * BPS_SCALE + r;
    assert amount * retain == (q * retain) * BPS_SCALE + r * retain;
    DivShift(q * retain, r * retain);
    ProductBound(q, retain);
    ProductBound(r, retain);
  }

  lemma DivShift(a: nat, b: nat)
    ensures (a * BPS_SCALE + b) / BPS_SCALE == a + b / BPS_SCALE
  {
  }

  lemma ProductBound(q: nat, retain: nat)
    requires retain <= BPS_SCALE
    ensures q * retain <= q * BPS_SCALE
  {
  }

  function SumOf(xs: seq<nat>): nat {
    if xs == [] then 0 else SumOf(xs[..|xs| - 1]) + xs[|xs| - 1]
  }

  function SumOfMinima(xs: seq<nat>, retain: nat): nat {
    if xs == [] then 0 else SumOfMinima(xs[..|xs| - 1], retain) + ApplyRetainBps(xs[|xs| - 1], retain)
  }

  /** The minimum of the total is never below the sum of the per-path minima, and exceeds it by less
      than one unit per additional path. */
  lemma {:induction false} MinimaAddUp(xs: seq<nat>, retain: nat)
    requires retain <= BPS_SCALE
    ensures SumOfMinima(xs, retain) <= ApplyRetainBps(SumOf(xs), retain)
    ensures xs != [] ==> ApplyRetainBps(SumOf(xs), retain) <= SumOfMinima(xs, retain) + |xs| - 1
  {
    if xs == [] {
      ApplyRetainIsFloor(0, retain);
    } else {
      var front, last := xs[..|xs| - 1], xs[|xs| - 1];
      MinimaAddUp(front, retain);
      FloorOfSum(SumOf(front), last, retain);
      ApplyRetainIsFloor(0, retain);
    }
  }

  lemma FloorOfSum(a: nat, b: nat, retain: nat)
    requires retain <= BPS_SCALE
    ensures var f := ApplyRetainBps(a, retain) + ApplyRetainBps(b, retain);
      f <= ApplyRetainBps(a + b, retain) <= f + 1
  {
    ApplyRetainIsFloor(a, retain);
    ApplyRetainIsFloor(b, retain);
    ApplyRetainIsFloor(a + b, retain);
    assert (a + b) * retain == a * retain + b * retain;
  }

  // ----- sqrt-price limits

  function Clamp(x: int): nat {
    if x < MIN_SQRT_PRICE then MIN_SQRT_PRICE else if x > MAX_SQRT_PRICE then MAX_SQRT_PRICE else x
  }

  function MinReal(a: real, b: real): real {
    if a <= b then a else b
  }

  function MaxReal(a: real, b: real): real {
    if a >= b then a else b
  }

  /** The price the limit is set from, moved against the swap by the adverse budget. */
  function AdversePrice(finalSqrt: real, aToB: bool, adverseBps: nat): real {
    var frac := adverseBps as real / 10000.0;
    if aToB then finalSqrt * (1.0 - frac) else finalSqrt * (1.0 + frac)
  }

  function DynamicSqrtPriceLimitRaw(finalSqrt: real, scale: real, aToB: bool, adverseBps: nat): nat {
    if finalSqrt <= 0.0 then (if aToB then MIN_SQRT_PRICE else MAX_SQRT_PRICE)
    else
      RawLimit(AdversePrice(finalSqrt, aToB, adverseBps) * scale, finalSqrt * scale, aToB)
  }

  /** The adverse price truncated to raw units, never better than the simulated one, and in range. */
  function RawLimit(adverse: real, simulated: real, aToB: bool): nat {
    var raw := adverse.Floor as real;
    var kept := if aToB then MinReal(raw, simulated) else MaxReal(raw, simulated);
    var clamped := MinReal(MaxReal(kept, MIN_SQRT_PRICE as real), MAX_SQRT_PRICE as real);
    Clamp(clamped.Floor)
  }

  lemma LimitInRange(finalSqrt: real, scale: real, aToB: bool, adverseBps: nat)
    ensures MIN_SQRT_PRICE <= DynamicSqrtPriceLimitRaw(finalSqrt, scale, aToB, adverseBps) <= MAX_SQRT_PRICE
  {
  }

  /** Selling A: as long as the simulated price is itself in range, the limit never lies above it. */
  lemma LimitBelowForSales(finalSqrt: real, scale: real, adverseBps: nat)
    requires finalSqrt > 0.0 && scale > 0.0
    requires MIN_SQRT_PRICE as real <= finalSqrt * scale
    ensures DynamicSqrtPriceLimitRaw(finalSqrt, scale, true, adverseBps) as real <= finalSqrt * scale
  {
  }

  /** Buying A: any adverse budget lifts the limit to the simulated price; without one the cast truncates,
      so the limit falls below that price exactly when it is not a whole number of raw units. */
  lemma LimitForPurchases(finalSqrt: real, scale: real, adverseBps: nat)
    requires finalSqrt > 0.0 && scale > 0.0 && adverseBps <= BPS_SCALE
    requires MIN_SQRT_PRICE as real <= finalSqrt * scale <= MAX_SQRT_PRICE as real
    ensures DynamicSqrtPriceLimitRaw(finalSqrt, scale, false, adverseBps) as real >= finalSqrt * scale
            <==> adverseBps > 0 || (finalSqrt * scale).Floor as real == finalSqrt * scale
  {
    if adverseBps == 0 {
      assert AdversePrice(finalSqrt, false, 0) == finalSqrt;
      ClampedLimit(finalSqrt * scale, finalSqrt * scale);
    } else {
      LiftedPrice(finalSqrt, scale, adverseBps);
      ClampedLimit(AdversePrice(finalSqrt, false, adverseBps) * scale, finalSqrt * scale);
    }
  }

  lemma ClampedLimit(lifted: real, price: real)
    requires MIN_SQRT_PRICE as real <= price <= MAX_SQRT_PRICE as real
    ensures lifted >= price + 1.0 ==> RawLimit(lifted, price, false) as real >= price
    ensures lifted == price ==> (RawLimit(lifted, price, false) as real >= price <==> price.Floor as real == price)
  {
  }

  /** One basis point of an in-range price is more than one raw unit. */
  lemma LiftedPrice(finalSqrt: real, scale: real, adverseBps: nat)
    requires finalSqrt > 0.0 && scale > 0.0 && 0 < adverseBps && MIN_SQRT_PRICE as real <= finalSqrt * scale
    ensures AdversePrice(finalSqrt, false, adverseBps) * scale >= finalSqrt * scale + 1.0
  {
    var frac := adverseBps as real / 10000.0;
    assert frac >= 0.0001;
    Factored(finalSqrt, scale, frac);
    AtLeastOneUnit(finalSqrt * scale, frac);
  }

  lemma Factored(p: real, scale: real, frac: real)
    ensures p * (1.0 + frac) * scale == p * scale + (p * scale) * frac
  {
  }

  lemma AtLeastOneUnit(price: real, frac: real)
    requires price >= 10000.0 && frac >= 0.0001
    ensures price * frac >= 1.0
  {
    assert price * frac >= price * 0.0001;
  }

  /** The simulated price can exceed the limit by a fraction of a raw unit. */
  lemma LimitCanTruncate()
    ensures DynamicSqrtPriceLimitRaw(4295048016.5, 1.0, false, 0) as real < 4295048016.5
  {
    assert AdversePrice(4295048016.5, false, 0) == 4295048016.5;
  }
}

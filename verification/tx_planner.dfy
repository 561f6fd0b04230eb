/** The command-planning part of `handle_build_tx` (src/api/quote.rs). */
module TxPlanner {
  import opened Models
  import opened Text
  import opened TokenGraphs
  import opened Walks
  import opened RouteSearch
  import opened SwapSimulation
  import opened OrderSplit
  import opened Slippage
  import opened Ptb
  import opened DexSwap
  import opened LinearPlans

  datatype BuildTxRequest = BuildTxRequest(
    fromToken: Token,
    toToken: Token,
    userAddress: string,
    coinIds: Option<seq<string>>)

  datatype PlanError =
    | SplitAmountTooLarge
    | CoinIdsRequired
    | MissingInputCoin
    | NoTransferableCoin
    | Builder(error: BuildError)

  /** What planning looks up besides the request and the splits. */
  datatype PlanEnv = PlanEnv(
    pools: Pools,
    ticks: Ticks,
    curve: int -> real,
    slippage: SlippageBps,
    user: string)
  {
    ghost predicate Valid() {
      SanePools(pools) && IsPriceCurve(curve) && slippage.Valid()
    }

    /** `pools_map.get(..).unwrap()` succeeds for every hop. */
    ghost predicate Knows(route: RoutePath) {
      forall i :: 0 <= i < |route.hops| ==> route.hops[i].poolId in pools
    }

    /** The simulation of one hop at the expected input amount. */
    function Simulate(hop: SwapHop, amount: nat): SwapSimulationResult
      requires Valid() && hop.poolId in pools
    {
      SimulateHop(pools[hop.poolId], TicksOf(ticks, hop.poolId), hop, amount as real, curve)
    }

    function NextExpected(hop: SwapHop, amount: nat): nat
      requires Valid() && hop.poolId in pools
    {
      AsU128(SwapSimulation.MaxReal(Simulate(hop, amount).amountOut, 0.0))
    }

    function HopMinOut(hops: seq<SwapHop>, k: nat, amount: nat, pathMinOut: nat): nat
      requires Valid() && k < |hops| && hops[k].poolId in pools
    {
      if k + 1 == |hops| then pathMinOut
      else slippage.IntermediateHopMinOut(NextExpected(hops[k], amount), |hops|)
    }

    function SqrtLimit(hops: seq<SwapHop>, k: nat, amount: nat): nat
      requires Valid() && k < |hops| && hops[k].poolId in pools
    {
      var pool := pools[hops[k].poolId];
      DynamicSqrtPriceLimitRaw(
        Simulate(hops[k], amount).finalSqrtPriceInternal, PoolScale(pool),
        hops[k].inputToken == pool.coinTypeA, slippage.HopAdverseBps(k, |hops|))
    }
  }

  /** `n as u16` */
  function AsU16(n: nat): nat {
    n % 0x1_0000
  }

  const SUI_TYPE: Token := "0x2::sui::SUI"

  /** The source's test for paying out of the gas coin. */
  predicate IsSuiToken(t: Token) {
    Lower(t) == "sui" || Contains(Lower(t), "0x2::sui::sui")
  }

  // ----- when planning succeeds

  /** The builder of the pool's DEX accepts these amounts. */
  predicate HopBuildable(pool: PoolState, expected: nat, hopMinOut: nat) {
    match DexKind(pool.dexName)
    case Unsupported => false
    case Turbos => TurbosFeeTypeArg(pool.feeRate).Some? && expected <= U64_MAX && hopMinOut <= U64_MAX
    case _ => expected <= U64_MAX
  }

  /** Every hop from `k` on is accepted, each at the amount simulated for it. */
  predicate RoutePlannable(env: PlanEnv, hops: seq<SwapHop>, k: nat, expected: nat, pathMinOut: nat)
    requires env.Valid() && k <= |hops| && forall i :: 0 <= i < |hops| ==> hops[i].poolId in env.pools
    decreases |hops| - k
  {
    k == |hops|
    || (&& HopBuildable(env.pools[hops[k].poolId], expected, env.HopMinOut(hops, k, expected, pathMinOut))
        && RoutePlannable(env, hops, k + 1, env.NextExpected(hops[k], expected), pathMinOut))
  }

  lemma BuildsIffBuildable(
    pool: PoolState, hop: SwapHop, coin: PtbArgument, expected: nat, hopMinOut: nat, limit: nat, start: nat,
    user: string)
    ensures BuildHopCommands(pool, hop, coin, expected, hopMinOut, limit, start, user).Ok?
            <==> HopBuildable(pool, expected, hopMinOut)
    ensures var b := BuildHopCommands(pool, hop, coin, expected, hopMinOut, limit, start, user);
      b.Ok? ==> b.value.1.Some? && |b.value.0| <= 6
  {
  }

  // ----- what a plan keeps while it grows

  /** Executing `cmds` reaches `m`: one row of results per command, all flash swaps repaid, and
      everything handed out so far went to the user. */
  ghost predicate PlanState(chain: Chain, cmds: seq<PtbCommand>, m: Machine, user: string) {
    && Exec(chain, EMPTY_MACHINE, cmds) == Some(m)
    && |m.slots| == |cmds|
    && FlashSwapsRepaid(cmds, 0, map[], m.repaid)
    && forall i :: 0 <= i < |m.delivered| ==> m.delivered[i].0 == user
  }

  /** Every argument naming a coin outside slot `s` still names the same coin. */
  ghost predicate Preserves(m: Machine, m': Machine, s: Slot) {
    forall arg, x, t {:trigger NamesCoin(m'.slots, arg, x, t)} ::
      NamesCoin(m.slots, arg, x, t) && x != s ==> NamesCoin(m'.slots, arg, x, t)
  }

  /** The pools the planner knows are the ones on chain under their ids. */
  ghost predicate PoolsOnChain(chain: Chain, pools: Pools) {
    forall id :: id in pools ==> pools[id].poolId == id && OnChain(chain, pools[id])
  }

  /** The route chains from `from` to `to` through the pools its hops name. */
  ghost predicate BackedRoute(pools: Pools, from: Token, to: Token, hops: seq<SwapHop>) {
    && End(from, hops) == to
    && forall i :: 0 <= i < |hops| ==> BackedAt(pools, from, hops, i)
  }

  ghost predicate BackedAt(pools: Pools, from: Token, hops: seq<SwapHop>, i: nat)
    requires i < |hops|
  {
    HopBacked(pools, hops[i]) && hops[i].inputToken == TokenAt(from, hops, i)
  }

  lemma PlanPrefixFails(chain: Chain, a: seq<PtbCommand>, b: seq<PtbCommand>)
    requires Exec(chain, EMPTY_MACHINE, a) == None && a <= b
    ensures Exec(chain, EMPTY_MACHINE, b) == None
  {
    ExecConcat(chain, EMPTY_MACHINE, a, b[|a|..]);
    assert b == a + b[|a|..];
  }

  /** Appending the commands of one hop. */
  lemma HopExtends(
    chain: Chain, cmds: seq<PtbCommand>, m: Machine, pool: PoolState, hop: SwapHop, coin: PtbArgument, s: Slot,
    expected: nat, hopMinOut: nat, limit: nat, user: string, built: Built)
    returns (m': Machine, s': Slot)
    requires PlanState(chain, cmds, m, user) && NamesCoin(m.slots, coin, s, hop.inputToken)
    requires OnChain(chain, pool) && HopUsesPool(hop, pool)
    requires BuildHopCommands(pool, hop, coin, expected, hopMinOut, limit, |cmds|, user) == Ok(built)
    ensures PlanState(chain, cmds + built.0, m', user)
    ensures built.1.Some? && NamesCoin(m'.slots, built.1.value, s', hop.outputToken)
    ensures LiveSlots(m'.slots) == LiveSlots(m.slots) - {s} + {s'}
    ensures s'.cmd >= |m.slots| && Preserves(m, m', s)
  {
    var rows, k, j;
    m', rows, k, j := HopRuns(chain, m, pool, hop, coin, s, expected, hopMinOut, limit, user);
    s' := OutcomeExtends(chain, cmds, m, s, hop.inputToken, hop.outputToken, user, built, m', rows, k, j);
  }

  lemma OutcomeExtends(
    chain: Chain, cmds: seq<PtbCommand>, m: Machine, s: Slot, tIn: Token, tOut: Token, user: string, built: Built,
    m': Machine, rows: Results, k: nat, j: nat)
    returns (s': Slot)
    requires PlanState(chain, cmds, m, user) && InRange(m.slots, s)
    requires HopOutcome(chain, m, s, tIn, tOut, user, built, m', rows, k, j)
    ensures PlanState(chain, cmds + built.0, m', user)
    ensures built.1.Some? && NamesCoin(m'.slots, built.1.value, s', tOut)
    ensures LiveSlots(m'.slots) == LiveSlots(m.slots) - {s} + {s'}
    ensures s'.cmd >= |m.slots| && Preserves(m, m', s)
  {
    s' := Slot(|m.slots| + k, j);
    ExecConcat(chain, EMPTY_MACHINE, cmds, built.0);
    RepaidConcat(cmds, built.0, 0, map[], m.repaid, m'.repaid);
    LiveAfterHop(m.slots, s, rows, k, j, tOut);
    PreservedByHop(m, m', s, rows, k, j, tOut);
  }

  /** The new coin is where the hop left it, and all other coins stay named. */
  lemma PreservedByHop(m: Machine, m': Machine, s: Slot, rows: Results, k: nat, j: nat, t: Token)
    requires InRange(m.slots, s) && m'.slots == Clear(m.slots, s) + rows && OneCoinLeft(rows, k, j, t)
    ensures var s' := Slot(|m.slots| + k, j);
      InRange(m'.slots, s') && At(m'.slots, s') == Some(Coin(t))
    ensures Preserves(m, m', s)
  {
    RowAccess(Clear(m.slots, s), rows, k, j);
    forall arg, x, t' | NamesCoin(m.slots, arg, x, t') && x != s
      ensures NamesCoin(m'.slots, arg, x, t')
    {
      UntouchedByHop(m.slots, s, rows, arg, x);
    }
  }

  // ----- one route

  /** The inner loop over the hops of one split; what it reaches holds for every chain and machine it may be
      planned for. */
  method PlanRoute(
    env: PlanEnv, route: RoutePath, allocIn: nat, pathMinOut: nat, splitCoin: PtbArgument, commands0: seq<PtbCommand>)
    returns (r: Models.Result<(seq<PtbCommand>, Option<PtbArgument>), PlanError>)
    requires env.Valid() && env.Knows(route)
    ensures r.Ok? <==> RoutePlannable(env, route.hops, 0, allocIn, pathMinOut)
    ensures r.Err? ==> r.error.Builder?
    ensures r.Ok? ==>
      && r.value.1.Some? && commands0 <= r.value.0
      && |r.value.0| <= |commands0| + 6 * |route.hops|
      && AllReached(env, route.hops, commands0, splitCoin, |route.hops|, r.value.0, r.value.1.value)
  {
    var commands, heldCoin, expected := commands0, Some(splitCoin), allocIn;
    var hops := route.hops;
    AllStart(env, hops, commands0, splitCoin);
    for k := 0 to |hops|
      invariant heldCoin.Some? && commands0 <= commands && |commands| <= |commands0| + 6 * k
      invariant RoutePlannable(env, hops, 0, allocIn, pathMinOut)
                <==> RoutePlannable(env, hops, k, expected, pathMinOut)
      invariant AllReached(env, hops, commands0, splitCoin, k, commands, heldCoin.value)
    {
      if heldCoin.None? {
        return Err(MissingInputCoin);
      }
      var coin := heldCoin.value;
      heldCoin := None;
      var built, next := PlanHop(env, hops, k, coin, expected, pathMinOut, |commands|);
      if built.Err? {
        return Err(Builder(built.error));
      }
      AllStep(env, hops, commands0, splitCoin, k, commands, coin, expected, pathMinOut, built.value);
      commands := commands + built.value.0;
      if built.value.1.None? && k + 1 != |hops| {
        return Err(NoTransferableCoin);
      }
      heldCoin := built.value.1;
      expected := next;
    }
    r := Ok((commands, heldCoin));
  }

  /** Some machine and slot witness the progress. */
  ghost predicate Reached(env: PlanEnv, p: RoutePlan, k: nat, commands: seq<PtbCommand>, coin: PtbArgument)
    requires k <= |p.hops|
  {
    exists m, s :: Progress(env, p, k, commands, coin, m, s)
  }

  /** Whatever chain and machine the route is planned for. */
  ghost predicate AllReached(
    env: PlanEnv, hops: seq<SwapHop>, commands0: seq<PtbCommand>, splitCoin: PtbArgument,
    k: nat, commands: seq<PtbCommand>, coin: PtbArgument)
    requires k <= |hops|
  {
    forall p: RoutePlan :: p.hops == hops && p.commands0 == commands0 && p.splitCoin == splitCoin ==>
      Reached(env, p, k, commands, coin)
  }

  lemma AllStart(env: PlanEnv, hops: seq<SwapHop>, commands0: seq<PtbCommand>, splitCoin: PtbArgument)
    ensures AllReached(env, hops, commands0, splitCoin, 0, commands0, splitCoin)
  {
    forall p: RoutePlan | p.hops == hops && p.commands0 == commands0 && p.splitCoin == splitCoin
      ensures Reached(env, p, 0, commands0, splitCoin)
    {
      assert Progress(env, p, 0, commands0, splitCoin, p.m0, p.s0);
    }
  }

  lemma AllStep(
    env: PlanEnv, hops: seq<SwapHop>, commands0: seq<PtbCommand>, splitCoin: PtbArgument,
    k: nat, commands: seq<PtbCommand>, coin: PtbArgument, expected: nat, pathMinOut: nat, built: Built)
    requires env.Valid() && k < |hops| && hops[k].poolId in env.pools
    requires AllReached(env, hops, commands0, splitCoin, k, commands, coin)
    requires HopBuild(env, hops, k, coin, expected, pathMinOut, |commands|) == Ok(built)
    requires built.1.Some? && |built.0| <= 6
    ensures AllReached(env, hops, commands0, splitCoin, k + 1, commands + built.0, built.1.value)
  {
    forall p: RoutePlan | p.hops == hops && p.commands0 == commands0 && p.splitCoin == splitCoin
      ensures Reached(env, p, k + 1, commands + built.0, built.1.value)
    {
      assert Reached(env, p, k, commands, coin);
      var m, s :| Progress(env, p, k, commands, coin, m, s);
      var m', s' := ProgressStep(env, p, k, commands, coin, m, s, expected, pathMinOut, built);
      assert Progress(env, p, k + 1, commands + built.0, built.1.value, m', s');
    }
  }

  /** The body of the loop up to the builder call: simulate, set the minimum and the price limit, build. */
  method PlanHop(
    env: PlanEnv, hops: seq<SwapHop>, k: nat, coin: PtbArgument, expected: nat, pathMinOut: nat, count: nat)
    returns (built: Models.Result<Built, BuildError>, next: nat)
    requires env.Valid() && k < |hops| && forall i :: 0 <= i < |hops| ==> hops[i].poolId in env.pools
    ensures built == HopBuild(env, hops, k, coin, expected, pathMinOut, count)
    ensures next == env.NextExpected(hops[k], expected)
    ensures built.Ok? <==>
      HopBuildable(env.pools[hops[k].poolId], expected, env.HopMinOut(hops, k, expected, pathMinOut))
    ensures built.Ok? ==> built.value.1.Some? && |built.value.0| <= 6
  {
    var hop := hops[k];
    var pool := env.pools[hop.poolId];
    var sim := env.Simulate(hop, expected);
    next := AsU128(SwapSimulation.MaxReal(sim.amountOut, 0.0));
    var hopMinOut := if k + 1 == |hops| then pathMinOut else env.slippage.IntermediateHopMinOut(next, |hops|);
    var limit := DynamicSqrtPriceLimitRaw(
      sim.finalSqrtPriceInternal, PoolScale(pool), hop.inputToken == pool.coinTypeA,
      env.slippage.HopAdverseBps(k, |hops|));
    var start := AsU16(count);
    BuildsIffBuildable(pool, hop, coin, expected, hopMinOut, limit, start, env.user);
    built := BuildHopCommands(pool, hop, coin, expected, hopMinOut, limit, start, env.user);
  }

  /** The builder call for hop `k` after `count` commands. */
  function HopBuild(
    env: PlanEnv, hops: seq<SwapHop>, k: nat, coin: PtbArgument, expected: nat, pathMinOut: nat, count: nat)
    : Models.Result<Built, BuildError>
    requires env.Valid() && k < |hops| && hops[k].poolId in env.pools
  {
    BuildHopCommands(
      env.pools[hops[k].poolId], hops[k], coin, expected, env.HopMinOut(hops, k, expected, pathMinOut),
      env.SqrtLimit(hops, k, expected), AsU16(count), env.user)
  }

  /** The fixed data of planning one route, for the proof. */
  datatype RoutePlan = RoutePlan(
    chain: Chain, hops: seq<SwapHop>, from: Token, to: Token,
    commands0: seq<PtbCommand>, m0: Machine, splitCoin: PtbArgument, s0: Slot, held: Token)

  /** What holds before hop `k`: the held coin has reached the hop's input type; if the first coin was of
      the wrong type, execution has failed since the first hop. */
  ghost predicate Progress(
    env: PlanEnv, p: RoutePlan, k: nat, commands: seq<PtbCommand>, coin: PtbArgument, m: Machine, s: Slot)
    requires k <= |p.hops|
  {
    Routable(env, p.chain, RoutePath(p.hops), p.from, p.to, p.commands0, p.m0, p.splitCoin, p.s0, p.held) ==>
      && (k == 0 ==> m == p.m0 && s == p.s0 && commands == p.commands0 && coin == p.splitCoin)
      && |commands| <= |p.commands0| + 6 * k
      && (p.held == p.from ==> OnTheWay(env, p.chain, commands, m, coin, s, TokenAt(p.from, p.hops, k), p.m0, p.s0))
      && (p.held != p.from && k > 0 ==> Exec(p.chain, EMPTY_MACHINE, commands) == None)
  }

  lemma ProgressStep(
    env: PlanEnv, p: RoutePlan, k: nat, commands: seq<PtbCommand>, coin: PtbArgument, m: Machine, s: Slot,
    expected: nat, pathMinOut: nat, built: Built)
    returns (m': Machine, s': Slot)
    requires env.Valid() && k < |p.hops| && p.hops[k].poolId in env.pools
    requires Progress(env, p, k, commands, coin, m, s)
    requires HopBuild(env, p.hops, k, coin, expected, pathMinOut, |commands|) == Ok(built)
    requires built.1.Some? && |built.0| <= 6
    ensures Progress(env, p, k + 1, commands + built.0, built.1.value, m', s')
  {
    m', s' := m, s;
    if Routable(env, p.chain, RoutePath(p.hops), p.from, p.to, p.commands0, p.m0, p.splitCoin, p.s0, p.held) {
      var hop, pool := p.hops[k], env.pools[p.hops[k].poolId];
      var hopMinOut, limit := env.HopMinOut(p.hops, k, expected, pathMinOut), env.SqrtLimit(p.hops, k, expected);
      assert BackedAt(env.pools, p.from, p.hops, k);
      assert AsU16(|commands|) == |commands|;
      if p.held == p.from {
        m', s' := StepAlong(
          env, p.chain, commands, m, pool, hop, coin, s, expected, hopMinOut, limit, p.m0, p.s0, built);
      } else if k == 0 {
        WrongCoinFails(p.chain, m, pool, hop, coin, s, p.held, expected, hopMinOut, limit, |commands|, env.user);
        ExecConcat(p.chain, EMPTY_MACHINE, commands, built.0);
      } else {
        PlanPrefixFails(p.chain, commands, commands + built.0);
      }
    }
  }

  /** The situation a route is planned in: a machine that holds a coin of type `held` in the slot the
      split coin names, pools as on chain, and room for the command indices in 16 bits. */
  ghost predicate Routable(
    env: PlanEnv, chain: Chain, route: RoutePath, from: Token, to: Token,
    commands0: seq<PtbCommand>, m0: Machine, splitCoin: PtbArgument, s0: Slot, held: Token)
  {
    && PlanState(chain, commands0, m0, env.user)
    && NamesCoin(m0.slots, splitCoin, s0, held)
    && PoolsOnChain(chain, env.pools) && BackedRoute(env.pools, from, to, route.hops)
    && |commands0| + 6 * |route.hops| < 0x1_0000
  }

  ghost predicate OnTheWay(
    env: PlanEnv, chain: Chain, commands: seq<PtbCommand>, m: Machine, coin: PtbArgument, s: Slot, t: Token,
    m0: Machine, s0: Slot)
  {
    && PlanState(chain, commands, m, env.user)
    && NamesCoin(m.slots, coin, s, t)
    && LiveSlots(m.slots) == LiveSlots(m0.slots) - {s0} + {s}
    && (s == s0 || s.cmd >= |m0.slots|) && |m.slots| >= |m0.slots|
    && Preserves(m0, m, s0)
  }

  lemma StepAlong(
    env: PlanEnv, chain: Chain, commands: seq<PtbCommand>, m: Machine, pool: PoolState, hop: SwapHop,
    coin: PtbArgument, s: Slot, expected: nat, hopMinOut: nat, limit: nat, m0: Machine, s0: Slot, built: Built)
    returns (m': Machine, s': Slot)
    requires OnTheWay(env, chain, commands, m, coin, s, hop.inputToken, m0, s0)
    requires OnChain(chain, pool) && HopUsesPool(hop, pool)
    requires BuildHopCommands(pool, hop, coin, expected, hopMinOut, limit, |commands|, env.user) == Ok(built)
    ensures built.1.Some?
    ensures OnTheWay(env, chain, commands + built.0, m', built.1.value, s', hop.outputToken, m0, s0)
  {
    m', s' := HopExtends(chain, commands, m, pool, hop, coin, s, expected, hopMinOut, limit, env.user, built);
    forall arg, x, t | NamesCoin(m0.slots, arg, x, t) && x != s0
      ensures NamesCoin(m'.slots, arg, x, t)
    {
      assert NamesCoin(m.slots, arg, x, t);
      assert x != s;
    }
  }

  // ----- the input coin

  function SplitAmounts(splits: seq<Split>): seq<PtbArgument> {
    seq(|splits|, i requires 0 <= i < |splits| => U64(splits[i].allocIn))
  }

  /** Objects for the given coin ids. */
  function CoinObjects(ids: seq<string>): seq<PtbArgument> {
    seq(|ids|, i requires 0 <= i < |ids| => Object(ids[i]))
  }

  function CoinIdsOf(req: BuildTxRequest): seq<string> {
    match req.coinIds
    case Some(ids) => ids
    case None => []
  }

  /** The command that splits the input coin: the second one when several coins are merged first. */
  function SplitIndex(req: BuildTxRequest): nat {
    if !IsSuiToken(req.fromToken) && |CoinIdsOf(req)| > 1 then 1 else 0
  }

  predicate AmountsFit(splits: seq<Split>) {
    forall i :: 0 <= i < |splits| ==> splits[i].allocIn <= U64_MAX
  }

  predicate HasSource(req: BuildTxRequest) {
    IsSuiToken(req.fromToken) || CoinIdsOf(req) != []
  }

  /** Split the gas coin, or merge the given coins and split the result. */
  method PlanSource(req: BuildTxRequest, splits: seq<Split>)
    returns (r: Models.Result<(seq<PtbCommand>, nat), PlanError>)
    ensures r.Ok? <==> AmountsFit(splits) && HasSource(req)
    ensures r.Ok? ==> r.value == (SourceCommands(req, splits), SplitIndex(req))
    ensures r.Err? ==> r.error.SplitAmountTooLarge? || r.error.CoinIdsRequired?
  {
    var amounts := [];
    for i := 0 to |splits|
      invariant AmountsFit(splits[..i]) && amounts == SplitAmounts(splits[..i])
    {
      if splits[i].allocIn > U64_MAX {
        return Err(SplitAmountTooLarge);
      }
      assert forall j :: 0 <= j < i ==> splits[..i][j] == splits[..i + 1][j];
      amounts := amounts + [U64(splits[i].allocIn)];
    }
    assert splits[..|splits|] == splits;
    if IsSuiToken(req.fromToken) {
      return Ok(([SplitCoins(GasCoin, amounts)], 0));
    }
    var ids := CoinIdsOf(req);
    if ids == [] {
      return Err(CoinIdsRequired);
    }
    if |ids| > 1 {
      var dest := Object(ids[0]);
      return Ok(([MergeCoins(dest, CoinObjects(ids[1..])), SplitCoins(dest, amounts)], 1));
    } else {
      return Ok(([SplitCoins(Object(ids[0]), amounts)], 0));
    }
  }

  function SourceCommands(req: BuildTxRequest, splits: seq<Split>): seq<PtbCommand>
    requires HasSource(req)
  {
    var amounts, ids := SplitAmounts(splits), CoinIdsOf(req);
    if IsSuiToken(req.fromToken) then [SplitCoins(GasCoin, amounts)]
    else if |ids| > 1 then
      [MergeCoins(Object(ids[0]), CoinObjects(ids[1..])), SplitCoins(Object(ids[0]), amounts)]
    else [SplitCoins(Object(ids[0]), amounts)]
  }

  /** The coins named by the request exist, are different and have the input type. */
  ghost predicate InputCoinsOk(chain: Chain, ids: seq<string>, t: Token) {
    && (forall i :: 0 <= i < |ids| ==> ids[i] in chain.coins && chain.coins[ids[i]] == t)
    && (forall i, j :: 0 <= i < j < |ids| ==> ids[i] != ids[j])
  }

  lemma {:induction false} MergeAll(chain: Chain, m: Machine, ids: seq<string>, t: Token)
    requires InputCoinsOk(chain, ids, t) && forall i :: 0 <= i < |ids| ==> ids[i] !in m.merged
    ensures var r := MergeInto(chain, m, t, CoinObjects(ids));
      r.Some? && r.value == m.(merged := r.value.merged)
      && forall id :: id in r.value.merged ==> id in m.merged || id in ids
    decreases |ids|
  {
    if ids != [] {
      var m' := m.(merged := m.merged + {ids[0]});
      MergeAll(chain, m', ids[1..], t);
      assert CoinObjects(ids)[1..] == CoinObjects(ids[1..]);
    }
  }

  /** The row of coins a split produces. */
  function CoinRow(n: nat, t: Token): seq<Option<Resource>> {
    seq(n, _ => Some(Coin(t)))
  }

  /** The coins come out with the gas coin's type, or the input coins' type. */
  function HeldType(chain: Chain, req: BuildTxRequest): Token {
    if IsSuiToken(req.fromToken) then chain.gasType else req.fromToken
  }

  lemma SourceRuns(chain: Chain, req: BuildTxRequest, splits: seq<Split>) returns (m: Machine)
    requires HasSource(req) && AmountsFit(splits)
    requires IsSuiToken(req.fromToken) || InputCoinsOk(chain, CoinIdsOf(req), req.fromToken)
    ensures PlanState(chain, SourceCommands(req, splits), m, req.userAddress)
    ensures m.slots == (if SplitIndex(req) == 1 then [[]] else []) + [CoinRow(|splits|, HeldType(chain, req))]
  {
    var cmds, ids, t := SourceCommands(req, splits), CoinIdsOf(req), HeldType(chain, req);
    var amounts := SplitAmounts(splits);
    var start := EMPTY_MACHINE;
    if SplitIndex(req) == 1 {
      assert InputCoinsOk(chain, ids[1..], t);
      MergeAll(chain, start, ids[1..], t);
      var merged := MergeInto(chain, start, t, CoinObjects(ids[1..])).value;
      assert Object(ids[0]) !in CoinObjects(ids[1..]);
      start := merged.(slots := [[]]);
      Produces(merged, [], [], [], []);
      assert [] + ([] + [[]]) == start.slots;
      assert Produce(merged, []) == start;
      assert CoinType(chain, EMPTY_MACHINE, Object(ids[0])) == Some(t);
      assert Step(chain, EMPTY_MACHINE, cmds[0]) == Some(start);
    }
    m := start.(slots := start.slots + [CoinRow(|splits|, t)]);
    var split := cmds[SplitIndex(req)];
    assert split == SplitCoins(split.coin, amounts);
    assert forall i :: 0 <= i < |amounts| ==> IsU64(amounts[i]);
    assert start.slots + [] == start.slots;
    Produces(start, start.slots, [], FreshCoins(|amounts|, t), CoinRow(|splits|, t));
    assert start.slots + ([] + [CoinRow(|splits|, t)]) == m.slots;
    assert Produce(start, FreshCoins(|amounts|, t)) == m;
    assert CoinType(chain, start, split.coin) == Some(t);
    assert Step(chain, start, split) == Some(m);
    ExecCons(chain, start, m, m, split, []);
    if SplitIndex(req) == 1 {
      ExecCons(chain, EMPTY_MACHINE, start, m, cmds[0], [split] + []);
      assert cmds == [cmds[0]] + ([split] + []);
    } else {
      assert cmds == [split] + [];
    }
    NothingToRepay(cmds, 0, map[]);
  }
}

/** From pools to builder calls: graph, routes, order split, plan and second stage in a row
    (`handle_build_tx` and `finalize_canonical_build` in src/api/quote.rs). */
module BuildTransactions {
  import opened Models
  import opened Text
  import opened TokenGraphs
  import opened Walks
  import opened RouteSearch
  import opened SwapSimulation
  import opened OrderSplit
  import opened GasPruning
  import opened Slippage
  import opened Ptb
  import opened TxPlanner
  import opened PlanTransactions
  import opened StageTwo

  datatype BuildTxError =
    | NoRoutes
    | NothingToSplit
    | Unplannable(reason: PlanError)
    | LookupFailed(id: string)
    | Uncanonical(fault: TxBuildError)

  const DEFAULT_CONFIG: RouteConfig := RouteConfig(100_000_000, 3)

  /** What a build reads besides the pools and the request. */
  datatype Surroundings = Surroundings(
    ticks: Ticks,
    curve: int -> real,
    slippage: SlippageBps,
    gasPerHop: real,
    lookup: string -> Option<ObjectMeta>,
    parsers: Parsers)

  ghost predicate Ready(pools: seq<PoolState>, w: Surroundings) {
    && DistinctPoolIds(pools) && SanePools(PoolsMap(pools))
    && IsPriceCurve(w.curve) && w.slippage.Valid() && w.gasPerHop >= 0.0
  }

  /** The chain a request meets: a gas coin of type `gasType`, the named coins of the input type, the pools. */
  function RequestChain(req: BuildTxRequest, pools: Pools, gasType: Token): Chain {
    Chain(gasType, map id | id in CoinIdsOf(req) :: req.fromToken, pools)
  }

  /** The token is taken for SUI without being SUI. */
  predicate Mistaken(t: Token) {
    IsSuiToken(t) && t != SUI_TYPE
  }

  /** On Sui the gas coin is a SUI coin: the plan runs linearly, unless the input token is mistaken for SUI,
      where it does not execute at all. */
  ghost predicate RunsOnSui(req: BuildTxRequest, pools: Pools, cmds: seq<PtbCommand>, n: nat) {
    var chain := RequestChain(req, pools, SUI_TYPE);
    && (!Mistaken(req.fromToken) ==> RunsLinearly(chain, cmds, req.userAddress, n, req.toToken))
    && (Mistaken(req.fromToken) && req.fromToken != req.toToken ==> Exec(chain, EMPTY_MACHINE, cmds) == None)
  }

  /** Different input coins, and few enough splits for 16-bit command indices. */
  predicate Regular(req: BuildTxRequest, splits: seq<Split>) {
    var ids := CoinIdsOf(req);
    (IsSuiToken(req.fromToken) || forall i, j :: 0 <= i < j < |ids| ==> ids[i] != ids[j]) && |splits| <= 3640
  }

  function TotalU64(amounts: seq<PtbArgument>): nat {
    if amounts == [] then 0
    else TotalU64(amounts[..|amounts| - 1]) + (if amounts[|amounts| - 1].U64? then amounts[|amounts| - 1].value else 0)
  }

  lemma {:induction false} AmountsTotal(splits: seq<Split>)
    ensures TotalU64(SplitAmounts(splits)) == SumIn(splits)
  {
    if splits != [] {
      AmountsTotal(splits[..|splits| - 1]);
      assert SplitAmounts(splits)[..|splits| - 1] == SplitAmounts(splits[..|splits| - 1]);
    }
  }

  /** Every split goes through pools on file, from the input to the output token, in at most three hops. */
  ghost predicate SplitsBacked(pools: Pools, req: BuildTxRequest, splits: seq<Split>) {
    forall i :: 0 <= i < |splits| ==> SplitBacked(pools, req, splits[i])
  }

  ghost predicate SplitBacked(pools: Pools, req: BuildTxRequest, split: Split) {
    BackedRoute(pools, req.fromToken, req.toToken, split.route.hops) && |split.route.hops| <= 3
  }

  /** The first command that touches the input coin's amount splits off exactly the order. */
  predicate SplitsWholeOrder(req: BuildTxRequest, commands: seq<PtbCommand>, amountIn: nat) {
    && SplitIndex(req) < |commands| && commands[SplitIndex(req)].SplitCoins?
    && TotalU64(commands[SplitIndex(req)].amounts) == amountIn
  }

  /** The builder was given the plan, with object data as looked up. */
  ghost predicate Canonical(w: Surroundings, commands: seq<PtbCommand>, calls: seq<BuilderCommand>) {
    exists meta :: LookedUp(meta, w.lookup) && FaithfulCalls(BuildInput(meta, w.parsers), commands, calls)
  }

  ghost predicate OutsideOnly(w: Surroundings, e: TxBuildError) {
    exists meta :: LookedUp(meta, w.lookup) && OutsideFault(BuildInput(meta, w.parsers), e)
  }

  method BuildTx(pools: seq<PoolState>, req: BuildTxRequest, amountIn: nat, w: Surroundings)
    returns (r: Models.Result<(seq<PtbCommand>, seq<BuilderCommand>), BuildTxError>, splits: seq<Split>)
    requires Ready(pools, w)
    ensures r.Ok? ==> SumIn(splits) == amountIn && SplitsWholeOrder(req, r.value.0, amountIn)
    ensures r.Ok? && Regular(req, splits) ==>
      && RunsOnSui(req, PoolsMap(pools), r.value.0, |splits|)
      && Canonical(w, r.value.0, r.value.1)
    ensures r.Err? && r.error.Uncanonical? && Regular(req, splits) ==> OutsideOnly(w, r.error.fault)
  {
    splits := [];
    var split := SplitOrder(pools, req, amountIn, w);
    if split.Err? {
      return Err(split.error), splits;
    }
    splits := split.value;
    ghost var chain := RequestChain(req, PoolsMap(pools), req.fromToken);
    var planned := PlanSplits(pools, req, amountIn, splits, w);
    if planned.Err? {
      return Err(planned.error), splits;
    }
    var calls := Canonicalize(planned.value, w, chain);
    if calls.Err? {
      return Err(calls.error), splits;
    }
    r := Ok((planned.value, calls.value));
  }

  /** Find routes and divide the order over them. */
  method SplitOrder(pools: seq<PoolState>, req: BuildTxRequest, amountIn: nat, w: Surroundings)
    returns (r: Models.Result<seq<Split>, BuildTxError>)
    requires Ready(pools, w)
    ensures r.Ok? ==> r.value != [] && SumIn(r.value) == amountIn && SplitsBacked(PoolsMap(pools), req, r.value)
    ensures r.Err? ==> r.error.NoRoutes? || r.error.NothingToSplit?
  {
    var graph := new TokenGraph();
    graph.BuildFromPools(pools);
    var routes, wrapped := FindBestRoute(graph, req.fromToken, req.toToken, amountIn, DEFAULT_CONFIG);
    if routes == [] {
      return Err(NoRoutes);
    }
    var byId := PoolsMap(pools);
    var sim := (route: RoutePath, amount: real) => SimulateRoute(route.hops, amount, 1.0, byId, w.ticks, w.curve);
    var splits := OptimizeOrderSplit(Env(sim, w.gasPerHop), routes, amountIn);
    if splits == [] {
      return Err(NothingToSplit);
    }
    SplitsAreBacked(graph.adjacency, pools, req, routes, splits, amountIn);
    r := Ok(splits);
  }

  method PlanSplits(pools: seq<PoolState>, req: BuildTxRequest, amountIn: nat, splits: seq<Split>, w: Surroundings)
    returns (r: Models.Result<seq<PtbCommand>, BuildTxError>)
    requires Ready(pools, w) && splits != [] && SumIn(splits) == amountIn
    requires SplitsBacked(PoolsMap(pools), req, splits)
    ensures r.Ok? ==> SplitsWholeOrder(req, r.value, amountIn)
    ensures r.Ok? && Regular(req, splits) ==>
      && RunsOnSui(req, PoolsMap(pools), r.value, |splits|)
      && Executable(RequestChain(req, PoolsMap(pools), req.fromToken), r.value)
    ensures r.Err? ==> r.error.Unplannable? && !r.error.reason.MissingInputCoin?
                       && !r.error.reason.NoTransferableCoin?
  {
    var env := PlanEnv(PoolsMap(pools), w.ticks, w.curve, w.slippage, req.userAddress);
    PoolsAreKnown(env, req, splits);
    var planned := PlanTransaction(env, req, splits);
    if planned.Err? {
      return Err(Unplannable(planned.error));
    }
    if Regular(req, splits) {
      SettingHolds(env, req, splits, pools, SUI_TYPE);
      SettingHolds(env, req, splits, pools, req.fromToken);
      assert SplitBacked(env.pools, req, splits[0]);
    }
    AmountsTotal(splits);
    assert planned.value[SplitIndex(req)] == SourceCommands(req, splits)[SplitIndex(req)];
    r := Ok(planned.value);
  }

  /** Look up every object the plan mentions and hand the plan to the builder. */
  method Canonicalize(commands: seq<PtbCommand>, w: Surroundings, ghost chain: Chain)
    returns (r: Models.Result<seq<BuilderCommand>, BuildTxError>)
    ensures Executable(chain, commands) && r.Ok? ==> Canonical(w, commands, r.value)
    ensures Executable(chain, commands) && r.Err? && r.error.Uncanonical? ==> OutsideOnly(w, r.error.fault)
    ensures r.Err? ==> r.error.LookupFailed? || r.error.Uncanonical?
  {
    var ids := CollectObjectIds(commands);
    var fetched := FetchMeta(ids, w.lookup);
    if fetched.Err? {
      return Err(LookupFailed(fetched.error));
    }
    var input := BuildInput(fetched.value, w.parsers);
    forall n | 0 <= n < |commands|
      ensures CommandCovered(input, commands[n])
    {
      assert forall id :: Mentions(commands[n], id) ==> id in ids;
    }
    var calls := ApplyCommands(commands, input, chain);
    if calls.Err? {
      return Err(Uncanonical(calls.error));
    }
    r := Ok(calls.value);
  }

  predicate LookedUp(meta: map<string, ObjectMeta>, lookup: string -> Option<ObjectMeta>) {
    forall id :: id in meta ==> lookup(id) == Some(meta[id])
  }

  /** Look every object up; the set has no order. */
  method FetchMeta(ids: set<string>, lookup: string -> Option<ObjectMeta>)
    returns (r: Models.Result<map<string, ObjectMeta>, string>)
    ensures r.Ok? <==> forall id :: id in ids ==> lookup(id).Some?
    ensures r.Ok? ==> r.value.Keys == ids && LookedUp(r.value, lookup)
    ensures r.Err? ==> r.error in ids && lookup(r.error).None?
  {
    var meta: map<string, ObjectMeta> := map[];
    var rest := ids;
    while rest != {}
      invariant rest <= ids && meta.Keys == ids - rest
      invariant LookedUp(meta, lookup)
      decreases |rest|
    {
      var id :| id in rest;
      match lookup(id)
      case None =>
        return Err(id);
      case Some(found) =>
        meta, rest := meta[id := found], rest - {id};
    }
    r := Ok(meta);
  }

  lemma {:induction false} PoolsMapKeys(pools: seq<PoolState>)
    ensures forall id :: id in PoolsMap(pools) ==> PoolsMap(pools)[id].poolId == id
  {
    if pools != [] {
      PoolsMapKeys(pools[..|pools| - 1]);
    }
  }

  lemma SplitsAreBacked(
    adj: Adjacency, pools: seq<PoolState>, req: BuildTxRequest, routes: seq<RoutePath>, splits: seq<Split>,
    amountIn: nat)
    requires IsGraphOf(adj, pools) && DistinctPoolIds(pools)
    requires forall r :: r in routes ==> IsRoute(adj, req.fromToken, req.toToken, r)
    requires Conserves(splits, ShortRoutes(routes), amountIn)
    ensures SplitsBacked(PoolsMap(pools), req, splits)
  {
    forall i | 0 <= i < |splits|
      ensures SplitBacked(PoolsMap(pools), req, splits[i])
    {
      var route := splits[i].route;
      assert route in ShortRoutes(routes);
      assert IsRoute(adj, req.fromToken, req.toToken, route);
      forall k | 0 <= k < |route.hops|
        ensures BackedAt(PoolsMap(pools), req.fromToken, route.hops, k)
      {
        RouteIsBacked(adj, pools, req.fromToken, route.hops, k);
      }
    }
  }

  lemma PoolsAreKnown(env: PlanEnv, req: BuildTxRequest, splits: seq<Split>)
    requires SplitsBacked(env.pools, req, splits)
    ensures KnowsAll(env, splits)
  {
    forall i, k | 0 <= i < |splits| && 0 <= k < |splits[i].route.hops|
      ensures splits[i].route.hops[k].poolId in env.pools
    {
      assert SplitBacked(env.pools, req, splits[i]);
      assert BackedAt(env.pools, req.fromToken, splits[i].route.hops, k);
    }
  }

  lemma {:induction false} FewHops(pools: Pools, req: BuildTxRequest, splits: seq<Split>, n: nat)
    requires n <= |splits| && SplitsBacked(pools, req, splits)
    ensures HopCount(splits, n) <= 3 * n
  {
    if n > 0 {
      FewHops(pools, req, splits, n - 1);
      assert SplitBacked(pools, req, splits[n - 1]);
    }
  }

  lemma SettingHolds(env: PlanEnv, req: BuildTxRequest, splits: seq<Split>, pools: seq<PoolState>, gasType: Token)
    requires env.user == req.userAddress && env.pools == PoolsMap(pools) && Regular(req, splits)
    requires SplitsBacked(env.pools, req, splits)
    ensures Setting(env, RequestChain(req, env.pools, gasType), req, splits)
  {
    PoolsMapKeys(pools);
    FewHops(env.pools, req, splits, |splits|);
    forall i | 0 <= i < |splits|
      ensures RouteBetween(env, req, splits[i])
    {
      assert SplitBacked(env.pools, req, splits[i]);
    }
  }

  // ----- when the gas coin has the wrong type

  /** Any token whose name contains that of SUI is taken for SUI, such as a share of a SUI vault. */
  lemma AnythingAroundSuiIsTakenForSui(before: string, after: string)
    ensures IsSuiToken(before + SUI_TYPE + after)
    ensures before + after != "" ==> before + SUI_TYPE + after != SUI_TYPE
  {
    var t, part := before + SUI_TYPE + after, "0x2::sui::sui";
    assert Lower(t)[|before|..][..|part|] == part;
    assert OccursAt(Lower(t), part, |before|);
    assert |t| == |before| + |SUI_TYPE| + |after|;
  }
}

/** The whole plan of `handle_build_tx`: the outer loop over the splits and the final transfer (src/api/quote.rs). */
module PlanTransactions {
  import opened Models
  import opened TokenGraphs
  import opened Walks
  import opened RouteSearch
  import opened SwapSimulation
  import opened OrderSplit
  import opened Ptb
  import opened DexSwap
  import opened LinearPlans
  import opened TxPlanner

  /** Hops of the first `n` splits. */
  function HopCount(splits: seq<Split>, n: nat): nat
    requires n <= |splits|
  {
    if n == 0 then 0 else HopCount(splits, n - 1) + |splits[n - 1].route.hops|
  }

  /** Every hop of every split finds its pool. */
  ghost predicate KnowsAll(env: PlanEnv, splits: seq<Split>) {
    forall i :: 0 <= i < |splits| ==> env.Knows(splits[i].route)
  }

  /** Planning succeeds: amounts fit, there is something to split, and every hop is accepted. */
  predicate Plannable(env: PlanEnv, req: BuildTxRequest, splits: seq<Split>)
    requires env.Valid() && KnowsAll(env, splits)
  {
    AmountsFit(splits) && HasSource(req) && PlannableUpTo(env, splits, |splits|)
  }

  predicate SplitPlannable(env: PlanEnv, split: Split)
    requires env.Valid() && env.Knows(split.route)
  {
    RoutePlannable(env, split.route.hops, 0, split.allocIn, env.slippage.ApplyToAmount(split.allocOut))
  }

  /** The surroundings a plan is meant for: pools as on chain, routes from the input to the output token
      through them, input coins (if not the gas coin) of the input type, and few enough commands for
      16-bit indices. */
  ghost predicate Setting(env: PlanEnv, chain: Chain, req: BuildTxRequest, splits: seq<Split>) {
    && env.user == req.userAddress
    && PoolsOnChain(chain, env.pools)
    && (forall i :: 0 <= i < |splits| ==> RouteBetween(env, req, splits[i]))
    && (IsSuiToken(req.fromToken) || InputCoinsOk(chain, CoinIdsOf(req), req.fromToken))
    && 2 + 6 * HopCount(splits, |splits|) < 0x1_0000 && |splits| <= 0x1_0000
  }

  ghost predicate RouteBetween(env: PlanEnv, req: BuildTxRequest, split: Split) {
    BackedRoute(env.pools, req.fromToken, req.toToken, split.route.hops)
  }

  /** Executing `cmds` uses every resource exactly once, repays every flash swap it takes three
      commands later, and ends by handing the user `n` coins of type `t`; whatever else is handed out
      goes to the same user. */
  ghost predicate RunsLinearly(chain: Chain, cmds: seq<PtbCommand>, user: string, n: nat, t: Token) {
    var end := Exec(chain, EMPTY_MACHINE, cmds);
    && end.Some? && Exhausted(end.value)
    && FlashSwapsRepaid(cmds, 0, map[], end.value.repaid)
    && (forall i :: 0 <= i < |end.value.delivered| ==> end.value.delivered[i].0 == user)
    && (n > 0 ==>
          && cmds != [] && cmds[|cmds| - 1].TransferObjects? && |cmds[|cmds| - 1].objects| == n
          && cmds[|cmds| - 1].address == Address(user)
          && n <= |end.value.delivered|
          && end.value.delivered[|end.value.delivered| - n..] == Payouts(user, n, t))
  }

  /** With split coins of the input type the plan runs linearly; with any other it does not execute. */
  ghost predicate PlanOutcome(chain: Chain, req: BuildTxRequest, splits: seq<Split>, cmds: seq<PtbCommand>) {
    && (HeldType(chain, req) == req.fromToken ==>
          RunsLinearly(chain, cmds, req.userAddress, |splits|, req.toToken))
    && (HeldType(chain, req) != req.fromToken && splits != [] && splits[0].route.hops != [] ==>
          Exec(chain, EMPTY_MACHINE, cmds) == None)
  }

  function Payouts(user: string, n: nat, t: Token): seq<(string, Resource)> {
    seq(n, _ => (user, Coin(t)))
  }

  // ----- the outer loop

  /** The fixed data of one plan, for the proof. */
  datatype TxPlan = TxPlan(chain: Chain, req: BuildTxRequest, splits: seq<Split>, base: Machine)

  /** Before split `i`: one coin of the output type per finished split, one untouched split coin per
      open one, and nothing else. */
  ghost predicate Underway(
    p: TxPlan, i: nat, commands: seq<PtbCommand>, outs: seq<PtbArgument>, m: Machine, at: seq<Slot>)
    requires i <= |p.splits|
  {
    var idx := SplitIndex(p.req);
    && PlanState(p.chain, commands, m, p.req.userAddress)
    && |m.slots| > idx
    && NamesCoins(m.slots, outs, at, p.req.toToken) && |outs| == i
    && (forall k :: 0 <= k < i ==> at[k].cmd == idx ==> at[k].sub == k)
    && LiveSlots(m.slots) == SlotSet(at) + OpenSlots(idx, i, |p.splits|)
    && forall k :: i <= k < |p.splits| ==>
        NamesCoin(m.slots, NestedResult(idx, k), Slot(idx, k), p.req.fromToken)
  }

  ghost function OpenSlots(idx: nat, i: nat, n: nat): set<Slot> {
    set k | i <= k < n :: Slot(idx, k)
  }

  /** The loop invariant, for well-typed and for mistyped input coins. */
  ghost predicate PlanProgress(
    env: PlanEnv, p: TxPlan, i: nat, commands: seq<PtbCommand>, outs: seq<PtbArgument>, m: Machine, at: seq<Slot>)
    requires i <= |p.splits|
  {
    Setting(env, p.chain, p.req, p.splits) ==>
      && (HeldType(p.chain, p.req) == p.req.fromToken ==> Underway(p, i, commands, outs, m, at))
      && (i == 0 ==> m == p.base && PlanState(p.chain, commands, m, p.req.userAddress)
                     && |m.slots| > SplitIndex(p.req)
                     && m.slots[SplitIndex(p.req)] == CoinRow(|p.splits|, HeldType(p.chain, p.req)))
      && (i > 0 && HeldType(p.chain, p.req) != p.req.fromToken && p.splits[0].route.hops != [] ==>
            Exec(p.chain, EMPTY_MACHINE, commands) == None)
  }

  /** The plan does not depend on the chain; what it does there is claimed for every chain. */
  method PlanTransaction(env: PlanEnv, req: BuildTxRequest, splits: seq<Split>)
    returns (r: Models.Result<seq<PtbCommand>, PlanError>)
    requires env.Valid() && KnowsAll(env, splits)
    ensures r.Ok? <==> Plannable(env, req, splits)
    ensures r.Err? ==> !r.error.MissingInputCoin? && !r.error.NoTransferableCoin?
    ensures r.Ok? ==> SourceCommands(req, splits) <= r.value
    ensures r.Ok? ==> forall chain :: Setting(env, chain, req, splits) ==> PlanOutcome(chain, req, splits, r.value)
  {
    var source := PlanSource(req, splits);
    if source.Err? {
      return Err(source.error);
    }
    var planned := PlanAllSplits(env, req, splits, source.value.0, source.value.1);
    if planned.Err? {
      return Err(planned.error);
    }
    var (commands, outs) := planned.value;
    ghost var head, planned' := source.value.0, commands;
    if outs != [] {
      commands := commands + [TransferObjects(outs, Address(req.userAddress))];
    }
    forall chain | Setting(env, chain, req, splits)
      ensures PlanOutcome(chain, req, splits, commands)
    {
      PlanEnds(env, req, splits, chain, head, planned', outs);
    }
    r := Ok(commands);
  }

  method PlanAllSplits(env: PlanEnv, req: BuildTxRequest, splits: seq<Split>, head: seq<PtbCommand>, splitIdx: nat)
    returns (r: Models.Result<(seq<PtbCommand>, seq<PtbArgument>), PlanError>)
    requires env.Valid() && KnowsAll(env, splits)
    requires splitIdx == SplitIndex(req) && |head| <= 2
    ensures r.Ok? <==> PlannableUpTo(env, splits, |splits|)
    ensures r.Err? ==> r.error.Builder?
    ensures r.Ok? ==> head <= r.value.0 && AllPlanned(env, req, splits, head, |splits|, r.value.0, r.value.1)
  {
    var commands := head;
    var outs: seq<PtbArgument> := [];
    StartsPlanned(env, req, splits, head);
    for i := 0 to |splits|
      invariant AllPlanned(env, req, splits, head, i, commands, outs)
      invariant head <= commands && |commands| <= 2 + 6 * HopCount(splits, i)
      invariant PlannableUpTo(env, splits, i)
    {
      var planned := PlanSplit(env, req, splits, i, splitIdx, commands, outs, head);
      if planned.Err? {
        PlannableMono(env, splits, i + 1, |splits|);
        return Err(planned.error);
      }
      commands, outs := planned.value.0, planned.value.1;
    }
    r := Ok((commands, outs));
  }

  /** `p` is a plan for the request whose loop starts after `head`. */
  ghost predicate StartsAt(env: PlanEnv, p: TxPlan, req: BuildTxRequest, splits: seq<Split>, head: seq<PtbCommand>) {
    p.req == req && p.splits == splits && PlanProgress(env, p, 0, head, [], p.base, [])
  }

  ghost predicate Planned(env: PlanEnv, p: TxPlan, i: nat, commands: seq<PtbCommand>, outs: seq<PtbArgument>)
    requires i <= |p.splits|
  {
    exists m, at :: PlanProgress(env, p, i, commands, outs, m, at)
  }

  /** Whatever chain the transaction is planned for. */
  ghost predicate AllPlanned(
    env: PlanEnv, req: BuildTxRequest, splits: seq<Split>, head: seq<PtbCommand>,
    i: nat, commands: seq<PtbCommand>, outs: seq<PtbArgument>)
    requires i <= |splits|
  {
    forall p :: StartsAt(env, p, req, splits, head) ==> Planned(env, p, i, commands, outs)
  }

  lemma StartsPlanned(env: PlanEnv, req: BuildTxRequest, splits: seq<Split>, head: seq<PtbCommand>)
    ensures AllPlanned(env, req, splits, head, 0, head, [])
  {
    forall p | StartsAt(env, p, req, splits, head)
      ensures Planned(env, p, 0, head, [])
    {
      assert PlanProgress(env, p, 0, head, [], p.base, []);
    }
  }

  lemma PlanEnds(
    env: PlanEnv, req: BuildTxRequest, splits: seq<Split>, chain: Chain, head: seq<PtbCommand>,
    commands: seq<PtbCommand>, outs: seq<PtbArgument>)
    requires HasSource(req) && AmountsFit(splits) && head == SourceCommands(req, splits)
    requires AllPlanned(env, req, splits, head, |splits|, commands, outs) && Setting(env, chain, req, splits)
    ensures PlanOutcome(chain, req, splits,
      if outs != [] then commands + [TransferObjects(outs, Address(req.userAddress))] else commands)
  {
    var p, m0, at0 := StartPlan(env, req, splits, chain);
    assert StartsAt(env, p, req, splits, head);
    assert Planned(env, p, |splits|, commands, outs);
    var m, at :| PlanProgress(env, p, |splits|, commands, outs, m, at);
    FinishPlan(env, p, commands, outs, m, at);
  }

  /** The first `n` splits are accepted hop by hop. */
  predicate PlannableUpTo(env: PlanEnv, splits: seq<Split>, n: nat)
    requires env.Valid() && KnowsAll(env, splits) && n <= |splits|
  {
    n == 0 || (PlannableUpTo(env, splits, n - 1) && SplitPlannable(env, splits[n - 1]))
  }

  lemma {:induction false} PlannableMono(env: PlanEnv, splits: seq<Split>, i: nat, n: nat)
    requires env.Valid() && KnowsAll(env, splits) && i <= n <= |splits|
    ensures PlannableUpTo(env, splits, n) ==> PlannableUpTo(env, splits, i)
  {
    if i < n {
      PlannableMono(env, splits, i, n - 1);
    }
  }

  /** The body of the outer loop: plan one split and keep its final coin. */
  method PlanSplit(
    env: PlanEnv, req: BuildTxRequest, splits: seq<Split>, i: nat, splitIdx: nat,
    commands: seq<PtbCommand>, outs: seq<PtbArgument>, ghost head: seq<PtbCommand>)
    returns (r: Models.Result<(seq<PtbCommand>, seq<PtbArgument>), PlanError>)
    requires env.Valid() && KnowsAll(env, splits) && i < |splits| && splitIdx == SplitIndex(req)
    requires AllPlanned(env, req, splits, head, i, commands, outs) && |commands| <= 2 + 6 * HopCount(splits, i)
    ensures r.Ok? <==> SplitPlannable(env, splits[i])
    ensures r.Err? ==> r.error.Builder?
    ensures r.Ok? ==>
      && commands <= r.value.0 && |r.value.0| <= 2 + 6 * HopCount(splits, i + 1)
      && AllPlanned(env, req, splits, head, i + 1, r.value.0, r.value.1)
  {
    var split := splits[i];
    var pathMinOut := env.slippage.ApplyToAmount(split.allocOut);
    var splitCoin := NestedResult(splitIdx, AsU16(i));
    var planned := PlanRoute(env, split.route, split.allocIn, pathMinOut, splitCoin, commands);
    if planned.Err? {
      return Err(planned.error);
    }
    var (longer, coin) := planned.value;
    AllSplitsPlanned(env, req, splits, head, i, commands, outs, longer, coin.value);
    r := Ok((longer, if coin.Some? then outs + [coin.value] else outs));
  }

  lemma AllSplitsPlanned(
    env: PlanEnv, req: BuildTxRequest, splits: seq<Split>, head: seq<PtbCommand>, i: nat,
    commands: seq<PtbCommand>, outs: seq<PtbArgument>, commands': seq<PtbCommand>, out: PtbArgument)
    requires i < |splits| && AllPlanned(env, req, splits, head, i, commands, outs)
    requires |commands| <= 2 + 6 * HopCount(splits, i) && commands <= commands'
    requires AllReached(env, splits[i].route.hops, commands, NestedResult(SplitIndex(req), AsU16(i)),
                        |splits[i].route.hops|, commands', out)
    ensures AllPlanned(env, req, splits, head, i + 1, commands', outs + [out])
  {
    HopCountMono(splits, i + 1, |splits|);
    forall p | StartsAt(env, p, req, splits, head)
      ensures Planned(env, p, i + 1, commands', outs + [out])
    {
      assert Planned(env, p, i, commands, outs);
      var m, at :| PlanProgress(env, p, i, commands, outs, m, at);
      var plan := RoutePlan(
        p.chain, splits[i].route.hops, req.fromToken, req.toToken, commands, m,
        NestedResult(SplitIndex(req), AsU16(i)), Slot(SplitIndex(req), i), HeldType(p.chain, req));
      assert Reached(env, plan, |plan.hops|, commands', out);
      var m', s' :| Progress(env, plan, |plan.hops|, commands', out, m', s');
      SplitPlanned(env, p, i, commands, outs, m, at, plan, commands', out, m', s');
      assert PlanProgress(env, p, i + 1, commands', outs + [out], m', at + [s']);
    }
  }

  lemma {:induction false} HopCountMono(splits: seq<Split>, i: nat, j: nat)
    requires i <= j <= |splits|
    ensures HopCount(splits, i) <= HopCount(splits, j)
  {
    if i < j {
      HopCountMono(splits, i, j - 1);
    }
  }

  /** The state right after the input coin has been split. */
  lemma StartPlan(env: PlanEnv, req: BuildTxRequest, splits: seq<Split>, chain: Chain)
    returns (p: TxPlan, m: Machine, at: seq<Slot>)
    requires HasSource(req) && AmountsFit(splits)
    ensures p.chain == chain && p.req == req && p.splits == splits && at == [] && m == p.base
    ensures PlanProgress(env, p, 0, SourceCommands(req, splits), [], m, at)
  {
    m, at := EMPTY_MACHINE, [];
    if IsSuiToken(req.fromToken) || InputCoinsOk(chain, CoinIdsOf(req), req.fromToken) {
      m := SourceRuns(chain, req, splits);
      var idx, n, t := SplitIndex(req), |splits|, HeldType(chain, req);
      assert m.slots[idx] == CoinRow(n, t);
      forall x
        ensures x in LiveSlots(m.slots) <==> x in OpenSlots(idx, 0, n)
      {
        LiveIff(m.slots, x);
      }
      assert SlotSet([]) == {};
    }
    p := TxPlan(chain, req, splits, m);
  }

  /** Planning one more split keeps the loop invariant. */
  lemma SplitPlanned(
    env: PlanEnv, p: TxPlan, i: nat, commands: seq<PtbCommand>, outs: seq<PtbArgument>, m: Machine, at: seq<Slot>,
    plan: RoutePlan, commands': seq<PtbCommand>, out: PtbArgument, m': Machine, s': Slot)
    requires i < |p.splits| && PlanProgress(env, p, i, commands, outs, m, at)
    requires plan == RoutePlan(
      p.chain, p.splits[i].route.hops, p.req.fromToken, p.req.toToken, commands, m,
      NestedResult(SplitIndex(p.req), AsU16(i)), Slot(SplitIndex(p.req), i), HeldType(p.chain, p.req))
    requires |commands| <= 2 + 6 * HopCount(p.splits, i) && HopCount(p.splits, i + 1) <= HopCount(p.splits, |p.splits|)
    requires commands <= commands'
    requires Progress(env, plan, |plan.hops|, commands', out, m', s')
    ensures PlanProgress(env, p, i + 1, commands', outs + [out], m', at + [s'])
  {
    if Setting(env, p.chain, p.req, p.splits) {
      var idx, held := SplitIndex(p.req), HeldType(p.chain, p.req);
      assert RouteBetween(env, p.req, p.splits[i]);
      assert AsU16(i) == i;
      if held == p.req.fromToken {
        assert NamesCoin(m.slots, NestedResult(idx, i), Slot(idx, i), held);
        UnderwayNext(env, p, i, commands, outs, m, at, commands', out, m', s');
      } else if i == 0 {
        assert NamesCoin(m.slots, NestedResult(idx, 0), Slot(idx, 0), held);
      } else if p.splits[0].route.hops != [] {
        PlanPrefixFails(p.chain, commands, commands');
      }
    }
  }

  lemma UnderwayNext(
    env: PlanEnv, p: TxPlan, i: nat, commands: seq<PtbCommand>, outs: seq<PtbArgument>, m: Machine, at: seq<Slot>,
    commands': seq<PtbCommand>, out: PtbArgument, m': Machine, s': Slot)
    requires i < |p.splits| && Underway(p, i, commands, outs, m, at)
    requires env.user == p.req.userAddress
    requires OnTheWay(env, p.chain, commands', m', out, s', p.req.toToken, m, Slot(SplitIndex(p.req), i))
    ensures Underway(p, i + 1, commands', outs + [out], m', at + [s'])
  {
    var idx, n := SplitIndex(p.req), |p.splits|;
    var s := Slot(idx, i);
    var outs', at' := outs + [out], at + [s'];
    assert NamesCoin(m.slots, NestedResult(idx, i), s, p.req.fromToken);
    forall k | 0 <= k < i
      ensures NamesCoin(m'.slots, outs'[k], at'[k], p.req.toToken) && at[k] != s && at[k] != s'
    {
      assert NamesCoin(m.slots, outs[k], at[k], p.req.toToken);
    }
    forall k | i + 1 <= k < n
      ensures NamesCoin(m'.slots, NestedResult(idx, k), Slot(idx, k), p.req.fromToken)
    {
      assert NamesCoin(m.slots, NestedResult(idx, k), Slot(idx, k), p.req.fromToken);
    }
    assert SlotSet(at') == SlotSet(at) + {s'} by {
      assert at'[i] == s' && forall k :: 0 <= k < i ==> at'[k] == at[k];
    }
    assert OpenSlots(idx, i, n) == OpenSlots(idx, i + 1, n) + {s};
    assert s !in SlotSet(at) && s !in OpenSlots(idx, i + 1, n);
    assert SlotSet(at) + OpenSlots(idx, i, n) - {s} == SlotSet(at) + OpenSlots(idx, i + 1, n);
  }

  /** The final transfer uses up everything that is left. */
  lemma FinishPlan(
    env: PlanEnv, p: TxPlan, commands: seq<PtbCommand>, outs: seq<PtbArgument>, m: Machine, at: seq<Slot>)
    requires PlanProgress(env, p, |p.splits|, commands, outs, m, at)
    ensures var cmds := if outs != [] then commands + [TransferObjects(outs, Address(p.req.userAddress))] else commands;
      Setting(env, p.chain, p.req, p.splits) ==> PlanOutcome(p.chain, p.req, p.splits, cmds)
  {
    var user, n, t := p.req.userAddress, |p.splits|, p.req.toToken;
    var cmds := if outs != [] then commands + [TransferObjects(outs, Address(user))] else commands;
    if Setting(env, p.chain, p.req, p.splits) {
      if HeldType(p.chain, p.req) == p.req.fromToken {
        assert OpenSlots(SplitIndex(p.req), n, n) == {};
        if outs == [] {
          assert SlotSet(at) == {};
          ExhaustedIff(m);
        } else {
          TransferAll(p.chain, commands, outs, m, at, user, t);
        }
      } else if n > 0 && p.splits[0].route.hops != [] {
        PlanPrefixFails(p.chain, commands, cmds);
      }
    }
  }

  lemma TransferAll(
    chain: Chain, commands: seq<PtbCommand>, outs: seq<PtbArgument>, m: Machine, at: seq<Slot>, user: string, t: Token)
    requires PlanState(chain, commands, m, user) && NamesCoins(m.slots, outs, at, t)
    requires LiveSlots(m.slots) == SlotSet(at) && outs != []
    ensures RunsLinearly(chain, commands + [TransferObjects(outs, Address(user))], user, |outs|, t)
  {
    var n := |outs|;
    var transfer := TransferObjects(outs, Address(user));
    DeliverAll(m, outs, at, t, user);
    var d := Deliver(m, outs, user).value;
    var end := Produce(d, []);
    assert d.slots + [] == d.slots;
    Produces(d, d.slots, [], [], []);
    assert end.slots == d.slots + ([] + [[]]);
    LiveAfterRow(d.slots, []);
    assert end.slots == d.slots + [[]];
    ExhaustedIff(end);
    ExecCons(chain, m, end, end, transfer, []);
    assert [transfer] + [] == [transfer];
    ExecConcat(chain, EMPTY_MACHINE, commands, [transfer]);
    NothingToRepay([transfer], |commands|, m.repaid);
    RepaidConcat(commands, [transfer], 0, map[], m.repaid, m.repaid);
    assert end.delivered[|m.delivered|..] == Payouts(user, n, t);
  }
}

# A verified model of the DEX aggregator's routing, transaction planning and data pipeline

The aggregator turns a list of on-chain pools into a token graph, searches it for routes, simulates
swaps through concentrated-liquidity pools, divides an order over several routes, and compiles the
result into a programmable transaction block (PTB). Background workers discover pools with a
resumable scan and write state through a queue with a dead-letter queue. This project states what
those parts do in Dafny and proves what they keep.

`dafny verify dfyconfig.toml` verifies all files.

## How the files fit together

- Routing: `token_graph.dfy`, `walks.dfy` (walks, loops, cheapest walks), `dijkstra.dfy`,
  `bellman_ford.dfy`, `fee_bounds.dfy` (when their 64-bit sums hold), `path_enumeration.dfy`, `route_search.dfy`.
- Swaps and splitting: `tick_swap.dfy` (the tick-crossing loop), `swap_simulation.dfy`, `tick_data.dfy`,
  `order_split.dfy` (nested bisection), `order_quality.dfy` and `split_quality.dfy` (how good its result is),
  `gas_pruning.dfy`, `quotes.dfy`.
- Transactions: `ptb.dfy` gives commands a linear, typed meaning: coins, balances, coin vectors and
  flash-swap receipts are resources, a command either type-checks and consumes what it names or
  fails. `dex_swap.dfy` has the per-DEX builders, `linear_plans.dfy`, `tx_planner.dfy` and
  `plan_transaction.dfy` the planning loop, `stage_two.dfy` the second stage, `build_tx.dfy` the whole
  way from pools to builder calls, `slippage.dfy` the limits.
- Data: `discovery_store.dfy` (tables and the page commit), `discovery_scan.dfy` (both scans as code),
  `discovery_coverage.dfy` and `discovery_events.dfy` (what any sequence of runs keeps), `discovery_progress.dfy`
  (how runs get to the end), `write_queue.dfy` (the queue as interleaved steps), `db_writer.dfy` (writer and
  replay as code), `type_args.dfy`.
- `models.dfy` and `text.dfy` are shared.

Loops and updates of the source are methods with loops, over classes where the source has objects
(`TokenGraph`, the DFS state, `ResultTracker`, `TransactionBuilder`, `Storage`, `Pipeline`). Each is
specified by a function or by the property it establishes; the properties of those functions are lemmas.

## What the code does not do

Some expected properties do not hold of the code. Each is stated with its exact condition:

- Bellman-Ford reads fees as signed numbers and adds them in 64 bits. Where no sum wraps, the flag for negative
  cycles on a graph built from pools is false if and only if every fee met on the way is below 2^63, and the path
  is then simple and cheapest (`BellmanFord.FindShortestPathBellmanFord`); `FeeBounds.NegativeFeeExample` is a
  graph of two tokens where the flag is true. Fees below 2^63 are not enough to keep the sums in range: over all
  graphs of up to `n` tokens with fees up to `f` they are in range if and only if `n * f < 2^63`
  (`FeeBounds.BellmanFordRange`, `LineWraps`), and for Dijkstra's unsigned sums if and only if `n * (f + 100) < 2^64`
  (`FeeBounds.DijkstraRange`). For a single graph the cheapest costs decide Dijkstra's case, up to equal costs;
  for Bellman-Ford simple walks in range suffice and cheapest walks in range are necessary.
- A tick-aware swap that crosses no tick agrees with the constant-product form exactly when the
  input after fees exceeds the loop's dust limit (`SwapSimulation.NoCrossingAgreesUnlessDust`); below it the
  output is lost (`SwapSimulation.DustBuysNothing`, with `DustExample`).
- A plan paid out of the gas coin is well typed exactly when the split coins have the input type.
  A token whose name merely contains that of SUI is taken for SUI
  (`BuildTransactions.AnythingAroundSuiIsTakenForSui`), and then the plan does not execute on a chain whose
  gas coin is SUI (`PlanTransactions.PlanTransaction`, `BuildTransactions.BuildTx`).
- A successful retry removes its failure row exactly for a DEX called "unknown"
  (`DiscoveryStore.RetryLeavesRow`).
- A run completes the object bootstrap if and only if it is served up to a committed last page that is not
  empty (`DiscoveryCoverage.RunCompletesIff`). When the last objects arrive on a page that announces more,
  the bootstrap therefore stays incomplete until the server rejects the cursor or sends it back
  (`DiscoveryCoverage.EmptyTailStaysIncomplete`); `EmptyTailExample` reaches that state from empty tables. A server
  that announces more only when there is more never leads there (`ScanProgress.RunsComplete`).
- Popping an undecodable dead-letter entry loses it, like an undecodable queue message; a run loses
  something if and only if one of its steps does (`WriteQueue.RunLosesIff`).
- The price limit for a purchase reaches the simulated price if and only if there is an adverse budget or
  that price is a whole number of raw units (`Slippage.LimitForPurchases`, with `LimitCanTruncate`).

## Model

| member | source | states |
|---|---|---|
| `TokenGraphs.TokenGraph.BuildFromPools` | src/router.rs:57-86 | the adjacency lists are those read off the pool list token by token: both directions of every unpaused pool, in order |
| `TokenGraphs.ArcsAreUnpausedPools` | src/router.rs:57-86 | an edge is in a built graph if and only if some unpaused pool realises it in one of its directions |
| `TokenGraphs.BuiltGraphHasNoCopies` | src/router.rs:57-86 | pools with distinct ids give no parallel copies of an edge, self-loops aside |
| `Walks.CheapestIsSimple` | src/router.rs:150-210 | with a positive hop penalty every cheapest walk visits no token twice |
| `Walks.SimpleIsShort` | src/router.rs:213-305 | a simple walk has fewer hops than the graph has tokens, the reason V-1 rounds suffice |
| `Walks.WalkLowerBound` | src/router.rs:150-210 | distances that no arc can improve bound the cost of every walk from below |
| `Dijkstra.FindShortestPathDijkstra` | src/router.rs:150-210 | none exactly when the target is unreachable; otherwise a simple path whose fees plus 100 per hop are minimal over all walks; no sum reaches 2^64 when those out of the tokens up to the target's distance stay below, and one does when such a sum out of a nearer token does not; the lazy-deletion loop and the reconstruction terminate |
| `Dijkstra.OfferHeap` | src/router.rs:150-210 | a pushed entry is never already in the heap, so the heap is a set, and settled tokens are never offered again |
| `Dijkstra.PoppedIsOptimal` | src/router.rs:150-210 | when the target is popped its cost is at most that of every walk to it |
| `BellmanFord.FindShortestPathBellmanFord` | src/router.rs:213-305 | for any fees, wrapping or not, none exactly when unreachable; when no sum wraps: with fees below 2^63, also zero ones, a simple path of minimal fee sum and a false negative-cycle flag, and with both directions of every pool the flag is false only then; no sum wraps when every simple walk and one arc more cost less than 2^63, or when the size of every cast fee times the square of the number of tokens is; and when none does, every cheapest walk and one arc more cost less than 2^63 |
| `BellmanFord.CheckNegativeCycle` | src/router.rs:262-279 | the flag tells whether some edge still improves a distance |
| `BellmanFord.NoImprovementFits` | src/router.rs:262-279 | a fee that casts to a negative number and its opposite direction cannot both fail to improve |
| `BellmanFord.BuiltGraphIsSymmetric` | src/router.rs:57-86 | built graphs have both directions of every pool |
| `BellmanFord.RecordKeeps` | src/router.rs:234-260 | recording an improvement keeps the parent graph acyclic: parents come strictly earlier by distance, then by time stamp |
| `BellmanFord.QuietRoundCovers` | src/router.rs:234-260 | leaving early after a round without improvement is safe: every walk is covered |
| `BellmanFord.LastRoundCovers` | src/router.rs:234-260 | after V-1 rounds every walk of any length is covered |
| `BellmanFord.NoArcImproves` | src/router.rs:262-279 | once all walks are covered no edge improves a distance, so the negative-cycle check stays false |
| `BellmanFord.BacktraceStep` | src/router.rs:281-305 | following parents never revisits a token, so the loop guard of the reconstruction never fires |
| `FeeBounds.FewTokensFit` | src/router.rs:213-260 | simple walks and one arc more cost at most the number of tokens times the greatest hop cost |
| `FeeBounds.BellmanFordRange` | src/router.rs:234-279 | over all graphs of at most `n` tokens with fees up to `f`, sums along simple walks, and even along cheapest walks alone, stay below 2^63 if and only if `n * f` does |
| `FeeBounds.LineWraps` | src/router.rs:234-279 | for fees below 2^63 with `n * f` at least 2^63 there is a graph of pools on which a cheapest walk and one arc more reach 2^63, so every run wraps |
| `FeeBounds.DijkstraRange` | src/router.rs:184-192 | the same for Dijkstra's unsigned sums: if and only if `n * (f + 100)` is below 2^64 |
| `FeeBounds.NegativeFeeExample` | src/router.rs:262-279 | one pool with the fee 2^64 - 1 makes the flag true, whatever the order of the tokens |
| `PathEnumeration.DfsState.DfsHelper` | src/router.rs:105-147 | every recursive call restores the visited set and the current path and appends exactly the extensions of the path |
| `PathEnumeration.FindAllPathsDfs` | src/router.rs:89-103 | exactly the simple paths of 1 to `max_hops` hops, each once when edges have no parallel copies |
| `RouteSearch.DijkstraAgainstBellmanFord` | src/router.rs:150-305 | Dijkstra's path has no more hops and Bellman-Ford's no more fees; the overpaid fees are at most 100 per hop saved |
| `RouteSearch.DijkstraAmongEnumerated` | src/router.rs:89-210 | a Dijkstra path within the hop limit is one of the enumerated paths and none of those is cheaper |
| `RouteSearch.EnumerationFindsReachable` | src/router.rs:89-147 | with V-1 hops allowed the enumeration is non-empty exactly when the target is reachable |
| `RouteSearch.FindBestRoute` | src/router.rs:308-324 | small amounts get the single cheapest route if there is one, large amounts exactly the simple routes within the limit |
| `RouteSearch.RouteIsBacked` | src/router.rs:57-147 | on pools with distinct ids every hop of a walk uses the unpaused pool its id names, and hops chain |
| `TickSwap.AdvancePrice` | src/router.rs:501-566 | an iteration moves the price strictly in the swap's direction and never past the tick target |
| `TickSwap.RunSandwiched` | src/router.rs:501-566 | over any number of crossed ticks the output lies between input times the square of the last and of the first sqrt price (reciprocally for purchases) |
| `TickSwap.LoopBoundSuffices` | src/router.rs:501-566 | `ticks.len() + 2` iterations are enough: more change nothing |
| `TickSwap.LiquidityTracksTicks` | src/router.rs:356-382 | active liquidity is the initial one minus or plus the net liquidity of exactly the ticks crossed |
| `TickSwap.RunMonotone` | src/router.rs:501-566 | more input gives no less output and moves the price no less |
| `SwapSimulation.RunSwapLoop` | src/router.rs:475-585 | the loop with its breaks computes the specification of the tick-aware swap |
| `SwapSimulation.TickAwareSandwiched` | src/router.rs:475-585 | the price sandwich for the whole simulation, on the input consumed after fees, and the direction of the price |
| `SwapSimulation.NoCrossingAgreesUnlessDust` | src/router.rs:395-439 | without a crossing, output and final price equal the within-tick form if and only if the input after fees exceeds 1e-12 |
| `SwapSimulation.DustBuysNothing` | src/router.rs:501-566 | any input after fees up to that limit buys nothing, while the within-tick form pays for it |
| `SwapSimulation.WithinTickConcave` | src/router.rs:395-439 | each increment of the within-tick output lies between the increments at the marginals of its two ends |
| `SwapSimulation.HopMonotone` | src/router.rs:464-585 | a hop's output is non-negative and non-decreasing in its input, with or without tick data |
| `SwapSimulation.SimulateRouteTickAware` | src/router.rs:588-614 | the hop loop computes the composed simulation; a missing pool zeroes output and marginal |
| `SwapSimulation.RouteMonotone` | src/router.rs:588-614 | more input into a route never yields less output |
| `TickData.FinalizeKeepsLookups` | src/collectors/tick_fetch.rs:624-627 | stable sort and deduplication give strictly ascending ticks and keep which ticks there are and the net liquidity found for each |
| `TickData.FinalizeKeepsNextTick` | src/collectors/tick_fetch.rs:624-627 | the swap loop picks the same next tick as before finalizing |
| `OrderSplit.SolveAllocationForTargetMarginal` | src/router.rs:626-653 | the inner loop computes the specified bisection |
| `OrderSplit.AllocationBracketed` | src/router.rs:626-653 | the answer is zero when the spot marginal is at most the target, else the middle of a bracket of width `max_amount / 2^15` with a marginal above the target at its lower end and at most the target at its upper end (or the limit there) |
| `OrderSplit.FindBestAllocations` | src/router.rs:679-715 | the outer loop computes the specified bisection |
| `OrderSplit.BisectionExit` | src/router.rs:679-715 | the allocations are the inner solver's at the upper end, sum to at most the total, and the lower end is zero or asks for more than the total; the width is `max_spot / 2^20` |
| `OrderSplit.OptimizeOrderSplitGross` | src/router.rs:656-761 | the method computes the specified split with truncation and remainder |
| `OrderSplit.GrossConserves` | src/router.rs:717-761 | a non-empty gross split hands out exactly the order, in positive parts, over the given routes |
| `OrderQuality.TotalMonotone` | src/router.rs:626-715 | for any simulator, a higher target marginal never allocates more in all |
| `OrderQuality.ThresholdFound` | src/router.rs:679-715 | for any simulator, the outer bisection ends at a target that fits, as does every higher one, while none lower by `max_spot / 2^20` does |
| `OrderQuality.NearlyOptimal` | src/router.rs:626-715 | over concave routes no division of the order gives more than the bisection's allocations, up to the price at the final target of what it hands out beyond them and one inner bracket width at the spot rates |
| `OrderQuality.SameAmountNearlyOptimal` | src/router.rs:626-715 | in particular no division of at most the allocated amount does, up to that bracket width |
| `OrderQuality.RouteConcave` | src/router.rs:395-439 | a route of any length without tick data is concave, with the returned marginal as its slope bound at both ends |
| `SplitQuality.GrossLoss` | src/router.rs:717-761 | scaling, truncation and handing out the rest cost at most one unit of output and one unit of input at the spot rate per route |
| `SplitQuality.GrossNearlyOptimal` | src/router.rs:656-761 | over concave routes no division of the whole order or part of it gives more than the finished split in whole units, up to the stated slack |
| `SplitQuality.SplitNearlyOptimal` | src/router.rs:395-761 | so over routes without tick data the finished split is nearly optimal |
| `GasPruning.RemovalShrinks` | src/router.rs:896-923 | pruning removes exactly one active route, so the loop ends |
| `GasPruning.OptimizeOrderSplit` | src/router.rs:826-946 | empty exactly without usable routes or amount; otherwise conserves the order; with an all-profitable candidate the result is one and none has more net output; else one route takes everything with the greatest output |
| `GasPruning.CandidatesConserve` | src/router.rs:849-945 | every split the pruning loop evaluates conserves the order |
| `GasPruning.BestOfIsBest` | src/router.rs:849-945 | keeping the best so far keeps an all-profitable candidate of maximal net output |
| `Quotes.QuoteSplits` | src/api/quote.rs:144-178 | impact and steps are the specified sums; for a conserved order the impact lies in [0,1] and the weights sum to at most 100, falling short by less than one point per split |
| `Quotes.WeightsRound` | src/api/quote.rs:144-148 | for any splits the weights times the order lie within one point per split of the amounts times 100 |
| `Quotes.ImpactWithinShare` | src/api/quote.rs:150-169 | for any splits the impact is at most the share of the order they carry |
| `Quotes.WithinTickImpact` | src/api/quote.rs:153-166 | without tick data the clamp never acts: the impact is exactly the shortfall against the spot price |
| `Slippage.ToleranceRounds` | src/slippage.rs:34-44 | exactly the tolerances in [0,1) are accepted, and rounding to basis points is off by at most half a point except just below the whole |
| `Slippage.ApplyRetainIsFloor` | src/slippage.rs:82-86 | the split computation is the exact floor of `amount * retain / 10000`, without leaving 128 bits |
| `Slippage.MinimaAddUp` | src/api/quote.rs:293-357 | the minimum of the total minus the sum of the per-path minima lies between 0 and n-1 |
| `Slippage.LimitInRange` | src/slippage.rs:118-148 | the sqrt-price limit is always in the protocol's range |
| `Slippage.LimitBelowForSales` | src/slippage.rs:118-148 | for sales the limit never lies above an in-range simulated price |
| `Slippage.LimitForPurchases` | src/slippage.rs:118-148 | for purchases the limit reaches an in-range simulated price if and only if there is an adverse budget or that price is a whole number of raw units |
| `DexSwap.ConfigPoolHopRuns` | src/dex_swap.rs:237-366 | a Cetus or Magma hop executes: the held coin becomes one coin of the other side, the receipt is repaid by the fourth command, nothing else is left |
| `DexSwap.MomentumHopRuns` | src/dex_swap.rs:388-512 | the same for a Momentum hop |
| `DexSwap.TurbosHopRuns` | src/dex_swap.rs:179-235 | a Turbos hop executes: vector made and used, bought coin left, leftover coin handed to the recipient |
| `DexSwap.HopRuns` | src/dex_swap.rs:70-127 | whichever DEX: the held coin is consumed, exactly one coin of the output type is left and is the one returned, every flash swap is repaid |
| `LinearPlans.WrongCoinFails` | src/dex_swap.rs:70-127 | a coin of another type than the hop's input makes the hop's commands fail |
| `LinearPlans.DeliverAll` | src/api/quote.rs:440-452 | distinct coins can be transferred together and exactly those leave the machine |
| `TxPlanner.BuildsIffBuildable` | src/dex_swap.rs:70-235 | a hop is accepted if and only if its DEX is supported, its fee has a Turbos type and its amounts fit 64 bits |
| `TxPlanner.PlanSource` | src/api/quote.rs:298-350 | succeeds exactly when all amounts fit and there is a coin to split; the commands split the gas coin or the merged input coins into the allocations |
| `TxPlanner.SourceRuns` | src/api/quote.rs:298-350 | those commands execute and leave one coin per split |
| `TxPlanner.PlanRoute` | src/api/quote.rs:353-441 | a route is planned exactly when every hop is accepted at its simulated amount; on every chain each hop takes the previous hop's coin |
| `PlanTransactions.PlanTransaction` | src/api/quote.rs:293-452 | succeeds exactly when the request is plannable, its internal guards never fire, and on every chain it is meant for the plan runs linearly: every resource used once, every receipt repaid, one coin of the output type per split handed to the user; where the split coins have another type it does not execute |
| `PlanTransactions.UnderwayNext` | src/api/quote.rs:353-441 | before each split the machine holds one output coin per finished split, one untouched coin per open one, and nothing else |
| `StageTwo.ApplyCommand` | src/transaction_builder.rs:196-271 | one builder call and one root per command, or an error that leaves both alone |
| `StageTwo.ApplyCommands` | src/transaction_builder.rs:176-179 | a plan that executes is translated call for call with every argument denoting the same thing; only faults of the outside world can stop it |
| `StageTwo.StepResolves` | src/transaction_builder.rs:123-149 | a command that executes refers only to results there are, never to the input-coin placeholder, and adds one row |
| `StageTwo.CommandTranslated` | src/transaction_builder.rs:196-325 | translating an executable command keeps one matching root per command |
| `StageTwo.CollectObjectIds` | src/api/quote.rs:656-705 | exactly the ids that some argument of some command refers to |
| `BuildTransactions.BuildTx` | src/api/quote.rs:181-497 | from pools to builder calls: the split-off amounts sum to the order; with a SUI gas coin the plan runs linearly into coins of the output token, or does not execute when the input token is mistaken for SUI; the second stage rejects it only for faults of the outside world |
| `BuildTransactions.FetchMeta` | src/api/quote.rs:518-526 | succeeds exactly when every object can be looked up |
| `BuildTransactions.SplitsAreBacked` | src/api/quote.rs:207-273 | every split goes from the input to the output token through pools on file in at most three hops |
| `BuildTransactions.AnythingAroundSuiIsTakenForSui` | src/api/quote.rs:295-296 | every token containing the SUI type is taken for SUI |
| `DiscoveryStore.Storage.CommitDiscoveryPage` | src/storage/postgres.rs:783-821 | the four tables after a commit |
| `DiscoveryStore.CommitKeepsRows` | src/storage/postgres.rs:507-617 | pools are never dropped; a failure row disappears only by being resolved under the commit's own DEX |
| `DiscoveryStore.FailureRows` | src/storage/postgres.rs:575-595 | every further occurrence of a failure counts as one more attempt |
| `DiscoveryStore.RetryLeavesRow` | src/workers/static_worker.rs:366-432 | a retry stores the pool but removes the failure row if and only if the DEX is called "unknown" |
| `DiscoveryScan.ScanDexObjectBootstrap` | src/discovery/scanner.rs:68-222 | durable state and outcome are those of the fold over the server's answers |
| `DiscoveryScan.ScanSingleEventType` | src/discovery/scanner.rs:262-420 | the same for the event scan |
| `DiscoveryCoverage.PageAccounts` | src/discovery/scanner.rs:131-191 | every object of a page ends up among its pools or its failures, duplicates included |
| `DiscoveryCoverage.ObjectStepSound` | src/discovery/scanner.rs:95-213 | every answer keeps: what lies before the durable cursor is accounted for, and all of it once the bootstrap is complete |
| `DiscoveryCoverage.AlwaysSound` | src/discovery/scanner.rs:68-222 | the invariant holds in every durable state reached by any activities of scans, retries, reconciliation and the writer |
| `DiscoveryCoverage.BootstrapCovers` | src/discovery/scanner.rs:68-222 | from empty tables, a recorded complete bootstrap means every listed object is a stored pool or a recorded failure |
| `DiscoveryCoverage.RunCompletesIff` | src/discovery/scanner.rs:95-213 | whatever the server answers, a run makes an incomplete bootstrap complete if and only if pages with more to follow and rejected cursors lead up to a committed last page with objects |
| `DiscoveryCoverage.ServedScanCompletes` | src/discovery/scanner.rs:193-213 | a run served up to a committed last page ends with a complete bootstrap if and only if that page has objects, or it was complete before and no cursor was rejected |
| `DiscoveryCoverage.EmptyTailStaysIncomplete` | src/discovery/scanner.rs:115-129 | with the durable cursor past the end, an honest server that neither rejects the cursor nor sends it back leaves the bootstrap incomplete over any answers |
| `DiscoveryCoverage.EmptyTailExample` | src/discovery/scanner.rs:115-129 | an honest run from empty tables reaches that state, and any number of honest runs after it leave it incomplete |
| `DiscoveryCoverage.CheckpointsNeverGoBack` | src/discovery/scanner.rs:325-406 | whatever any servers answer, no sequence of activities takes a durable `last_checkpoint` back |
| `ScanProgress.RunAdvances` | src/discovery/scanner.rs:95-213 | every run that commits a page gets at least one position further, however few pages it may read, or completes the bootstrap |
| `ScanProgress.RunsReachTheEnd` | src/discovery/scanner.rs:68-222 | as many such runs as there are objects, with any other activities between them, complete the bootstrap or bring the durable cursor behind the last object |
| `ScanProgress.RunsComplete` | src/discovery/scanner.rs:68-222 | with a server that announces more only when there is more, they complete the bootstrap |
| `EventCoverage.PageAccountsEvents` | src/discovery/scanner.rs:325-376 | every event of a page with a pool or a parse error ends up among its pools or failures |
| `EventCoverage.PageCommitKeeps` | src/discovery/scanner.rs:325-406 | committing a page keeps every listed event accounted for: a failure is resolved only by the event's own pool |
| `EventCoverage.EventsAlwaysSound` | src/discovery/scanner.rs:262-420 | the event invariant holds in every durable state reached by any activities |
| `EventCoverage.BackfillCovers` | src/discovery/scanner.rs:262-420 | from empty tables, every event before the durable cursor, and every event once the backfill is complete, is a stored pool or a recorded failure under its own id |
| `WriteQueue.RunConserves` | src/workers/db_writer.rs:38-150 | over every interleaving, published equals queued plus being written, persisted, dead-lettered, being replayed and lost, message by message |
| `WriteQueue.StepLoses` | src/queue.rs:83-116 | what each step loses, and exactly which steps lose nothing |
| `WriteQueue.RunLosesIff` | src/workers/db_writer.rs:38-150 | losses only grow, and a run leaves them as they were if and only if none of its steps loses something |
| `WriteQueue.HarmlessRunsLoseNothing` | src/workers/db_writer.rs:38-77 | storing may fail any number of times without losing a message |
| `WriteQueue.RunBoundsAttempts` | src/workers/db_writer.rs:38-77 | a message being written has failed at most twice, a dead-lettered one exactly three times |
| `WriteQueue.PersistedIsPrefix` | src/workers/db_writer.rs:79-150 | with one writer and no message giving up, the persisted messages are a prefix of the published ones |
| `DbWriter.Pipeline.PersistWithRetry` | src/workers/db_writer.rs:38-77 | at most three attempts; stored exactly when one succeeds, else dead-lettered or lost; a run of the queue's steps |
| `DbWriter.Pipeline.RunWriter` | src/workers/db_writer.rs:79-150 | the consumer loop is a run of the queue's steps and leaves no message half-written |
| `DbWriter.Pipeline.ReplayDlq` | src/queue.rs:41-58 | moves up to `limit` entries in order; an error stops at one entry, which is lost unless it was never popped |
| `TypeArgs.ParseTopLevelGenericArgs` | src/collectors/tick_fetch.rs:88-129 | the scan with its early exit computes the specified parse |
| `TypeArgs.RoundTrip` | src/collectors/tick_fetch.rs:88-129 | printing well-formed arguments with any white space around them and parsing gives them back, at any nesting depth, or counts how many there were |
| `TypeArgs.ParsedAreWellFormed` | src/collectors/tick_fetch.rs:88-129 | every argument of every accepted text is trimmed, non-empty and balanced |

## Left out

- IEEE arithmetic: `f64` is `real`, so rounding, infinities and NaN are not modelled; pools are assumed to have a positive sqrt price and a fee of at most the whole input, where no infinity arises.
- Dijkstra.FindShortestPathDijkstra: what a search does once a cost has reached 2^64 (a release build wraps, a checked build panics); whether that happens is stated. Bellman-Ford wraps as a release build does; a checked build panics at the first sum that wraps.
- BellmanFord.FindShortestPathBellmanFord: nothing is claimed about the returned path or the flag when a sum wraps, nor about the path for fees of 2^63 and above; whether a sum wraps may depend on the order in which a hash set yields its tokens, so between the sufficient and the necessary condition nothing is claimed for a single graph.
- The order of hash-map iteration and of equal heap entries: the methods choose arbitrarily, and their contracts hold for every choice.
- The tick price `1.0001^(tick/2)` is any positive, strictly increasing function.
- The marginal price of a tick-aware swap is computed but not claimed to be the derivative of the output, nor the within-tick marginal: it comes from the final price and the last step.
- GasPruning.RemovalShrinks: pruning removes the first active route that shares the chosen route's first pool, not always the chosen one; only that one route goes is claimed.
- GasPruning.OptimizeOrderSplit: gas cost is a constant per hop and the simulator any function; the price of SUI in the target token is not computed, and a route without hops, which the source would index out of bounds, counts as having the empty pool id.
- RouteSearch.FindBestRoute: asking for a route from a token to itself below the threshold yields one route without hops.
- Slippage: the root behind the compound per-hop budget is a parameter bounded by the scale; `compound_retain_bps` itself is not modelled.
- Names are compared with lower-casing of ASCII letters only.
- The Move code of the DEXes: a function has the resource signature the builders assume, with one constructor per package, module and function name; coin values are not tracked, so a balance is only known to be funded or empty.
- PlanTransactions.PlanTransaction: the linear reading assumes pools as on chain, distinct input coins of the input type, and few enough commands for 16-bit indices; above that bound `as u16` wraps, which the method does but the claim excludes.
- BuildTransactions.BuildTx: linearity and the second stage are claimed for at most 3640 splits and distinct coin ids; nothing is claimed about executing a request that swaps a mistaken token for itself.
- SplitQuality.GrossNearlyOptimal: for routes whose output for the whole order fits 128 bits; the slack contains the unallocated part of the order at the final target, which the bisection does not bound when a marginal is flat around it.
- The external transaction builder: a log of calls whose results are a command index and a part; gas payment, sender, budget, the final build, BCS encoding, digests and the parsers of addresses, digests and type tags are outside, the parsers as parameters. Balance checks of the gas and input coins are not modelled.
- Metrics, logging, sleeping and scan statistics.
- DiscoveryCoverage.AlwaysSound: for a DEX not called "unknown", a listing that does not change, a server that lists what follows the cursor, hydration that stores the pool asked for, and event ids that do not start with `object:`.
- ScanProgress.RunsReachTheEnd: besides that, the server rejects no cursor and its end cursors lead forward, and the first page of every run is committed.
- EventCoverage.EventsAlwaysSound: for a DEX not called "unknown", events with distinct ids in a listing that does not change, hydration that stores the event's pool and resolves at most its own failure, and other scans of the DEX that resolve none of these events. The checkpoint filter is only sent once the backfill is complete, and may then leave out anything.
- WriteQueue: storing a message succeeds or fails as a whole, and a Redis call that fails has not taken effect; a crash loses what is being written or replayed.
- Network, database, Redis, ClickHouse, HTTP and WebSocket plumbing, the collectors' JSON parsing, the registry's constants, and the request handlers' error texts.
- `div_floor`, `aligned_ticks_in_window` and the raw integer decoders, which feed the tick data but take no part in searching, swapping or planning.

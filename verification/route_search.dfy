/** How the three searches relate, and the dispatch between them (src/router.rs, `find_best_route`). */
module RouteSearch {
  import opened Models
  import opened TokenGraphs
  import opened Walks
  import Dijkstra
  import BellmanFord
  import PathEnumeration

  /** Dijkstra pays a penalty per hop, Bellman-Ford does not: the former never takes more hops, the
      latter never pays more fees, and the fees Dijkstra overpays are at most 100 per hop it saves. */
  lemma DijkstraAgainstBellmanFord(
    adj: Adjacency, from: Token, to: Token, d: seq<SwapHop>, b: seq<SwapHop>)
    requires IsCheapest(adj, from, to, d, Dijkstra.HOP_PENALTY)
    requires IsCheapest(adj, from, to, b, 0)
    ensures |d| <= |b|
    ensures Cost(b, 0) <= Cost(d, 0) <= Cost(b, 0) + Dijkstra.HOP_PENALTY * (|b| - |d|)
  {
    CostPenalty(d, Dijkstra.HOP_PENALTY);
    CostPenalty(b, Dijkstra.HOP_PENALTY);
  }

  /** When it fits the hop limit, Dijkstra's path is one of the enumerated ones and none of those is cheaper. */
  lemma DijkstraAmongEnumerated(
    adj: Adjacency, from: Token, to: Token, maxHops: nat, d: seq<SwapHop>, paths: seq<RoutePath>)
    requires from != to
    requires IsCheapest(adj, from, to, d, Dijkstra.HOP_PENALTY) && |d| <= maxHops
    requires forall p :: RoutePath(p) in paths <==> PathEnumeration.IsSimplePath(adj, from, to, maxHops, p)
    ensures RoutePath(d) in paths
    ensures forall r :: r in paths ==> Cost(d, Dijkstra.HOP_PENALTY) <= Cost(r.hops, Dijkstra.HOP_PENALTY)
  {
    CheapestIsSimple(adj, from, to, d, Dijkstra.HOP_PENALTY);
    forall r | r in paths
      ensures Cost(d, Dijkstra.HOP_PENALTY) <= Cost(r.hops, Dijkstra.HOP_PENALTY)
    {
      assert RoutePath(r.hops) == r;
    }
  }

  /** With V-1 hops allowed the enumeration is non-empty exactly when the target is reachable. */
  lemma EnumerationFindsReachable(adj: Adjacency, from: Token, to: Token, maxHops: nat, paths: seq<RoutePath>)
    requires from != to && |Vertices(adj)| - 1 <= maxHops
    requires forall p :: RoutePath(p) in paths <==> PathEnumeration.IsSimplePath(adj, from, to, maxHops, p)
    ensures paths != [] <==> Reachable(adj, from, to)
  {
    if paths != [] {
      assert RoutePath(paths[0].hops) in paths;
    }
    if Reachable(adj, from, to) {
      var w :| IsWalkTo(adj, from, to, w);
      var s := Simplify(adj, from, w, 0);
      SimpleIsShort(adj, from, s);
      assert PathEnumeration.IsSimplePath(adj, from, to, maxHops, s);
    }
  }

  datatype RouteConfig = RouteConfig(smallAmountThreshold: nat, maxHops: nat)

  /** A route offered for a swap: a simple walk, with at least one hop unless the two tokens agree. */
  ghost predicate IsRoute(adj: Adjacency, from: Token, to: Token, r: RoutePath) {
    IsWalkTo(adj, from, to, r.hops) && Simple(from, r.hops) && (from == to <==> r.hops == [])
  }

  /** `wrapped` tells whether a cost of the single search reached 2^64. */
  method FindBestRoute(graph: TokenGraph, from: Token, to: Token, amount: nat, config: RouteConfig)
    returns (routes: seq<RoutePath>, ghost wrapped: bool)
    ensures amount > config.smallAmountThreshold || Dijkstra.NearSumsFit(graph.adjacency, from, to, 0) ==> !wrapped
    ensures forall r :: r in routes ==> IsRoute(graph.adjacency, from, to, r)
    ensures amount <= config.smallAmountThreshold ==>
      (routes != [] <==> Reachable(graph.adjacency, from, to))
      && |routes| <= 1
      && forall r :: r in routes ==> IsCheapest(graph.adjacency, from, to, r.hops, Dijkstra.HOP_PENALTY)
    ensures amount > config.smallAmountThreshold ==>
      forall p :: RoutePath(p) in routes <==>
        PathEnumeration.IsSimplePath(graph.adjacency, from, to, config.maxHops, p)
  {
    wrapped := false;
    if amount <= config.smallAmountThreshold {
      var path;
      path, wrapped := Dijkstra.FindShortestPathDijkstra(graph.adjacency, from, to);
      match path {
        case Some(r) =>
          SimpleEnds(from, r.hops);
          routes := [r];
        case None =>
          routes := [];
      }
    } else {
      routes := PathEnumeration.FindAllPathsDfs(graph.adjacency, from, to, config.maxHops);
      forall r | r in routes
        ensures IsRoute(graph.adjacency, from, to, r)
      {
        assert RoutePath(r.hops) in routes;
        SimpleEnds(from, r.hops);
      }
    }
  }

  lemma SimpleEnds(from: Token, hops: seq<SwapHop>)
    requires Simple(from, hops)
    ensures End(from, hops) == from <==> hops == []
  {
    if hops != [] {
      assert TokenAt(from, hops, 0) != TokenAt(from, hops, |hops|);
    }
  }

  /** `pools.into_iter().map(|p| (p.pool_id, p)).collect()`: later pools replace earlier ones of the same id. */
  function PoolsMap(pools: seq<PoolState>): map<string, PoolState> {
    if pools == [] then map[]
    else PoolsMap(pools[..|pools| - 1])[pools[|pools| - 1].poolId := pools[|pools| - 1]]
  }

  lemma {:induction false} PoolsMapFinds(pools: seq<PoolState>, i: nat)
    requires DistinctPoolIds(pools) && i < |pools|
    ensures pools[i].poolId in PoolsMap(pools) && PoolsMap(pools)[pools[i].poolId] == pools[i]
  {
    if i < |pools| - 1 {
      PoolsMapFinds(pools[..|pools| - 1], i);
    }
  }

  /** Hop `i` of the route swaps along the pool its id names, in one of the pool's directions. */
  ghost predicate HopBacked(poolsMap: map<string, PoolState>, hop: SwapHop) {
    hop.poolId in poolsMap && !poolsMap[hop.poolId].isPaused && HopUsesPool(hop, poolsMap[hop.poolId])
  }

  /** On pools with distinct ids every hop of every route is backed by the unpaused pool it names. */
  lemma RouteIsBacked(adj: Adjacency, pools: seq<PoolState>, from: Token, hops: seq<SwapHop>, i: nat)
    requires IsGraphOf(adj, pools) && DistinctPoolIds(pools)
    requires IsWalk(adj, from, hops) && i < |hops|
    ensures HopBacked(PoolsMap(pools), hops[i])
    ensures hops[i].inputToken == TokenAt(from, hops, i) && hops[i].outputToken == TokenAt(from, hops, i + 1)
  {
    assert Follows(adj, from, hops, i);
    ArcsAreUnpausedPools(adj, pools, hops[i]);
    var k :| 0 <= k < |pools| && !pools[k].isPaused && HopUsesPool(hops[i], pools[k]);
    PoolsMapFinds(pools, k);
  }
}

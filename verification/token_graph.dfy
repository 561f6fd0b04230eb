/** The token graph and how it is built from pools (src/router.rs, `TokenGraph`). */
module TokenGraphs {
  import opened Models

  type Arc = (Token, Edge)
  type Adjacency = map<Token, seq<Arc>>

  /** The adjacency list of `u`; a token without an entry has no outgoing arcs. */
  function Outgoing(adj: Adjacency, u: Token): seq<Arc> {
    if u in adj then adj[u] else []
  }

  /** The hop that traverses `arc` out of `u`. */
  function HopOf(u: Token, arc: Arc): SwapHop {
    SwapHop(arc.1.poolId, arc.1.dexName, u, arc.0, arc.1.feeRate)
  }

  /** `hop` follows an arc of the graph. */
  predicate IsArc(adj: Adjacency, hop: SwapHop) {
    (hop.outputToken, Edge(hop.poolId, hop.dexName, hop.feeRate)) in Outgoing(adj, hop.inputToken)
  }

  /** Every token that is the source or the target of some arc. */
  ghost function Vertices(adj: Adjacency): set<Token> {
    adj.Keys + set u, i | u in adj && 0 <= i < |adj[u]| :: adj[u][i].0
  }

  function EdgeOf(pool: PoolState): Edge {
    Edge(pool.poolId, pool.dexName, pool.feeRate)
  }

  /** What one pool adds to the adjacency list of `u`: nothing when it is paused, both
      directions when its two coins are the same token `u`. */
  function ArcsOfPool(pool: PoolState, u: Token): seq<Arc> {
    if pool.isPaused then []
    else (if pool.coinTypeA == u then [(pool.coinTypeB, EdgeOf(pool))] else [])
         + (if pool.coinTypeB == u then [(pool.coinTypeA, EdgeOf(pool))] else [])
  }

  /** The adjacency list of one token, read off the pool list directly. */
  function ArcsFrom(pools: seq<PoolState>, u: Token): seq<Arc> {
    if pools == [] then []
    else ArcsFrom(pools[..|pools| - 1], u) + ArcsOfPool(pools[|pools| - 1], u)
  }

  /** The graph of a pool list, one token at a time. */
  ghost predicate IsGraphOf(adj: Adjacency, pools: seq<PoolState>) {
    forall u :: (u in adj <==> ArcsFrom(pools, u) != []) && Outgoing(adj, u) == ArcsFrom(pools, u)
  }

  class TokenGraph {
    var adjacency: Adjacency

    constructor ()
      ensures adjacency == map[]
    {
      adjacency := map[];
    }

    /** `entry(u).or_default().push(arc)` */
    method PushArc(u: Token, arc: Arc)
      modifies this
      ensures adjacency.Keys == old(adjacency.Keys) + {u}
      ensures Outgoing(adjacency, u) == Outgoing(old(adjacency), u) + [arc]
      ensures forall v :: v != u ==> Outgoing(adjacency, v) == Outgoing(old(adjacency), v)
    {
      adjacency := adjacency[u := Outgoing(adjacency, u) + [arc]];
    }

    /** Both arcs of one unpaused pool. */
    method AddPool(pool: PoolState)
      modifies this
      ensures forall u :: Outgoing(adjacency, u) == Outgoing(old(adjacency), u) + ArcsOfPool(pool, u)
      ensures forall u :: u in adjacency <==> u in old(adjacency) || ArcsOfPool(pool, u) != []
    {
      if !pool.isPaused {
        PushArc(pool.coinTypeA, (pool.coinTypeB, EdgeOf(pool)));
        PushArc(pool.coinTypeB, (pool.coinTypeA, EdgeOf(pool)));
      }
    }

    method BuildFromPools(pools: seq<PoolState>)
      modifies this
      ensures IsGraphOf(adjacency, pools)
    {
      adjacency := map[];
      for i := 0 to |pools|
        invariant IsGraphOf(adjacency, pools[..i])
      {
        ghost var before := adjacency;
        AddPool(pools[i]);
        forall u
          ensures (u in adjacency <==> ArcsFrom(pools[..i + 1], u) != [])
                  && Outgoing(adjacency, u) == ArcsFrom(pools[..i + 1], u)
        {
          ArcsFromLast(pools, i, u);
          assert Outgoing(before, u) == ArcsFrom(pools[..i], u);
        }
      }
      assert pools[..|pools|] == pools;
    }
  }

  lemma ArcsFromLast(pools: seq<PoolState>, i: nat, u: Token)
    requires i < |pools|
    ensures ArcsFrom(pools[..i + 1], u) == ArcsFrom(pools[..i], u) + ArcsOfPool(pools[i], u)
  {
    assert pools[..i + 1][..i] == pools[..i];
  }

  /** `hop` swaps along `pool`, in one of its two directions. */
  predicate HopUsesPool(hop: SwapHop, pool: PoolState) {
    && hop.poolId == pool.poolId
    && hop.dexName == pool.dexName
    && hop.feeRate == pool.feeRate
    && ((hop.inputToken == pool.coinTypeA && hop.outputToken == pool.coinTypeB)
        || (hop.inputToken == pool.coinTypeB && hop.outputToken == pool.coinTypeA))
  }

  lemma ArcsOfPoolMembers(pool: PoolState, hop: SwapHop)
    ensures (hop.outputToken, Edge(hop.poolId, hop.dexName, hop.feeRate)) in ArcsOfPool(pool, hop.inputToken)
            <==> !pool.isPaused && HopUsesPool(hop, pool)
  {
  }

  lemma BackedByLast(pools: seq<PoolState>, hop: SwapHop)
    requires pools != []
    ensures var front, last := pools[..|pools| - 1], pools[|pools| - 1];
      (exists i :: 0 <= i < |pools| && !pools[i].isPaused && HopUsesPool(hop, pools[i]))
      <==> (exists i :: 0 <= i < |front| && !front[i].isPaused && HopUsesPool(hop, front[i]))
           || (!last.isPaused && HopUsesPool(hop, last))
  {
    var front := pools[..|pools| - 1];
    assert forall i :: 0 <= i < |front| ==> front[i] == pools[i];
  }

  lemma {:induction false} ArcsFromMembers(pools: seq<PoolState>, hop: SwapHop)
    ensures (hop.outputToken, Edge(hop.poolId, hop.dexName, hop.feeRate)) in ArcsFrom(pools, hop.inputToken)
            <==> exists i :: 0 <= i < |pools| && !pools[i].isPaused && HopUsesPool(hop, pools[i])
  {
    if pools != [] {
      ArcsFromMembers(pools[..|pools| - 1], hop);
      ArcsOfPoolMembers(pools[|pools| - 1], hop);
      BackedByLast(pools, hop);
    }
  }

  /** The arcs of a built graph are exactly the two directions of its unpaused pools. */
  lemma ArcsAreUnpausedPools(adj: Adjacency, pools: seq<PoolState>, hop: SwapHop)
    requires IsGraphOf(adj, pools)
    ensures IsArc(adj, hop)
            <==> exists i :: 0 <= i < |pools| && !pools[i].isPaused && HopUsesPool(hop, pools[i])
  {
    ArcsFromMembers(pools, hop);
  }

  predicate DistinctPoolIds(pools: seq<PoolState>) {
    forall i, j :: 0 <= i < j < |pools| ==> pools[i].poolId != pools[j].poolId
  }

  /** No arc is listed twice, except self-loops (a pool whose two coins agree lists its loop twice). */
  predicate NoParallelCopies(adj: Adjacency) {
    forall u, i, j :: u in adj && 0 <= i < j < |adj[u]| ==> adj[u][i] != adj[u][j] || adj[u][i].0 == u
  }

  ghost predicate HasPoolId(pools: seq<PoolState>, id: string) {
    exists k :: 0 <= k < |pools| && pools[k].poolId == id
  }

  /** `arcs` come from `pools` and repeat nothing but self-loops of `u`. */
  ghost predicate CopyFree(pools: seq<PoolState>, u: Token, arcs: seq<Arc>) {
    && (forall i :: 0 <= i < |arcs| ==> HasPoolId(pools, arcs[i].1.poolId))
    && (forall i, j :: 0 <= i < j < |arcs| ==> arcs[i] != arcs[j] || arcs[i].0 == u)
  }

  lemma CopyFreeAppend(pools: seq<PoolState>, u: Token, front: seq<Arc>)
    requires DistinctPoolIds(pools) && pools != []
    requires CopyFree(pools[..|pools| - 1], u, front)
    ensures CopyFree(pools, u, front + ArcsOfPool(pools[|pools| - 1], u))
  {
    var init, last := pools[..|pools| - 1], pools[|pools| - 1];
    var back := ArcsOfPool(last, u);
    var arcs := front + back;
    assert forall id :: HasPoolId(init, id) ==> HasPoolId(pools, id) && id != last.poolId;
    assert HasPoolId(pools, last.poolId);
    forall i | 0 <= i < |arcs|
      ensures HasPoolId(pools, arcs[i].1.poolId)
      ensures i < |front| <==> arcs[i].1.poolId != last.poolId
    {
      assert arcs[i] == if i < |front| then front[i] else back[i - |front|];
    }
  }

  lemma {:induction false} DistinctIdsNoCopies(pools: seq<PoolState>, u: Token)
    requires DistinctPoolIds(pools)
    ensures CopyFree(pools, u, ArcsFrom(pools, u))
  {
    if pools != [] {
      DistinctIdsNoCopies(pools[..|pools| - 1], u);
      CopyFreeAppend(pools, u, ArcsFrom(pools[..|pools| - 1], u));
    }
  }

  /** Distinct pool ids keep every adjacency list free of copies. */
  lemma BuiltGraphHasNoCopies(adj: Adjacency, pools: seq<PoolState>)
    requires IsGraphOf(adj, pools) && DistinctPoolIds(pools)
    ensures NoParallelCopies(adj)
  {
    forall u, i, j | u in adj && 0 <= i < j < |adj[u]|
      ensures adj[u][i] != adj[u][j] || adj[u][i].0 == u
    {
      assert adj[u] == Outgoing(adj, u) == ArcsFrom(pools, u);
      DistinctIdsNoCopies(pools, u);
    }
  }
}

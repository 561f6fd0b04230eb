/** Lazy-deletion Dijkstra over `fee_rate + 100` (src/router.rs, `find_shortest_path_dijkstra`). */
module Dijkstra {
  import opened Models
  import opened TokenGraphs
  import opened Walks

  /** What every hop costs on top of its fee. */
  const HOP_PENALTY: nat := 100

  datatype DijkstraNode = DijkstraNode(token: Token, cost: nat)

  type Distances = map<Token, nat>
  type Parents = map<Token, (Token, Edge)>

  /** The local variables of the search. The binary heap is a set: every pushed entry is cheaper than
      all earlier ones for its token (`OfferHeap`), so no entry is ever queued twice. */
  datatype Search = Search(dists: Distances, parent: Parents, heap: set<DijkstraNode>)

  /** The last hop of the best known path to `t`. */
  function ParentHop(parent: Parents, t: Token): SwapHop
    requires t in parent
  {
    HopOf(parent[t].0, (t, parent[t].1))
  }

  /** Offer the popped node's cost to the target of one of its arcs. */
  function Offer(s: Search, node: DijkstraNode, arc: Arc): Search {
    var weight := arc.1.feeRate + HOP_PENALTY;
    var nextCost := node.cost + weight;
    if arc.0 !in s.dists || nextCost < s.dists[arc.0] then
      Search(s.dists[arc.0 := nextCost],
             s.parent[arc.0 := (node.token, arc.1)],
             s.heap + {DijkstraNode(arc.0, nextCost)})
    else s
  }

  /** `heap.pop()`: an entry of least cost; ties are broken arbitrarily. */
  method PopMin(heap: set<DijkstraNode>) returns (node: DijkstraNode)
    requires heap != {}
    ensures node in heap && forall n :: n in heap ==> node.cost <= n.cost
  {
    node :| node in heap;
    var todo := heap;
    while todo != {}
      invariant todo <= heap && node in heap
      invariant forall n :: n in heap - todo ==> node.cost <= n.cost
    {
      var n :| n in todo;
      if n.cost < node.cost {
        node := n;
      }
      todo := todo - {n};
    }
  }

  /** Costs are unsigned 64-bit numbers in the source. */
  const WORD: nat := 0x1_0000_0000_0000_0000

  /** As long as no sum reaches 2^64, the path is simple and cheapest. `wrapped` tells whether one did; up to equal
      costs it is decided by the cheapest costs of the tokens nearer than `to`. */
  method FindShortestPathDijkstra(adj: Adjacency, from: Token, to: Token)
    returns (r: Option<RoutePath>, ghost wrapped: bool)
    ensures r.None? <==> !Reachable(adj, from, to)
    ensures r.Some? ==> IsCheapest(adj, from, to, r.value.hops, HOP_PENALTY)
    ensures r.Some? ==> Simple(from, r.value.hops)
    ensures NearSumsFit(adj, from, to, 0) ==> !wrapped
    ensures !wrapped ==> NearSumsFit(adj, from, to, 1)
  {
    var s := Search(map[from := 0], map[], {DijkstraNode(from, 0)});
    ghost var settled: set<Token> := {};
    wrapped := false;
    ghost var near := NearSumsFit(adj, from, to, 0);
    StartSearching(adj, from, to);
    while s.heap != {}
      invariant Searching(adj, from, to, s, settled)
      invariant Counted(adj, s.dists, settled, near, wrapped)
      decreases |Vertices(adj) + {from}| - |settled|, |s.heap|
    {
      var node := PopMin(s.heap);
      var rest := s.heap - {node};
      if node.token == to {
        var hops := Arrive(adj, from, to, s, settled, node);
        return Some(RoutePath(hops)), wrapped;
      }
      if node.cost > s.dists[node.token] {
        PopStale(adj, from, to, s, settled, node);
        s := s.(heap := rest);
        continue;
      }
      s, wrapped := Expand(adj, from, to, s, settled, node, near, wrapped);
      settled := settled + {node.token};
    }
    ExhaustedInRange(adj, from, to, s, settled);
    return None, wrapped;
  }

  /** The target is popped: its parent chain is the route. */
  method Arrive(
    adj: Adjacency, from: Token, to: Token, s: Search, ghost settled: set<Token>, node: DijkstraNode)
    returns (hops: seq<SwapHop>)
    requires Searching(adj, from, to, s, settled) && node in s.heap && node.token == to
    requires forall n :: n in s.heap ==> node.cost <= n.cost
    ensures IsCheapest(adj, from, to, hops, HOP_PENALTY) && Simple(from, hops)
    ensures SettledFit(adj, s.dists, settled) ==> NearSumsFit(adj, from, to, 1)
  {
    FoundInRange(adj, from, to, s, settled, node);
    hops := Reconstruct(adj, from, to, s, settled);
    CheapestIsSimple(adj, from, to, hops, HOP_PENALTY);
  }

  /** The popped entry is the best for its token: offer its cost along all edges. */
  method Expand(
    adj: Adjacency, ghost from: Token, ghost to: Token, s0: Search, ghost settled: set<Token>, node: DijkstraNode,
    ghost near: bool, ghost wrapped0: bool)
    returns (s: Search, ghost wrapped: bool)
    requires Searching(adj, from, to, s0, settled) && Counted(adj, s0.dists, settled, near, wrapped0)
    requires near ==> NearSumsFit(adj, from, to, 0)
    requires node in s0.heap && node.token != to && node.cost <= s0.dists[node.token]
    requires forall n :: n in s0.heap ==> node.cost <= n.cost
    ensures Searching(adj, from, to, s, settled + {node.token})
    ensures Counted(adj, s.dists, settled + {node.token}, near, wrapped)
    ensures |settled| < |settled + {node.token}| <= |Vertices(adj) + {from}|
  {
    ExpandedFits(adj, from, to, s0, settled, node);
    StartExpanding(adj, from, to, s0, settled, node);
    s, wrapped := RelaxEdges(adj, from, s0.(heap := s0.heap - {node}), settled, node, wrapped0);
    StopExpanding(adj, from, to, s, settled, node);
    CountedNext(adj, s0.dists, s.dists, settled, node, near, wrapped0, wrapped);
  }

  /** The inner loop over the edges of the popped token. */
  method RelaxEdges(
    adj: Adjacency, ghost from: Token, s0: Search, ghost settled: set<Token>, node: DijkstraNode, ghost wrapped0: bool)
    returns (s: Search, ghost wrapped: bool)
    requires Expanding(adj, from, s0, settled, node, 0)
    ensures Expanding(adj, from, s, settled, node, |Outgoing(adj, node.token)|)
    ensures Unchanged(s0.dists, s.dists, settled)
    ensures wrapped <==> wrapped0 || !ArcsFit(adj, node.token, node.cost)
  {
    s, wrapped := s0, wrapped0;
    var edges := Outgoing(adj, node.token);
    for i := 0 to |edges|
      invariant Expanding(adj, from, s, settled, node, i)
      invariant Unchanged(s0.dists, s.dists, settled)
      invariant wrapped <==> wrapped0 || exists k :: 0 <= k < i && !OfferFits(node.cost, edges[k])
    {
      OfferKeeps(adj, from, s, settled, node, i);
      wrapped := wrapped || !OfferFits(node.cost, edges[i]);
      s := Offer(s, node, edges[i]);
    }
  }

  /** Follow the parents back from `to`, then reverse. */
  method Reconstruct(adj: Adjacency, from: Token, to: Token, s: Search, ghost settled: set<Token>)
    returns (path: seq<SwapHop>)
    requires to in s.dists && ParentsMatch(adj, from, s, settled)
    ensures IsWalkTo(adj, from, to, path)
    ensures Cost(path, HOP_PENALTY) == s.dists[to]
  {
    var hops := [];
    var curr := to;
    while curr in s.parent
      invariant curr in s.dists
      invariant IsWalkTo(adj, curr, to, Reverse(hops))
      invariant s.dists[curr] + Cost(Reverse(hops), HOP_PENALTY) == s.dists[to]
      decreases s.dists[curr]
    {
      assert ParentLink(adj, s, settled, curr);
      var hop := ParentHop(s.parent, curr);
      ReverseSnoc(hops, hop);
      WalkCons(adj, hop, Reverse(hops), HOP_PENALTY);
      hops := hops + [hop];
      curr := s.parent[curr].0;
    }
    path := Reverse(hops);
  }

  // ----- sums below 2^64

  /** The cost offered along `arc` is below 2^64. */
  predicate OfferFits(cost: nat, arc: Arc) {
    cost + (arc.1.feeRate + HOP_PENALTY) < WORD
  }

  predicate ArcsFit(adj: Adjacency, u: Token, cost: nat) {
    forall i :: 0 <= i < |Outgoing(adj, u)| ==> OfferFits(cost, Outgoing(adj, u)[i])
  }

  ghost predicate Unchanged(before: Distances, after: Distances, settled: set<Token>) {
    forall u :: u in settled && u in before ==> u in after && after[u] == before[u]
  }

  /** No walk to `to` costs less than `c`. */
  ghost predicate NotBefore(adj: Adjacency, from: Token, to: Token, c: nat) {
    forall w :: IsWalkTo(adj, from, to, w) ==> c <= Cost(w, HOP_PENALTY)
  }

  /** The arcs fit out of every token other than `to` that is nearer than `to` by at least `gap`. */
  ghost predicate NearSumsFit(adj: Adjacency, from: Token, to: Token, gap: nat) {
    forall u, w | u != to && IsCheapest(adj, from, u, w, HOP_PENALTY)
      && NotBefore(adj, from, to, Cost(w, HOP_PENALTY) + gap)
      :: ArcsFit(adj, u, Cost(w, HOP_PENALTY))
  }

  ghost predicate SettledFit(adj: Adjacency, dists: Distances, settled: set<Token>) {
    forall u :: u in settled ==> u in dists && ArcsFit(adj, u, dists[u])
  }

  /** No sum has wrapped out of the settled tokens, and none does if the near ones fit. */
  ghost predicate Counted(adj: Adjacency, dists: Distances, settled: set<Token>, near: bool, wrapped: bool) {
    (wrapped || SettledFit(adj, dists, settled)) && (near ==> !wrapped)
  }

  lemma CountedNext(
    adj: Adjacency, before: Distances, after: Distances, settled: set<Token>,
    node: DijkstraNode, near: bool, wrappedBefore: bool, wrapped: bool)
    requires Counted(adj, before, settled, near, wrappedBefore) && Unchanged(before, after, settled)
    requires node.token in after && after[node.token] == node.cost
    requires wrapped <==> wrappedBefore || !ArcsFit(adj, node.token, node.cost)
    requires near ==> ArcsFit(adj, node.token, node.cost)
    ensures Counted(adj, after, settled + {node.token}, near, wrapped)
  {
  }

  /** Best known costs are those of walks. */
  lemma {:induction false} ParentWalk(adj: Adjacency, from: Token, s: Search, settled: set<Token>, t: Token)
    returns (w: seq<SwapHop>)
    requires ParentsMatch(adj, from, s, settled) && t in s.dists
    ensures IsWalkTo(adj, from, t, w) && Cost(w, HOP_PENALTY) == s.dists[t]
    decreases s.dists[t]
  {
    if t in s.parent {
      assert ParentLink(adj, s, settled, t);
      var hop := ParentHop(s.parent, t);
      var front := ParentWalk(adj, from, s, settled, s.parent[t].0);
      assert Follows(adj, hop.inputToken, [hop], 0);
      WalkConcat(adj, from, front, [hop]);
      w := front + [hop];
      assert w[..|w| - 1] == front;
    } else {
      w := [];
    }
  }

  /** A token is expanded at its cheapest cost and not after `to`. */
  lemma ExpandedFits(adj: Adjacency, from: Token, to: Token, s: Search, settled: set<Token>, node: DijkstraNode)
    requires Searching(adj, from, to, s, settled)
    requires node in s.heap && node.token != to && node.cost <= s.dists[node.token]
    requires forall n :: n in s.heap ==> node.cost <= n.cost
    ensures NearSumsFit(adj, from, to, 0) ==> ArcsFit(adj, node.token, node.cost)
  {
    var u := node.token;
    var w := ParentWalk(adj, from, s, settled, u);
    forall v, x | (x == u || x == to) && IsWalkTo(adj, from, x, v)
      ensures node.cost <= Cost(v, HOP_PENALTY)
    {
      RimBound(adj, from, to, s, settled, node, v);
    }
    assert NotBefore(adj, from, to, Cost(w, HOP_PENALTY) + 0);
  }

  /** Walks that end in a token not yet settled cost at least the least queued cost; others the settled one. */
  lemma RimBound(
    adj: Adjacency, from: Token, to: Token, s: Search, settled: set<Token>, node: DijkstraNode, w: seq<SwapHop>)
    requires Searching(adj, from, to, s, settled) && IsWalk(adj, from, w)
    requires node in s.heap && forall n :: n in s.heap ==> node.cost <= n.cost
    ensures var x := End(from, w);
      if x in settled then s.dists[x] <= Cost(w, HOP_PENALTY) else node.cost <= Cost(w, HOP_PENALTY)
  {
    forall u | u in s.dists && u !in settled
      ensures node.cost <= s.dists[u]
    {
      assert DijkstraNode(u, s.dists[u]) in s.heap;
    }
    forall u, k | u in settled && 0 <= k < |Outgoing(adj, u)|
      ensures var arc := Outgoing(adj, u)[k];
        arc.0 in s.dists && s.dists[arc.0] <= s.dists[u] + arc.1.feeRate + HOP_PENALTY
    {
      assert ArcsDone(adj, s.dists, u, |Outgoing(adj, u)|);
    }
    WalkLowerBound(adj, from, w, HOP_PENALTY, s.dists, settled, node.cost);
  }

  /** A settled token's cost is at most that of a walk to it, and a cheapest walk costs no more. */
  lemma SettledCheapest(adj: Adjacency, from: Token, s: Search, settled: set<Token>, u: Token, w: seq<SwapHop>)
    requires ParentsMatch(adj, from, s, settled) && u in s.dists
    requires IsCheapest(adj, from, u, w, HOP_PENALTY) && s.dists[u] <= Cost(w, HOP_PENALTY)
    ensures s.dists[u] == Cost(w, HOP_PENALTY)
  {
    var v := ParentWalk(adj, from, s, settled, u);
  }

  /** When the target is popped, every token nearer than it has been expanded. */
  lemma FoundInRange(adj: Adjacency, from: Token, to: Token, s: Search, settled: set<Token>, node: DijkstraNode)
    requires Searching(adj, from, to, s, settled)
    requires node in s.heap && node.token == to
    requires forall n :: n in s.heap ==> node.cost <= n.cost
    ensures s.dists[to] == node.cost
    ensures forall w :: IsWalkTo(adj, from, to, w) ==> node.cost <= Cost(w, HOP_PENALTY)
    ensures SettledFit(adj, s.dists, settled) ==> NearSumsFit(adj, from, to, 1)
  {
    PoppedIsOptimal(adj, from, to, s, settled, node);
    if SettledFit(adj, s.dists, settled) {
      var v := ParentWalk(adj, from, s, settled, to);
      forall u, w | u != to && IsCheapest(adj, from, u, w, HOP_PENALTY)
        && NotBefore(adj, from, to, Cost(w, HOP_PENALTY) + 1)
        ensures ArcsFit(adj, u, Cost(w, HOP_PENALTY))
      {
        RimBound(adj, from, to, s, settled, node, w);
        SettledCheapest(adj, from, s, settled, u, w);
      }
    }
  }

  /** When the queue runs dry, every reachable token has been expanded. */
  lemma ExhaustedInRange(adj: Adjacency, from: Token, to: Token, s: Search, settled: set<Token>)
    requires Searching(adj, from, to, s, settled) && s.heap == {}
    ensures !Reachable(adj, from, to)
    ensures SettledFit(adj, s.dists, settled) ==> NearSumsFit(adj, from, to, 1)
  {
    Exhausted(adj, from, to, s, settled);
    AllSettled(s, settled);
    if SettledFit(adj, s.dists, settled) {
      forall u, w | u != to && IsCheapest(adj, from, u, w, HOP_PENALTY)
        ensures ArcsFit(adj, u, Cost(w, HOP_PENALTY))
      {
        StaysSettled(adj, from, s.dists, settled, w);
        DryBound(adj, from, to, s, settled, w);
        SettledCheapest(adj, from, s, settled, u, w);
      }
    }
  }

  lemma DryBound(adj: Adjacency, from: Token, to: Token, s: Search, settled: set<Token>, w: seq<SwapHop>)
    requires Searching(adj, from, to, s, settled) && s.heap == {}
    requires IsWalk(adj, from, w) && s.dists.Keys <= settled
    ensures End(from, w) in settled ==> s.dists[End(from, w)] <= Cost(w, HOP_PENALTY)
  {
    var rim := MaxDist(s.dists);
    forall u, k | u in settled && 0 <= k < |Outgoing(adj, u)|
      ensures var arc := Outgoing(adj, u)[k];
        arc.0 in s.dists && s.dists[arc.0] <= s.dists[u] + arc.1.feeRate + HOP_PENALTY
    {
      assert ArcsDone(adj, s.dists, u, |Outgoing(adj, u)|);
    }
    WalkLowerBound(adj, from, w, HOP_PENALTY, s.dists, settled, rim);
  }

  lemma MaxDist(dists: Distances) returns (m: nat)
    ensures forall u :: u in dists ==> dists[u] <= m
  {
    m := 0;
    var todo := dists.Keys;
    while todo != {}
      invariant forall u :: u in dists.Keys - todo ==> dists[u] <= m
    {
      var u :| u in todo;
      m := if dists[u] > m then dists[u] else m;
      todo := todo - {u};
    }
  }

  lemma AllSettled(s: Search, settled: set<Token>)
    requires HeapMatches(s, settled) && s.heap == {}
    ensures s.dists.Keys <= settled
  {
    forall t | t in s.dists
      ensures t in settled
    {
      assert DijkstraNode(t, s.dists[t]) !in s.heap;
    }
  }

  // ----- the invariant of the search

  /** Every queued cost is at least the best known one; the best known cost of a token is queued
      exactly once until the token is settled, and never afterwards. */
  ghost predicate HeapMatches(s: Search, settled: set<Token>) {
    && (forall n :: n in s.heap ==> n.token in s.dists && s.dists[n.token] <= n.cost)
    && (forall t :: t in s.dists ==> (DijkstraNode(t, s.dists[t]) in s.heap <==> t !in settled))
  }

  /** The parent chain realises the best known costs, through settled tokens only. */
  ghost predicate ParentsMatch(adj: Adjacency, from: Token, s: Search, settled: set<Token>) {
    && from in s.dists && s.dists[from] == 0
    && s.parent.Keys == s.dists.Keys - {from}
    && forall t {:trigger ParentLink(adj, s, settled, t)} :: t in s.parent ==> ParentLink(adj, s, settled, t)
  }

  ghost predicate ParentLink(adj: Adjacency, s: Search, settled: set<Token>, t: Token)
    requires t in s.parent
  {
    var (p, edge) := s.parent[t];
    && t in s.dists && p in settled && p in s.dists
    && IsArc(adj, ParentHop(s.parent, t))
    && s.dists[t] == s.dists[p] + edge.feeRate + HOP_PENALTY
  }

  /** Arc `arc` out of `u` can no longer improve anything. */
  ghost predicate ArcDone(dists: Distances, u: Token, arc: Arc) {
    u in dists && arc.0 in dists && dists[arc.0] <= dists[u] + arc.1.feeRate + HOP_PENALTY
  }

  /** The first `n` arcs out of `u` are done. */
  ghost predicate ArcsDone(adj: Adjacency, dists: Distances, u: Token, n: nat)
    requires n <= |Outgoing(adj, u)|
  {
    forall k :: 0 <= k < n ==> ArcDone(dists, u, Outgoing(adj, u)[k])
  }

  ghost predicate Relaxed(adj: Adjacency, dists: Distances, settled: set<Token>) {
    forall u :: u in settled ==> ArcsDone(adj, dists, u, |Outgoing(adj, u)|)
  }

  /** `rim` separates the settled tokens from everything still queued. */
  ghost predicate Separated(s: Search, settled: set<Token>, rim: nat) {
    && (forall u :: u in settled ==> u in s.dists && s.dists[u] <= rim)
    && (forall n :: n in s.heap ==> rim <= n.cost)
  }

  /** What holds between two pops. */
  ghost predicate Searching(adj: Adjacency, from: Token, to: Token, s: Search, settled: set<Token>) {
    && HeapMatches(s, settled)
    && ParentsMatch(adj, from, s, settled)
    && Relaxed(adj, s.dists, settled)
    && (forall u, n :: u in settled && n in s.heap ==> u in s.dists && s.dists[u] <= n.cost)
    && settled <= s.dists.Keys
    && s.dists.Keys <= Vertices(adj) + {from}
    && to !in settled
  }

  /** What holds while the popped `node` is being expanded and its first `n` arcs are done. */
  ghost predicate Expanding(
    adj: Adjacency, from: Token, s: Search, settled: set<Token>, node: DijkstraNode, n: nat)
  {
    && node.token in s.dists && s.dists[node.token] == node.cost && node.token !in settled
    && HeapMatches(s, settled + {node.token})
    && ParentsMatch(adj, from, s, settled + {node.token})
    && Relaxed(adj, s.dists, settled)
    && n <= |Outgoing(adj, node.token)| && ArcsDone(adj, s.dists, node.token, n)
    && Separated(s, settled + {node.token}, node.cost)
    && s.dists.Keys <= Vertices(adj) + {from}
  }

  lemma StartSearching(adj: Adjacency, from: Token, to: Token)
    ensures Searching(adj, from, to, Search(map[from := 0], map[], {DijkstraNode(from, 0)}), {})
  {
  }

  lemma StopExpanding(adj: Adjacency, from: Token, to: Token, s: Search, settled: set<Token>, node: DijkstraNode)
    requires Expanding(adj, from, s, settled, node, |Outgoing(adj, node.token)|)
    requires to !in settled && to != node.token
    ensures Searching(adj, from, to, s, settled + {node.token})
  {
  }

  lemma OfferKeeps(adj: Adjacency, from: Token, s: Search, settled: set<Token>, node: DijkstraNode, i: nat)
    requires Expanding(adj, from, s, settled, node, i) && i < |Outgoing(adj, node.token)|
    ensures Expanding(adj, from, Offer(s, node, Outgoing(adj, node.token)[i]), settled, node, i + 1)
  {
    var arc := Outgoing(adj, node.token)[i];
    var c := node.cost + (arc.1.feeRate + HOP_PENALTY);
    if arc.0 !in s.dists || c < s.dists[arc.0] {
      var done := settled + {node.token};
      OfferHeap(s, done, node, arc);
      OfferParents(adj, from, s, done, node, arc);
      OfferArcs(adj, s.dists, settled, node.token, i, arc.0, c);
      ArcEnds(adj, HopOf(node.token, arc));
    }
  }

  lemma OfferHeap(s: Search, done: set<Token>, node: DijkstraNode, arc: Arc)
    requires HeapMatches(s, done) && Separated(s, done, node.cost)
    requires arc.0 !in s.dists || node.cost + (arc.1.feeRate + HOP_PENALTY) < s.dists[arc.0]
    ensures arc.0 !in done && DijkstraNode(arc.0, node.cost + (arc.1.feeRate + HOP_PENALTY)) !in s.heap
    ensures HeapMatches(Offer(s, node, arc), done) && Separated(Offer(s, node, arc), done, node.cost)
  {
    var s' := Offer(s, node, arc);
    var pushed := DijkstraNode(arc.0, node.cost + (arc.1.feeRate + HOP_PENALTY));
    assert pushed !in s.heap;
    forall t | t in s'.dists
      ensures DijkstraNode(t, s'.dists[t]) in s'.heap <==> t !in done
    {
      if t != arc.0 {
        assert DijkstraNode(t, s.dists[t]) != pushed;
      }
    }
  }

  lemma OfferParents(adj: Adjacency, from: Token, s: Search, done: set<Token>, node: DijkstraNode, arc: Arc)
    requires ParentsMatch(adj, from, s, done)
    requires node.token in done && node.token in s.dists && s.dists[node.token] == node.cost
    requires arc in Outgoing(adj, node.token) && arc.0 !in done
    requires arc.0 !in s.dists || node.cost + (arc.1.feeRate + HOP_PENALTY) < s.dists[arc.0]
    ensures ParentsMatch(adj, from, Offer(s, node, arc), done)
  {
    var s' := Offer(s, node, arc);
    forall t | t in s'.parent
      ensures ParentLink(adj, s', done, t)
    {
      if t == arc.0 {
        assert ParentHop(s'.parent, t) == HopOf(node.token, arc);
      } else {
        assert ParentLink(adj, s, done, t);
        assert ParentHop(s'.parent, t) == ParentHop(s.parent, t);
      }
    }
  }

  lemma OfferArcs(adj: Adjacency, dists: Distances, settled: set<Token>, u: Token, n: nat, v: Token, c: nat)
    requires v !in settled && v != u && (v !in dists || c < dists[v])
    requires Relaxed(adj, dists, settled) && n <= |Outgoing(adj, u)| && ArcsDone(adj, dists, u, n)
    ensures Relaxed(adj, dists[v := c], settled) && ArcsDone(adj, dists[v := c], u, n)
  {
    forall w | w in settled
      ensures ArcsDone(adj, dists[v := c], w, |Outgoing(adj, w)|)
    {
      assert ArcsDone(adj, dists, w, |Outgoing(adj, w)|);
    }
  }

  lemma PopStale(adj: Adjacency, from: Token, to: Token, s: Search, settled: set<Token>, node: DijkstraNode)
    requires Searching(adj, from, to, s, settled)
    requires node in s.heap && s.dists[node.token] < node.cost
    ensures Searching(adj, from, to, s.(heap := s.heap - {node}), settled)
  {
    PopParents(adj, from, s, settled, node);
  }

  lemma StartExpanding(adj: Adjacency, from: Token, to: Token, s: Search, settled: set<Token>, node: DijkstraNode)
    requires Searching(adj, from, to, s, settled)
    requires node in s.heap && node.cost <= s.dists[node.token]
    requires forall n :: n in s.heap ==> node.cost <= n.cost
    ensures Expanding(adj, from, s.(heap := s.heap - {node}), settled, node, 0)
    ensures |settled| < |settled + {node.token}| <= |Vertices(adj) + {from}|
  {
    PopParents(adj, from, s, settled, node);
    SubsetSize(settled + {node.token}, Vertices(adj) + {from});
  }

  lemma PopParents(adj: Adjacency, from: Token, s: Search, settled: set<Token>, node: DijkstraNode)
    requires ParentsMatch(adj, from, s, settled)
    ensures ParentsMatch(adj, from, s.(heap := s.heap - {node}), settled)
    ensures ParentsMatch(adj, from, s.(heap := s.heap - {node}), settled + {node.token})
  {
    var s' := s.(heap := s.heap - {node});
    forall t | t in s.parent
      ensures ParentLink(adj, s', settled, t) && ParentLink(adj, s', settled + {node.token}, t)
    {
      assert ParentLink(adj, s, settled, t);
    }
  }

  /** The first entry popped for a token carries its best known cost, and no walk to it costs less. */
  lemma PoppedIsOptimal(adj: Adjacency, from: Token, to: Token, s: Search, settled: set<Token>, node: DijkstraNode)
    requires Searching(adj, from, to, s, settled)
    requires node in s.heap && node.token == to
    requires forall n :: n in s.heap ==> node.cost <= n.cost
    ensures s.dists[to] == node.cost
    ensures forall w :: IsWalkTo(adj, from, to, w) ==> node.cost <= Cost(w, HOP_PENALTY)
  {
    assert DijkstraNode(to, s.dists[to]) in s.heap;
    forall w | IsWalkTo(adj, from, to, w)
      ensures node.cost <= Cost(w, HOP_PENALTY)
    {
      RimBound(adj, from, to, s, settled, node, w);
    }
  }

  /** When the queue runs dry the settled tokens are closed under arcs, so nothing else is reachable. */
  lemma Exhausted(adj: Adjacency, from: Token, to: Token, s: Search, settled: set<Token>)
    requires Searching(adj, from, to, s, settled) && s.heap == {}
    ensures !Reachable(adj, from, to)
  {
    AllSettled(s, settled);
    forall hops | IsWalkTo(adj, from, to, hops)
      ensures false
    {
      StaysSettled(adj, from, s.dists, settled, hops);
    }
  }

  lemma {:induction false} StaysSettled(
    adj: Adjacency, from: Token, dists: Distances, settled: set<Token>, hops: seq<SwapHop>)
    requires IsWalk(adj, from, hops) && from in settled
    requires Relaxed(adj, dists, settled) && dists.Keys <= settled
    ensures End(from, hops) in settled
  {
    if hops != [] {
      var n := |hops| - 1;
      WalkPrefix(adj, from, hops, n);
      StaysSettled(adj, from, dists, settled, hops[..n]);
      assert Follows(adj, from, hops, n);
      var u := hops[n].inputToken;
      assert ArcsDone(adj, dists, u, |Outgoing(adj, u)|);
    }
  }
}

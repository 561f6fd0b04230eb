/** Which graphs keep the sums of the two cheapest-path searches within 64 bits (src/router.rs, lines 150-305). */
module FeeBounds {
  import opened Models
  import opened TokenGraphs
  import opened Walks
  import Dijkstra
  import BellmanFord

  ghost predicate FeesAtMost(adj: Adjacency, fee: nat) {
    forall u, i :: 0 <= i < |Outgoing(adj, u)| ==> Outgoing(adj, u)[i].1.feeRate <= fee
  }

  /** A simple walk and one arc more have at most as many hops as the graph has tokens. */
  lemma FewTokensFit(adj: Adjacency, from: Token, penalty: nat, fee: nat, limit: nat)
    requires FeesAtMost(adj, fee) && |Vertices(adj)| * (fee + penalty) < limit
    ensures SimpleSumsBelow(adj, from, penalty, limit)
  {
    forall u, w, i: nat | IsWalkTo(adj, from, u, w) && Simple(from, w) && i < |Outgoing(adj, u)|
      ensures SumBelow(adj, u, w, i, penalty, limit)
    {
      CostAtMost(adj, from, w, penalty, fee);
      if w == [] {
        SubsetSize({u}, Vertices(adj));
      } else {
        SimpleIsShort(adj, from, w);
      }
      TimesMono(|w| + 1, |Vertices(adj)|, fee + penalty);
      TimesIs(|Vertices(adj)|, fee + penalty);
    }
  }

  lemma {:induction false} CostAtMost(adj: Adjacency, from: Token, w: seq<SwapHop>, penalty: nat, fee: nat)
    requires FeesAtMost(adj, fee) && IsWalk(adj, from, w)
    ensures Cost(w, penalty) <= Times(|w|, fee + penalty)
  {
    if w != [] {
      var n := |w| - 1;
      WalkPrefix(adj, from, w, n);
      CostAtMost(adj, from, w[..n], penalty, fee);
      assert Follows(adj, from, w, n);
      var arc: Arc := (w[n].outputToken, Edge(w[n].poolId, w[n].dexName, w[n].feeRate));
      assert arc in Outgoing(adj, w[n].inputToken);
    }
  }

  /** Simple walks that stay below the limit are enough for every cheapest one. */
  lemma SimpleCoversNear(adj: Adjacency, from: Token, to: Token)
    requires SimpleSumsBelow(adj, from, Dijkstra.HOP_PENALTY, Dijkstra.WORD)
    ensures Dijkstra.NearSumsFit(adj, from, to, 0)
  {
    forall u, w, i | IsCheapest(adj, from, u, w, Dijkstra.HOP_PENALTY) && 0 <= i < |Outgoing(adj, u)|
      ensures Dijkstra.OfferFits(Cost(w, Dijkstra.HOP_PENALTY), Outgoing(adj, u)[i])
    {
      CheapestIsSimple(adj, from, u, w, Dijkstra.HOP_PENALTY);
      assert SumBelow(adj, u, w, i, Dijkstra.HOP_PENALTY, Dijkstra.WORD);
    }
  }

  // ----- a line of pools: the bound by the number of tokens cannot be improved

  function Name(i: nat): (name: Token)
    ensures |name| == i
  {
    seq(i, _ => 'x')
  }

  function LinePool(i: nat, fee: nat): PoolState {
    PoolState(Name(i), "", Name(i), Name(i + 1), 1, 1, fee, false)
  }

  /** `n` - 1 pools of one fee, each sharing a token with the next. */
  function LinePools(n: nat, fee: nat): seq<PoolState>
    requires n > 0
  {
    seq(n - 1, i requires 0 <= i => LinePool(i, fee))
  }

  function LineStep(i: nat, fee: nat): SwapHop {
    SwapHop(Name(i), "", Name(i), Name(i + 1), fee)
  }

  /** `hop` swaps along some pool of the line. */
  ghost predicate OnLine(n: nat, fee: nat, hop: SwapHop) {
    exists k: nat :: k + 1 < n && HopUsesPool(hop, LinePool(k, fee))
  }

  /** The arcs of the graph are those of the line, and its lists are not empty. */
  ghost predicate IsLine(adj: Adjacency, n: nat, fee: nat) {
    && (forall hop {:trigger IsArc(adj, hop)} :: IsArc(adj, hop) <==> OnLine(n, fee, hop))
    && (forall u :: u in adj ==> adj[u] != [])
  }

  lemma GraphIsLine(adj: Adjacency, n: nat, fee: nat)
    requires n > 0 && IsGraphOf(adj, LinePools(n, fee))
    ensures IsLine(adj, n, fee)
  {
    var pools := LinePools(n, fee);
    forall hop
      ensures IsArc(adj, hop) <==> OnLine(n, fee, hop)
    {
      ArcsAreUnpausedPools(adj, pools, hop);
      if OnLine(n, fee, hop) {
        var k: nat :| k + 1 < n && HopUsesPool(hop, LinePool(k, fee));
        assert HopUsesPool(hop, pools[k]);
      }
    }
    forall u | u in adj
      ensures adj[u] != []
    {
      assert Outgoing(adj, u) == ArcsFrom(pools, u);
    }
  }

  /** The walk along the first `k` pools. */
  lemma {:induction false} AlongLine(adj: Adjacency, n: nat, fee: nat, penalty: nat, rate: nat, k: nat)
    returns (w: seq<SwapHop>)
    requires k < n && IsLine(adj, n, fee) && rate == fee + penalty
    ensures |w| == k && IsWalkTo(adj, Name(0), Name(k), w) && Cost(w, penalty) == Times(k, rate)
    ensures forall i :: 0 <= i <= k ==> TokenAt(Name(0), w, i) == Name(i)
  {
    if k == 0 {
      w := [];
    } else {
      var front := AlongLine(adj, n, fee, penalty, rate, k - 1);
      var hop := LineStep(k - 1, fee);
      assert HopUsesPool(hop, LinePool(k - 1, fee));
      assert IsArc(adj, hop);
      w := front + [hop];
      assert Follows(adj, Name(k - 1), [hop], 0);
      WalkConcat(adj, Name(0), front, [hop]);
      assert w[..k - 1] == front;
      forall i | 0 <= i <= k
        ensures TokenAt(Name(0), w, i) == Name(i)
      {
        if i < k {
          assert TokenAt(Name(0), front, i) == Name(i);
        }
      }
    }
  }

  /** No walk gets further than one token per hop, and all cost the same per hop. */
  lemma {:induction false} LineWalk(adj: Adjacency, n: nat, fee: nat, penalty: nat, rate: nat, w: seq<SwapHop>)
    requires n > 0 && IsLine(adj, n, fee) && IsWalk(adj, Name(0), w) && rate == fee + penalty
    ensures |End(Name(0), w)| <= |w| && |End(Name(0), w)| < n
    ensures Cost(w, penalty) == Times(|w|, rate)
  {
    if w != [] {
      var m := |w| - 1;
      WalkPrefix(adj, Name(0), w, m);
      LineWalk(adj, n, fee, penalty, rate, w[..m]);
      assert Follows(adj, Name(0), w, m);
      LineHop(adj, n, fee, w[m]);
    }
  }

  lemma LineHop(adj: Adjacency, n: nat, fee: nat, hop: SwapHop)
    requires IsLine(adj, n, fee) && IsArc(adj, hop)
    ensures hop.feeRate == fee && |hop.outputToken| < n && |hop.outputToken| <= |hop.inputToken| + 1
    ensures |hop.inputToken| < n
    ensures hop.inputToken == Name(|hop.inputToken|) && hop.outputToken == Name(|hop.outputToken|)
  {
    var k: nat :| k + 1 < n && HopUsesPool(hop, LinePool(k, fee));
  }

  lemma LineVertices(adj: Adjacency, n: nat, fee: nat)
    requires n >= 2 && IsLine(adj, n, fee)
    ensures |Vertices(adj)| == n && FeesAtMost(adj, fee)
  {
    var w := AlongLine(adj, n, fee, 0, fee, n - 1);
    forall i | 0 <= i <= |w|
      ensures |TokenAt(Name(0), w, i)| == i
    {
    }
    WalkVertices(adj, Name(0), w);
    SimpleCount(Name(0), w);
    forall u, i | 0 <= i < |Outgoing(adj, u)|
      ensures Outgoing(adj, u)[i].1.feeRate <= fee
    {
      LineArcEnds(adj, n, fee, u, i, w);
    }
    forall u | u in Vertices(adj)
      ensures u in TokensOf(Name(0), w)
    {
      if u in adj {
        LineArcEnds(adj, n, fee, u, 0, w);
      } else {
        var v, i :| v in adj && 0 <= i < |adj[v]| && adj[v][i].0 == u;
        LineArcEnds(adj, n, fee, v, i, w);
      }
    }
    assert Vertices(adj) == TokensOf(Name(0), w);
  }

  lemma LineArcEnds(adj: Adjacency, n: nat, fee: nat, u: Token, i: int, w: seq<SwapHop>)
    requires n >= 2 && IsLine(adj, n, fee) && 0 <= i < |Outgoing(adj, u)| && |w| == n - 1
    requires forall k :: 0 <= k <= |w| ==> TokenAt(Name(0), w, k) == Name(k)
    ensures Outgoing(adj, u)[i].1.feeRate == fee
    ensures u in TokensOf(Name(0), w) && Outgoing(adj, u)[i].0 in TokensOf(Name(0), w)
  {
    var hop := HopOf(u, Outgoing(adj, u)[i]);
    assert IsArc(adj, hop);
    LineHop(adj, n, fee, hop);
    assert TokenAt(Name(0), w, |hop.inputToken|) == hop.inputToken;
    assert TokenAt(Name(0), w, |hop.outputToken|) == hop.outputToken;
  }

  /** The last token of the line is reached most cheaply along the whole of it. */
  lemma LineCheapest(adj: Adjacency, n: nat, fee: nat, penalty: nat, rate: nat) returns (w: seq<SwapHop>)
    requires n >= 2 && IsLine(adj, n, fee) && rate == fee + penalty
    ensures IsCheapest(adj, Name(0), Name(n - 1), w, penalty) && Cost(w, penalty) == Times(n - 1, rate)
  {
    w := AlongLine(adj, n, fee, penalty, rate, n - 1);
    forall v | IsWalkTo(adj, Name(0), Name(n - 1), v)
      ensures Cost(w, penalty) <= Cost(v, penalty)
    {
      LineWalk(adj, n, fee, penalty, rate, v);
      TimesMono(n - 1, |v|, rate);
    }
  }

  /** One arc leads back from there. */
  lemma LineBack(adj: Adjacency, n: nat, fee: nat) returns (i: nat)
    requires n >= 2 && IsLine(adj, n, fee)
    ensures i < |Outgoing(adj, Name(n - 1))| && Outgoing(adj, Name(n - 1))[i].1.feeRate == fee
  {
    var back := SwapHop(Name(n - 2), "", Name(n - 1), Name(n - 2), fee);
    assert HopUsesPool(back, LinePool(n - 2, fee));
    assert IsArc(adj, back);
    i :| 0 <= i < |Outgoing(adj, Name(n - 1))|
      && Outgoing(adj, Name(n - 1))[i] == (Name(n - 2), Edge(Name(n - 2), "", fee));
  }

  /** A graph built from a line of pools, in which one sum along a cheapest walk is the number of tokens times the
      cost of a hop. */
  lemma LongLine(n: nat, fee: nat, penalty: nat, rate: nat)
    returns (adj: Adjacency, pools: seq<PoolState>, u: Token, w: seq<SwapHop>, i: nat)
    requires n >= 2 && rate == fee + penalty
    ensures IsGraphOf(adj, pools) && Sized(adj, n, fee)
    ensures IsCheapest(adj, Name(0), u, w, penalty) && i < |Outgoing(adj, u)|
    ensures Cost(w, penalty) + Outgoing(adj, u)[i].1.feeRate + penalty == Times(n, rate)
    ensures u != Name(n) && !Reachable(adj, Name(0), Name(n))
  {
    pools := LinePools(n, fee);
    adj := GraphExists(pools);
    GraphIsLine(adj, n, fee);
    LineVertices(adj, n, fee);
    u := Name(n - 1);
    w := LineCheapest(adj, n, fee, penalty, rate);
    i := LineBack(adj, n, fee);
    forall v
      ensures !IsWalkTo(adj, Name(0), Name(n), v)
    {
      if IsWalk(adj, Name(0), v) {
        LineWalk(adj, n, fee, penalty, rate, v);
      }
    }
  }

  lemma {:induction false} ArcsNameTokens(pools: seq<PoolState>, u: Token)
    requires ArcsFrom(pools, u) != []
    ensures u in (set i | 0 <= i < |pools| :: pools[i].coinTypeA) + (set i | 0 <= i < |pools| :: pools[i].coinTypeB)
  {
    var front := pools[..|pools| - 1];
    if ArcsFrom(front, u) != [] {
      ArcsNameTokens(front, u);
      assert forall i :: 0 <= i < |front| ==> front[i] == pools[i];
    }
  }

  lemma GraphExists(pools: seq<PoolState>) returns (adj: Adjacency)
    ensures IsGraphOf(adj, pools)
  {
    var tokens := (set i | 0 <= i < |pools| :: pools[i].coinTypeA) + (set i | 0 <= i < |pools| :: pools[i].coinTypeB);
    adj := map u | u in tokens && ArcsFrom(pools, u) != [] :: ArcsFrom(pools, u);
    forall u
      ensures (u in adj <==> ArcsFrom(pools, u) != []) && Outgoing(adj, u) == ArcsFrom(pools, u)
    {
      if ArcsFrom(pools, u) != [] {
        ArcsNameTokens(pools, u);
      }
    }
  }

  /** A graph of at most `n` tokens with fees up to `fee`. */
  ghost predicate Sized(adj: Adjacency, n: nat, fee: nat) {
    |Vertices(adj)| <= n && FeesAtMost(adj, fee)
  }

  lemma SizedFits(adj: Adjacency, from: Token, n: nat, fee: nat, penalty: nat, limit: nat)
    requires Sized(adj, n, fee) && n * (fee + penalty) < limit
    ensures SimpleSumsBelow(adj, from, penalty, limit)
  {
    TimesMono(|Vertices(adj)|, n, fee + penalty);
    TimesIs(|Vertices(adj)|, fee + penalty);
    TimesIs(n, fee + penalty);
    FewTokensFit(adj, from, penalty, fee, limit);
  }

  lemma SimpleCoversCheapest(adj: Adjacency, from: Token, penalty: nat, limit: nat)
    requires SimpleSumsBelow(adj, from, penalty, limit)
    ensures CheapestSumsBelow(adj, from, penalty, limit)
  {
    forall u, w, i: nat | IsCheapest(adj, from, u, w, penalty) && i < |Outgoing(adj, u)|
      ensures SumBelow(adj, u, w, i, penalty, limit)
    {
      var s := Simplify(adj, from, w, penalty);
      assert SumBelow(adj, u, s, i, penalty, limit);
    }
  }

  lemma OneSumReaches(
    adj: Adjacency, from: Token, u: Token, w: seq<SwapHop>, i: nat, penalty: nat, n: nat, rate: nat, limit: nat)
    requires IsCheapest(adj, from, u, w, penalty) && i < |Outgoing(adj, u)|
    requires Cost(w, penalty) + Outgoing(adj, u)[i].1.feeRate + penalty == Times(n, rate) && limit <= n * rate
    ensures !CheapestSumsBelow(adj, from, penalty, limit)
  {
    TimesIs(n, rate);
    assert !SumBelow(adj, u, w, i, penalty, limit);
  }

  /** Every graph of that size keeps the sums along its simple walks below `limit`. */
  ghost predicate AllSimpleBelow(n: nat, fee: nat, limit: nat) {
    forall adj, from :: Sized(adj, n, fee) ==> SimpleSumsBelow(adj, from, 0, limit)
  }

  ghost predicate AllCheapestBelow(n: nat, fee: nat, limit: nat) {
    forall adj, from :: Sized(adj, n, fee) ==> CheapestSumsBelow(adj, from, 0, limit)
  }

  lemma SizedBelow(n: nat, fee: nat, limit: nat)
    requires n * fee < limit
    ensures AllSimpleBelow(n, fee, limit)
  {
    forall adj, from | Sized(adj, n, fee)
      ensures SimpleSumsBelow(adj, from, 0, limit)
    {
      SizedFits(adj, from, n, fee, 0, limit);
    }
  }

  lemma SizedReaches(n: nat, fee: nat, limit: nat)
    requires n >= 2 && n * fee >= limit
    ensures !AllCheapestBelow(n, fee, limit)
  {
    var adj, _, u, w, i := LongLine(n, fee, 0, fee);
    OneSumReaches(adj, Name(0), u, w, i, 0, n, fee, limit);
  }

  /** The sums of Bellman-Ford stay below 2^63 on every graph of at most `n` tokens with fees up to `fee`, along
      simple walks and even along cheapest ones only, if and only if `n * fee` does. */
  lemma BellmanFordRange(n: nat, fee: nat)
    requires n >= 2
    ensures n * fee < BellmanFord.WORD / 2 <==> AllSimpleBelow(n, fee, BellmanFord.WORD / 2)
    ensures n * fee < BellmanFord.WORD / 2 <==> AllCheapestBelow(n, fee, BellmanFord.WORD / 2)
  {
    var limit := BellmanFord.WORD / 2;
    forall adj, from | Sized(adj, n, fee) && SimpleSumsBelow(adj, from, 0, limit)
      ensures CheapestSumsBelow(adj, from, 0, limit)
    {
      SimpleCoversCheapest(adj, from, 0, limit);
    }
    if n * fee < limit {
      SizedBelow(n, fee, limit);
    } else {
      SizedReaches(n, fee, limit);
    }
  }

  /** Fees that survive the cast do not keep the sums in range: from `n * fee` of 2^63 on there is a graph of pools
      on which some sum wraps in every run, since a run without such a sum would keep the cheapest walks below. */
  lemma LineWraps(n: nat, fee: nat) returns (adj: Adjacency, pools: seq<PoolState>)
    requires n >= 2 && fee < BellmanFord.WORD / 2 <= n * fee
    ensures IsGraphOf(adj, pools) && Sized(adj, n, fee) && BellmanFord.FeesFit(adj, Name(0))
    ensures !CheapestSumsBelow(adj, Name(0), 0, BellmanFord.WORD / 2)
  {
    var u, w, i;
    adj, pools, u, w, i := LongLine(n, fee, 0, fee);
    OneSumReaches(adj, Name(0), u, w, i, 0, n, fee, BellmanFord.WORD / 2);
    SmallFeesFit(adj, Name(0), fee);
  }

  lemma SmallFeesFit(adj: Adjacency, from: Token, fee: nat)
    requires FeesAtMost(adj, fee) && fee < BellmanFord.WORD / 2
    ensures BellmanFord.FeesFit(adj, from)
  {
    forall u, k | Reachable(adj, from, u) && 0 <= k < |Outgoing(adj, u)|
      ensures BellmanFord.FeeFitsAt(adj, u, k)
    {
      assert Outgoing(adj, u)[k].1.feeRate <= fee;
    }
  }

  ghost predicate AllNearFit(n: nat, fee: nat, gap: nat) {
    forall adj, from, to :: Sized(adj, n, fee) ==> Dijkstra.NearSumsFit(adj, from, to, gap)
  }

  lemma SizedNearFits(n: nat, fee: nat)
    requires n * (fee + Dijkstra.HOP_PENALTY) < Dijkstra.WORD
    ensures AllNearFit(n, fee, 0)
  {
    forall adj, from, to | Sized(adj, n, fee)
      ensures Dijkstra.NearSumsFit(adj, from, to, 0)
    {
      SizedFits(adj, from, n, fee, Dijkstra.HOP_PENALTY, Dijkstra.WORD);
      SimpleCoversNear(adj, from, to);
    }
  }

  lemma SizedTooDear(n: nat, fee: nat)
    requires n >= 2 && n * (fee + Dijkstra.HOP_PENALTY) >= Dijkstra.WORD
    ensures !AllNearFit(n, fee, 1)
  {
    TimesIs(n, fee + Dijkstra.HOP_PENALTY);
    var adj, _, u, w, i := LongLine(n, fee, Dijkstra.HOP_PENALTY, fee + Dijkstra.HOP_PENALTY);
    OneTooDear(adj, Name(0), Name(n), u, w, i);
  }

  /** The same for Dijkstra's sums and 2^64, with 100 on top of every fee. */
  lemma DijkstraRange(n: nat, fee: nat)
    requires n >= 2
    ensures n * (fee + Dijkstra.HOP_PENALTY) < Dijkstra.WORD <==> AllNearFit(n, fee, 0)
    ensures n * (fee + Dijkstra.HOP_PENALTY) < Dijkstra.WORD <==> AllNearFit(n, fee, 1)
  {
    forall adj, from, to | Dijkstra.NearSumsFit(adj, from, to, 0)
      ensures Dijkstra.NearSumsFit(adj, from, to, 1)
    {
      NearerStillFits(adj, from, to);
    }
    if n * (fee + Dijkstra.HOP_PENALTY) < Dijkstra.WORD {
      SizedNearFits(n, fee);
    } else {
      SizedTooDear(n, fee);
    }
  }

  lemma NearerStillFits(adj: Adjacency, from: Token, to: Token)
    requires Dijkstra.NearSumsFit(adj, from, to, 0)
    ensures Dijkstra.NearSumsFit(adj, from, to, 1)
  {
    forall u, w | u != to && IsCheapest(adj, from, u, w, Dijkstra.HOP_PENALTY)
      && Dijkstra.NotBefore(adj, from, to, Cost(w, Dijkstra.HOP_PENALTY) + 1)
      ensures Dijkstra.ArcsFit(adj, u, Cost(w, Dijkstra.HOP_PENALTY))
    {
      assert Dijkstra.NotBefore(adj, from, to, Cost(w, Dijkstra.HOP_PENALTY) + 0);
    }
  }

  /** A search for an unreachable token forms every sum. */
  lemma OneTooDear(adj: Adjacency, from: Token, to: Token, u: Token, w: seq<SwapHop>, i: nat)
    requires u != to && IsCheapest(adj, from, u, w, Dijkstra.HOP_PENALTY) && i < |Outgoing(adj, u)|
    requires Cost(w, Dijkstra.HOP_PENALTY) + Outgoing(adj, u)[i].1.feeRate + Dijkstra.HOP_PENALTY >= Dijkstra.WORD
    requires !Reachable(adj, from, to)
    ensures !Dijkstra.NearSumsFit(adj, from, to, 1)
  {
    assert Dijkstra.NotBefore(adj, from, to, Cost(w, Dijkstra.HOP_PENALTY) + 1);
    assert !Dijkstra.OfferFits(Cost(w, Dijkstra.HOP_PENALTY), Outgoing(adj, u)[i]);
  }

  /** Two tokens and one pool, whose fee of 2^64 - 1 is read as -1. */
  function NegativeGraph(): Adjacency {
    map[Name(0) := [(Name(1), NegativeEdge())], Name(1) := [(Name(0), NegativeEdge())]]
  }

  function NegativeEdge(): Edge {
    Edge("", "", BellmanFord.WORD - 1)
  }

  lemma NegativeLists()
    ensures Outgoing(NegativeGraph(), Name(0)) == [(Name(1), NegativeEdge())]
    ensures Outgoing(NegativeGraph(), Name(1)) == [(Name(0), NegativeEdge())]
    ensures forall u :: u != Name(0) && u != Name(1) ==> Outgoing(NegativeGraph(), u) == []
  {
  }

  lemma NegativeArc(u: Token, i: int)
    requires 0 <= i < |Outgoing(NegativeGraph(), u)|
    ensures Outgoing(NegativeGraph(), u)[i].1 == NegativeEdge()
    ensures BellmanFord.HasTwin(NegativeGraph(), u, Outgoing(NegativeGraph(), u)[i])
  {
    NegativeLists();
    if u == Name(0) {
      assert Outgoing(NegativeGraph(), Name(1))[0] == (Name(0), NegativeEdge());
    } else {
      assert Outgoing(NegativeGraph(), Name(0))[0] == (Name(1), NegativeEdge());
    }
  }

  lemma NegativeSymmetric()
    ensures BellmanFord.Symmetric(NegativeGraph())
  {
    forall u, i | 0 <= i < |Outgoing(NegativeGraph(), u)|
      ensures BellmanFord.HasTwin(NegativeGraph(), u, Outgoing(NegativeGraph(), u)[i])
    {
      NegativeArc(u, i);
    }
  }

  lemma NegativeFees()
    ensures BellmanFord.FeesAreWords(NegativeGraph()) && BellmanFord.WeightsWithin(NegativeGraph(), 1)
  {
    forall u, i | 0 <= i < |Outgoing(NegativeGraph(), u)|
      ensures Outgoing(NegativeGraph(), u)[i].1 == NegativeEdge()
    {
      NegativeArc(u, i);
    }
  }

  lemma NegativeVertices()
    ensures |Vertices(NegativeGraph())| == 2
  {
    var adj := NegativeGraph();
    NegativeLists();
    assert adj.Keys == {Name(0), Name(1)};
    assert Outgoing(adj, Name(0))[0].0 == Name(1) && Outgoing(adj, Name(1))[0].0 == Name(0);
    assert Vertices(adj) == {Name(0), Name(1)};
  }

  lemma NegativeReached()
    ensures Reachable(NegativeGraph(), Name(0), Name(1)) && !BellmanFord.FeesFit(NegativeGraph(), Name(0))
  {
    var adj, hop := NegativeGraph(), HopOf(Name(0), (Name(1), NegativeEdge()));
    assert Outgoing(adj, Name(0))[0] == (Name(1), NegativeEdge());
    assert Follows(adj, Name(0), [hop], 0);
    assert IsWalkTo(adj, Name(0), Name(1), [hop]) && IsWalkTo(adj, Name(0), Name(0), []);
    assert !BellmanFord.FeeFitsAt(adj, Name(0), 0);
  }

  /** On that graph the flag is true, in whichever order the tokens are relaxed. */
  method NegativeFeeExample() returns (flag: bool)
    ensures flag
  {
    NegativeSymmetric();
    NegativeFees();
    NegativeVertices();
    NegativeReached();
    assert BellmanFord.SmallWeights(NegativeGraph(), 1);
    var r, wrapped := BellmanFord.FindShortestPathBellmanFord(NegativeGraph(), Name(0), Name(1));
    flag := r.Some? && r.value.1;
  }
}

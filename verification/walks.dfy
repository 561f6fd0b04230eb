/** Walks through a token graph: the reference notion the three searches are measured against. */
module Walks {
  import opened Models
  import opened TokenGraphs

  /** The token a walk starting at `from` has reached after its first `i` hops. */
  function TokenAt(from: Token, hops: seq<SwapHop>, i: nat): Token
    requires i <= |hops|
  {
    if i == 0 then from else hops[i - 1].outputToken
  }

  function End(from: Token, hops: seq<SwapHop>): Token {
    TokenAt(from, hops, |hops|)
  }

  /** Hop `i` follows an arc of the graph and starts where the previous hop ended. */
  ghost predicate Follows(adj: Adjacency, from: Token, hops: seq<SwapHop>, i: nat)
    requires i < |hops|
  {
    IsArc(adj, hops[i]) && hops[i].inputToken == TokenAt(from, hops, i)
  }

  ghost predicate IsWalk(adj: Adjacency, from: Token, hops: seq<SwapHop>) {
    forall i :: 0 <= i < |hops| ==> Follows(adj, from, hops, i)
  }

  ghost predicate IsWalkTo(adj: Adjacency, from: Token, to: Token, hops: seq<SwapHop>) {
    IsWalk(adj, from, hops) && End(from, hops) == to
  }

  ghost predicate Reachable(adj: Adjacency, from: Token, to: Token) {
    exists hops :: IsWalkTo(adj, from, to, hops)
  }

  /** No token is visited twice. */
  ghost predicate Simple(from: Token, hops: seq<SwapHop>) {
    forall i, j :: 0 <= i < j <= |hops| ==> TokenAt(from, hops, i) != TokenAt(from, hops, j)
  }

  /** Sum of the fees plus a fixed `penalty` for every hop. */
  function Cost(hops: seq<SwapHop>, penalty: nat): nat {
    if hops == [] then 0
    else Cost(hops[..|hops| - 1], penalty) + hops[|hops| - 1].feeRate + penalty
  }

  /** A walk from `from` to `to` that no other walk undercuts. */
  ghost predicate IsCheapest(adj: Adjacency, from: Token, to: Token, hops: seq<SwapHop>, penalty: nat) {
    && IsWalkTo(adj, from, to, hops)
    && forall w :: IsWalkTo(adj, from, to, w) ==> Cost(hops, penalty) <= Cost(w, penalty)
  }

  /** `w` continued by arc `i` of `u` costs less than `limit`. */
  predicate SumBelow(adj: Adjacency, u: Token, w: seq<SwapHop>, i: nat, penalty: nat, limit: nat)
    requires i < |Outgoing(adj, u)|
  {
    Cost(w, penalty) + Outgoing(adj, u)[i].1.feeRate + penalty < limit
  }

  /** No simple walk continued by one arc, simple or not, costs `limit` or more. */
  ghost predicate SimpleSumsBelow(adj: Adjacency, from: Token, penalty: nat, limit: nat) {
    forall u, w, i: nat {:trigger SumBelow(adj, u, w, i, penalty, limit)} ::
      IsWalkTo(adj, from, u, w) && Simple(from, w) && i < |Outgoing(adj, u)| ==>
        SumBelow(adj, u, w, i, penalty, limit)
  }

  /** The same for cheapest walks only. */
  ghost predicate CheapestSumsBelow(adj: Adjacency, from: Token, penalty: nat, limit: nat) {
    forall u, w, i: nat {:trigger SumBelow(adj, u, w, i, penalty, limit)} ::
      IsCheapest(adj, from, u, w, penalty) && i < |Outgoing(adj, u)| ==>
        SumBelow(adj, u, w, i, penalty, limit)
  }

  lemma {:induction false} CostConcat(a: seq<SwapHop>, b: seq<SwapHop>, penalty: nat)
    ensures Cost(a + b, penalty) == Cost(a, penalty) + Cost(b, penalty)
  {
    if b == [] {
      assert a + b == a;
    } else {
      CostConcat(a, b[..|b| - 1], penalty);
      assert (a + b)[..|a + b| - 1] == a + b[..|b| - 1];
    }
  }

  lemma {:induction false} CostPenalty(hops: seq<SwapHop>, penalty: nat)
    ensures Cost(hops, penalty) == Cost(hops, 0) + penalty * |hops|
  {
    if hops != [] {
      CostPenalty(hops[..|hops| - 1], penalty);
    }
  }

  /** Walks compose. */
  lemma WalkConcat(adj: Adjacency, from: Token, a: seq<SwapHop>, b: seq<SwapHop>)
    requires IsWalk(adj, from, a) && IsWalk(adj, End(from, a), b)
    ensures IsWalk(adj, from, a + b) && End(from, a + b) == End(End(from, a), b)
  {
    var mid := End(from, a);
    forall i | 0 <= i < |a + b|
      ensures Follows(adj, from, a + b, i)
    {
      if i < |a| {
        assert Follows(adj, from, a, i);
      } else {
        assert Follows(adj, mid, b, i - |a|);
        assert TokenAt(from, a + b, i) == TokenAt(mid, b, i - |a|);
      }
    }
  }

  lemma WalkPrefix(adj: Adjacency, from: Token, hops: seq<SwapHop>, n: nat)
    requires IsWalk(adj, from, hops) && n <= |hops|
    ensures IsWalk(adj, from, hops[..n]) && End(from, hops[..n]) == TokenAt(from, hops, n)
  {
    forall i | 0 <= i < n
      ensures Follows(adj, from, hops[..n], i)
    {
      assert Follows(adj, from, hops, i);
    }
  }

  lemma WalkSuffix(adj: Adjacency, from: Token, hops: seq<SwapHop>, n: nat)
    requires IsWalk(adj, from, hops) && n <= |hops|
    ensures IsWalk(adj, TokenAt(from, hops, n), hops[n..])
    ensures End(TokenAt(from, hops, n), hops[n..]) == End(from, hops)
  {
    var mid := TokenAt(from, hops, n);
    forall i | 0 <= i < |hops| - n
      ensures Follows(adj, mid, hops[n..], i)
    {
      assert Follows(adj, from, hops, n + i);
      assert TokenAt(mid, hops[n..], i) == TokenAt(from, hops, n + i);
    }
  }

  /** Cutting the loop between two visits of one token keeps a walk and saves the loop's cost. */
  lemma CutLoop(adj: Adjacency, from: Token, hops: seq<SwapHop>, i: nat, j: nat, penalty: nat)
    requires IsWalk(adj, from, hops) && i < j <= |hops|
    requires TokenAt(from, hops, i) == TokenAt(from, hops, j)
    ensures IsWalkTo(adj, from, End(from, hops), hops[..i] + hops[j..])
    ensures Cost(hops[..i] + hops[j..], penalty) + penalty <= Cost(hops, penalty)
  {
    WalkPrefix(adj, from, hops, i);
    WalkSuffix(adj, from, hops, j);
    WalkConcat(adj, from, hops[..i], hops[j..]);
    CutCost(hops, i, j, penalty);
  }

  lemma CutCost(hops: seq<SwapHop>, i: nat, j: nat, penalty: nat)
    requires i < j <= |hops|
    ensures Cost(hops[..i] + hops[j..], penalty) + penalty <= Cost(hops, penalty)
  {
    var a, b, c := hops[..i], hops[i..j], hops[j..];
    assert hops == a + b + c;
    CostConcat(a, c, penalty);
    CostConcat(a, b, penalty);
    CostConcat(a + b, c, penalty);
    assert Cost(b, penalty) >= penalty;
  }

  /** Every walk can be shortened to a simple one that costs no more. */
  lemma {:induction false} Simplify(adj: Adjacency, from: Token, hops: seq<SwapHop>, penalty: nat)
    returns (s: seq<SwapHop>)
    requires IsWalk(adj, from, hops)
    ensures IsWalkTo(adj, from, End(from, hops), s) && Simple(from, s)
    ensures Cost(s, penalty) <= Cost(hops, penalty)
    decreases |hops|
  {
    if Simple(from, hops) {
      s := hops;
    } else {
      var i, j :| 0 <= i < j <= |hops| && TokenAt(from, hops, i) == TokenAt(from, hops, j);
      CutLoop(adj, from, hops, i, j, penalty);
      s := Simplify(adj, from, hops[..i] + hops[j..], penalty);
    }
  }

  /** With a positive hop penalty a cheapest walk never revisits a token. */
  lemma CheapestIsSimple(adj: Adjacency, from: Token, to: Token, hops: seq<SwapHop>, penalty: nat)
    requires IsCheapest(adj, from, to, hops, penalty) && penalty > 0
    ensures Simple(from, hops)
  {
    forall i, j | 0 <= i < j <= |hops| && TokenAt(from, hops, i) == TokenAt(from, hops, j)
      ensures false
    {
      CutLoop(adj, from, hops, i, j, penalty);
    }
  }

  ghost function TokensOf(from: Token, hops: seq<SwapHop>): set<Token> {
    set i | 0 <= i <= |hops| :: TokenAt(from, hops, i)
  }

  lemma {:induction false} SimpleCount(from: Token, hops: seq<SwapHop>)
    requires Simple(from, hops)
    ensures |TokensOf(from, hops)| == |hops| + 1
  {
    if hops == [] {
      assert forall x :: x in TokensOf(from, hops) <==> x == TokenAt(from, hops, 0);
      assert TokensOf(from, hops) == {from};
    } else {
      var n := |hops| - 1;
      var init := hops[..n];
      assert forall i :: 0 <= i <= n ==> TokenAt(from, init, i) == TokenAt(from, hops, i);
      SimpleCount(from, init);
      var last := TokenAt(from, hops, n + 1);
      assert last !in TokensOf(from, init);
      assert TokensOf(from, hops) == TokensOf(from, init) + {last};
    }
  }

  lemma SubsetSize<T>(a: set<T>, b: set<T>)
    requires a <= b
    ensures |a| <= |b|
  {
    assert b == a + (b - a);
  }

  /** A non-empty walk stays inside the vertices of the graph. */
  lemma WalkVertices(adj: Adjacency, from: Token, hops: seq<SwapHop>)
    requires IsWalk(adj, from, hops) && hops != []
    ensures TokensOf(from, hops) <= Vertices(adj)
  {
    forall i | 0 <= i <= |hops|
      ensures TokenAt(from, hops, i) in Vertices(adj)
    {
      var k := if i == 0 then 0 else i - 1;
      assert Follows(adj, from, hops, k);
      ArcEnds(adj, hops[k]);
    }
  }

  lemma ArcEnds(adj: Adjacency, hop: SwapHop)
    requires IsArc(adj, hop)
    ensures hop.inputToken in Vertices(adj) && hop.outputToken in Vertices(adj)
  {
    var arc: Arc := (hop.outputToken, Edge(hop.poolId, hop.dexName, hop.feeRate));
    var i :| 0 <= i < |adj[hop.inputToken]| && adj[hop.inputToken][i] == arc;
    assert adj[hop.inputToken][i].0 == hop.outputToken;
  }

  /** A simple walk has fewer hops than the graph has vertices. */
  lemma SimpleIsShort(adj: Adjacency, from: Token, hops: seq<SwapHop>)
    requires IsWalk(adj, from, hops) && Simple(from, hops) && hops != []
    ensures |hops| + 1 <= |Vertices(adj)|
  {
    SimpleCount(from, hops);
    WalkVertices(adj, from, hops);
    SubsetSize(TokensOf(from, hops), Vertices(adj));
  }

  /** `k * w`, kept from the solver's arithmetic. */
  function Times(k: nat, w: nat): nat {
    if k == 0 then 0 else Times(k - 1, w) + w
  }

  lemma {:induction false} TimesIs(k: nat, w: nat)
    ensures Times(k, w) == k * w
  {
    if k > 0 {
      TimesIs(k - 1, w);
    }
  }

  lemma TimesMono(j: nat, k: nat, w: nat)
    requires j <= k
    ensures Times(j, w) <= Times(k, w)
  {
    TimesIs(j, w);
    TimesIs(k, w);
    assert (k - j) * w >= 0;
  }

  function Reverse<T>(s: seq<T>): (r: seq<T>)
    ensures |r| == |s|
    ensures forall i :: 0 <= i < |s| ==> r[i] == s[|s| - 1 - i]
  {
    seq(|s|, i requires 0 <= i < |s| => s[|s| - 1 - i])
  }

  lemma ReverseSnoc<T>(s: seq<T>, x: T)
    ensures Reverse(s + [x]) == [x] + Reverse(s)
  {
  }

  /** Putting an arc in front of a walk. */
  lemma WalkCons(adj: Adjacency, hop: SwapHop, hops: seq<SwapHop>, penalty: nat)
    requires IsArc(adj, hop) && IsWalk(adj, hop.outputToken, hops)
    ensures IsWalkTo(adj, hop.inputToken, End(hop.outputToken, hops), [hop] + hops)
    ensures Cost([hop] + hops, penalty) == hop.feeRate + penalty + Cost(hops, penalty)
  {
    assert Follows(adj, hop.inputToken, [hop], 0);
    WalkConcat(adj, hop.inputToken, [hop], hops);
    CostConcat([hop], hops, penalty);
    assert [hop][..0] == [];
  }

  /** Upper bounds propagated along every arc out of `reached` are lower bounds on walk costs. */
  lemma {:induction false} WalkLowerBound(
    adj: Adjacency, from: Token, hops: seq<SwapHop>, penalty: nat,
    dists: map<Token, int>, settled: set<Token>, rim: int)
    requires IsWalk(adj, from, hops)
    requires from in dists && dists[from] == 0
    requires settled <= dists.Keys
    requires forall u :: u in settled ==> dists[u] <= rim
    requires forall u :: u in dists && u !in settled ==> rim <= dists[u]
    requires forall u, k :: u in settled && 0 <= k < |Outgoing(adj, u)| ==>
      var arc := Outgoing(adj, u)[k];
      arc.0 in dists && dists[arc.0] <= dists[u] + arc.1.feeRate + penalty
    ensures var x := End(from, hops);
      if x in settled then dists[x] <= Cost(hops, penalty) else rim <= Cost(hops, penalty)
  {
    if hops != [] {
      var n := |hops| - 1;
      var last := hops[n];
      WalkPrefix(adj, from, hops, n);
      WalkLowerBound(adj, from, hops[..n], penalty, dists, settled, rim);
      assert Follows(adj, from, hops, n);
      var arc: Arc := (last.outputToken, Edge(last.poolId, last.dexName, last.feeRate));
      assert arc in Outgoing(adj, last.inputToken);
    }
  }
}

/** In-place Bellman-Ford over plain fees (src/router.rs, `find_shortest_path_bellman_ford`). */
module BellmanFord {
  import opened Models
  import opened TokenGraphs
  import opened Walks

  const I64_MAX: int := 0x7fff_ffff_ffff_ffff
  const WORD: nat := 0x1_0000_0000_0000_0000

  /** The low 64 bits of a number read as a signed one: `fee as i64`, and what a sum wraps to. */
  function AsI64(n: int): int {
    var low := n % WORD;
    if low <= I64_MAX then low else low - WORD
  }

  /** `u_dist + weight` in 64 bits. */
  function Sum(uDist: int, fee: nat): int {
    AsI64(uDist + AsI64(fee))
  }

  /** The sum does not wrap. A build with overflow checks panics at the first one that does. */
  predicate SumFits(uDist: int, fee: nat) {
    Sum(uDist, fee) == uDist + AsI64(fee)
  }

  lemma SumFitsIff(uDist: int, fee: nat)
    ensures SumFits(uDist, fee) <==> -I64_MAX - 1 <= uDist + AsI64(fee) <= I64_MAX
  {
  }

  /** Every fee that can be met from `from` is below 2^63 and survives the cast to `i64`. */
  ghost predicate FeesFit(adj: Adjacency, from: Token) {
    forall u, k :: Reachable(adj, from, u) && 0 <= k < |Outgoing(adj, u)| ==> FeeFitsAt(adj, u, k)
  }

  predicate FeeFitsAt(adj: Adjacency, u: Token, k: nat)
    requires k < |Outgoing(adj, u)|
  {
    AsI64(Outgoing(adj, u)[k].1.feeRate) == Outgoing(adj, u)[k].1.feeRate
  }

  lemma CastFits(fee: nat)
    requires fee < WORD && AsI64(fee) >= 0
    ensures AsI64(fee) == fee
  {
  }

  /** Fees are unsigned 64-bit numbers in the source. */
  ghost predicate FeesAreWords(adj: Adjacency) {
    forall u, k :: 0 <= k < |Outgoing(adj, u)| ==> Outgoing(adj, u)[k].1.feeRate < WORD
  }

  type Distances = map<Token, int>
  type Parents = map<Token, (Token, Edge)>

  /** The local variables of the search. */
  datatype Tables = Tables(dists: Distances, parent: Parents)

  /** When each distance was last written: a clock that exists for the proof only. */
  type Stamps = map<Token, nat>

  /** What the proof keeps of a run: the stamps, the clock, and whether a sum has wrapped. */
  datatype Trace = Trace(stamps: Stamps, clock: nat, wrapped: bool)

  function ParentHop(parent: Parents, t: Token): SwapHop
    requires t in parent
  {
    HopOf(parent[t].0, (t, parent[t].1))
  }

  /** `arc` would improve the distance of its target. */
  predicate Improves(dists: Distances, uDist: int, arc: Arc) {
    arc.0 !in dists || Sum(uDist, arc.1.feeRate) < dists[arc.0]
  }

  function Record(t: Tables, u: Token, uDist: int, arc: Arc): Tables {
    Tables(t.dists[arc.0 := Sum(uDist, arc.1.feeRate)], t.parent[arc.0 := (u, arc.1)])
  }

  // ----- the code

  method CollectTokens(adj: Adjacency) returns (tokens: set<Token>)
    ensures tokens == Vertices(adj)
  {
    tokens := {};
    var todo := adj.Keys;
    while todo != {}
      invariant todo <= adj.Keys
      invariant tokens == (adj.Keys - todo) + set u, i | u in adj.Keys - todo && 0 <= i < |adj[u]| :: adj[u][i].0
    {
      var src :| src in todo;
      tokens := tokens + {src};
      var edges := adj[src];
      ghost var before := tokens;
      for k := 0 to |edges|
        invariant tokens == before + set i | 0 <= i < k :: edges[i].0
      {
        tokens := tokens + {edges[k].0};
      }
      todo := todo - {src};
    }
  }

  /** For any fees: none exactly when the target is unreachable. With fees below 2^63, as long as no sum wraps, the
      path is simple and cheapest and the flag is false; on a graph with both directions of every pool the flag
      is false only then. `wrapped` tells whether some sum of the run left 64 bits. */
  method FindShortestPathBellmanFord(adj: Adjacency, from: Token, to: Token)
    returns (r: Option<(RoutePath, bool)>, ghost wrapped: bool)
    ensures r.None? <==> !Reachable(adj, from, to)
    ensures FeesFit(adj, from) && !wrapped && r.Some? ==> IsCheapest(adj, from, to, r.value.0.hops, 0)
    ensures FeesFit(adj, from) && !wrapped && r.Some? ==> Simple(from, r.value.0.hops)
    ensures FeesFit(adj, from) && !wrapped && r.Some? ==> r.value.1 == false
    ensures Symmetric(adj) && FeesAreWords(adj) && !wrapped && r.Some? ==>
      (r.value.1 == false <==> FeesFit(adj, from))
    ensures SimpleSumsBelow(adj, from, 0, WORD / 2) || (exists w: nat :: SmallWeights(adj, w)) ==> !wrapped
    ensures FeesFit(adj, from) && !wrapped ==> CheapestSumsBelow(adj, from, 0, WORD / 2)
  {
    ghost var w: nat := 0;
    if exists w: nat :: SmallWeights(adj, w) {
      w :| SmallWeights(adj, w);
    }
    var tokens := CollectTokens(adj);
    var t, g, rounds := RelaxRounds(adj, from, tokens, w);
    var hasNegativeCycle;
    hasNegativeCycle, wrapped := CheckNegativeCycle(adj, tokens, t.dists, g.wrapped);
    FlagMeans(adj, from, t, g, hasNegativeCycle, wrapped);
    NoneWrapped(adj, from, t, g, w, rounds);
    if to in t.dists {
      var hops := Reconstruct(adj, from, to, t, g);
      return Some((RoutePath(hops), hasNegativeCycle)), wrapped;
    } else {
      NotKnown(adj, from, to, t.dists);
      return None, wrapped;
    }
  }

  /** Relax all edges V-1 times, or until a round changes nothing. */
  method RelaxRounds(adj: Adjacency, from: Token, tokens: set<Token>, ghost w: nat)
    returns (t: Tables, ghost g: Trace, ghost rounds: nat)
    requires tokens == Vertices(adj)
    ensures Rounds(adj, from, t, g, w, rounds) && Closed(adj, from, t.dists, g)
    ensures rounds == 0 || rounds < |Vertices(adj)|
  {
    t := Tables(map[from := 0], map[]);
    g := Trace(map[from := 0], 1, false);
    var round := 0;
    var settled := false;
    StartRounds(adj, from, w);
    while round < |tokens| - 1 && !settled
      invariant round == 0 || round < |tokens|
      invariant Rounds(adj, from, t, g, w, round)
      invariant settled ==> Closed(adj, from, t.dists, g)
      decreases |tokens| - round, !settled
    {
      ghost var before, gBefore := t, g;
      var relaxedAny;
      t, g, relaxedAny := RelaxRound(adj, from, tokens, t, g, w, Times(round, |tokens|));
      RoundAdds(adj, from, before, gBefore, t, g, w, round);
      if !relaxedAny {
        QuietCloses(adj, from, t, gBefore, g, w, Times(round, |tokens|));
        settled := true;
      }
      round := round + 1;
    }
    if !settled {
      LastCloses(adj, from, t, g, w, round);
    }
    rounds := round;
  }

  /** One pass over all tokens, in the unspecified order of a hash set. */
  method RelaxRound(
    adj: Adjacency, ghost from: Token, tokens: set<Token>, t0: Tables, ghost g0: Trace, ghost w: nat, ghost steps: nat)
    returns (t: Tables, ghost g: Trace, relaxedAny: bool)
    requires Kept(adj, from, t0, g0) && Known(adj, from, t0.dists)
    ensures Passed(adj, from, t0, g0, t, g, w, steps, tokens)
    ensures !relaxedAny ==> t == t0
  {
    t, g, relaxedAny := t0, g0, false;
    var todo := tokens;
    ghost var done: set<Token> := {};
    NonePassed(adj, from, t0, g0, w, steps);
    while todo != {}
      invariant Divided(tokens, todo, done)
      invariant Passed(adj, from, t0, g0, t, g, w, steps, done)
      invariant !relaxedAny ==> t == t0
    {
      var u :| u in todo;
      MoveOne(tokens, todo, done, u);
      todo := todo - {u};
      var relaxed;
      t, g, relaxed := RelaxToken(adj, from, u, t0, g0, t, g, w, steps, done);
      relaxedAny := relaxedAny || relaxed;
      done := done + {u};
    }
    AllMoved(tokens, done);
  }

  /** A token without a distance is skipped. */
  method RelaxToken(
    adj: Adjacency, ghost from: Token, u: Token, ghost t0: Tables, ghost g0: Trace, before: Tables,
    ghost gBefore: Trace, ghost w: nat, ghost steps: nat, ghost done: set<Token>)
    returns (t: Tables, ghost g: Trace, relaxedAny: bool)
    requires Passed(adj, from, t0, g0, before, gBefore, w, steps, done) && u !in done
    ensures Passed(adj, from, t0, g0, t, g, w, steps, done + {u})
    ensures !relaxedAny ==> t == before
  {
    t, g, relaxedAny := before, gBefore, false;
    if u in before.dists {
      t, g, relaxedAny := RelaxArcs(adj, from, u, before, gBefore, w, steps + |done|);
    }
    TokenPassed(adj, from, t0, g0, before, gBefore, t, g, w, steps, done, u);
  }

  method RelaxArcs(
    adj: Adjacency, ghost from: Token, u: Token, t0: Tables, ghost g0: Trace, ghost w: nat, ghost steps: nat)
    returns (t: Tables, ghost g: Trace, relaxedAny: bool)
    requires u in t0.dists && Known(adj, from, t0.dists) && Kept(adj, from, t0, g0)
    ensures TokenDone(adj, from, t0, g0, t, g, w, steps, u)
    ensures !relaxedAny ==> t == t0
  {
    t, g, relaxedAny := t0, g0, false;
    TameLater(adj, t.dists, g, w, steps);
    var uDist := t.dists[u];
    var edges := Outgoing(adj, u);
    for i := 0 to |edges|
      invariant Relaxed(adj, from, t0, g0, t, g, u, i)
      invariant RoomFor(adj, t0, g0, w, steps) ==> Tame(adj, t.dists, g, w, steps + 1)
      invariant !relaxedAny ==> t == t0
    {
      if RoomFor(adj, t0, g0, w, steps) {
        TameSum(adj, t0.dists, g0, w, steps, u, i);
      }
      ArcRelaxed(adj, from, t0, g0, t, g, u, i);
      g := Traced(t, g, uDist, edges[i]);
      if Improves(t.dists, uDist, edges[i]) {
        t := Record(t, u, uDist, edges[i]);
        relaxedAny := true;
      }
    }
  }

  /** Arc `i` of `u` would still improve a distance; a missing one counts as the largest number. */
  predicate ImprovesAt(adj: Adjacency, dists: Distances, u: Token, i: nat) {
    && u in dists && i < |Outgoing(adj, u)|
    && var arc := Outgoing(adj, u)[i];
       Sum(dists[u], arc.1.feeRate) < if arc.0 in dists then dists[arc.0] else I64_MAX
  }

  /** The sum along arc `i` of `u`, if there is one, does not wrap. */
  predicate SumFitsAt(adj: Adjacency, dists: Distances, u: Token, i: nat) {
    u in dists && i < |Outgoing(adj, u)| ==> SumFits(dists[u], Outgoing(adj, u)[i].1.feeRate)
  }

  ghost predicate AllFit(adj: Adjacency, tokens: set<Token>, dists: Distances) {
    forall u, i: nat :: u in tokens ==> SumFitsAt(adj, dists, u, i)
  }

  method CheckNegativeCycle(adj: Adjacency, tokens: set<Token>, dists: Distances, ghost wrapped0: bool)
    returns (found: bool, ghost wrapped: bool)
    ensures found <==> exists u, i: nat :: u in tokens && ImprovesAt(adj, dists, u, i)
    ensures wrapped0 ==> wrapped
    ensures !wrapped0 && AllFit(adj, tokens, dists) ==> !wrapped
    ensures !wrapped && !found ==> AllFit(adj, tokens, dists)
    ensures !wrapped && found ==>
      exists u, i: nat :: u in tokens && ImprovesAt(adj, dists, u, i) && SumFitsAt(adj, dists, u, i)
  {
    found, wrapped := false, wrapped0;
    var todo := tokens;
    while todo != {} && !found
      invariant todo <= tokens
      invariant found ==> exists u, i: nat ::
        u in tokens && ImprovesAt(adj, dists, u, i) && (!wrapped ==> SumFitsAt(adj, dists, u, i))
      invariant !found ==> forall u, i: nat :: u in tokens - todo ==> !ImprovesAt(adj, dists, u, i)
      invariant wrapped0 ==> wrapped
      invariant !wrapped0 && AllFit(adj, tokens, dists) ==> !wrapped
      invariant !wrapped && !found ==> AllFit(adj, tokens - todo, dists)
      decreases todo
    {
      var u :| u in todo;
      todo := todo - {u};
      if u in dists {
        var edges := Outgoing(adj, u);
        var i := 0;
        while i < |edges| && !found
          invariant i <= |edges|
          invariant found ==> exists k: nat ::
            ImprovesAt(adj, dists, u, k) && (!wrapped ==> SumFitsAt(adj, dists, u, k))
          invariant !found ==> forall k: nat :: k < i ==> !ImprovesAt(adj, dists, u, k)
          invariant wrapped0 ==> wrapped
          invariant !wrapped0 && AllFit(adj, tokens, dists) ==> !wrapped
          invariant !wrapped && !found ==> AllFit(adj, tokens - todo - {u}, dists)
          invariant !wrapped && !found ==> forall k: nat :: k < i ==> SumFitsAt(adj, dists, u, k)
        {
          var v := edges[i].0;
          var vDist := if v in dists then dists[v] else I64_MAX;
          wrapped := wrapped || !SumFits(dists[u], edges[i].1.feeRate);
          assert SumFitsAt(adj, dists, u, i) <==> SumFits(dists[u], edges[i].1.feeRate);
          if Sum(dists[u], edges[i].1.feeRate) < vDist {
            assert ImprovesAt(adj, dists, u, i);
            found := true;
          }
          i := i + 1;
        }
      }
    }
  }

  /** Follow the parents back. The guard against revisiting a token ends the loop on any tables; while no sum has
      wrapped and the fees are below 2^63 it never fires. */
  method Reconstruct(adj: Adjacency, from: Token, to: Token, t: Tables, ghost g: Trace)
    returns (path: seq<SwapHop>)
    requires to in t.dists
    ensures FeesFit(adj, from) && Sound(adj, from, t, g) && CoversAll(adj, from, t.dists) ==>
        IsCheapest(adj, from, to, path, 0) && Simple(from, path)
  {
    ghost var sound := FeesFit(adj, from) && Sound(adj, from, t, g);
    var hops := [];
    var curr := to;
    var visited := {};
    while curr in t.parent
      invariant sound ==> Backtrace(adj, t, g.stamps, to, curr, hops, visited)
      decreases t.parent.Keys - visited
    {
      if curr in visited {
        if sound {
          assert false;
        }
        break;
      }
      if sound {
        assert Link(adj, t, g.stamps, curr);
        BacktraceStep(adj, from, t, g, to, curr, hops, visited);
      }
      visited := visited + {curr};
      hops := hops + [ParentHop(t.parent, curr)];
      curr := t.parent[curr].0;
    }
    path := Reverse(hops);
    if sound && CoversAll(adj, from, t.dists) {
      forall w | IsWalkTo(adj, from, to, w)
        ensures Cost(path, 0) <= Cost(w, 0)
      {
        assert Covered(from, t.dists, w);
      }
    }
  }

  // ----- sums that do not wrap

  predicate Bounded(x: int, b: int) {
    -b <= x <= b
  }

  /** Every cast fee lies between `-w` and `w`. */
  ghost predicate WeightsWithin(adj: Adjacency, w: nat) {
    forall u, i :: 0 <= i < |Outgoing(adj, u)| ==> Bounded(AsI64(Outgoing(adj, u)[i].1.feeRate), w)
  }

  /** Cast fees so small in size that no run over the graph can leave 64 bits, whatever their signs. */
  ghost predicate SmallWeights(adj: Adjacency, w: nat) {
    WeightsWithin(adj, w) && |Vertices(adj)| * |Vertices(adj)| * w <= I64_MAX
  }

  /** Within `n` - 1 rounds of `n` steps there is room for one more round, or one more step after the last. */
  lemma StepsLeft(round: nat, n: nat, w: nat)
    requires round < n
    ensures Times(round, n) + n == Times(round + 1, n) <= n * n
    ensures Times(Times(round, n) + n, w) <= n * n * w
    ensures Times(Times(round, n) + 1, w) <= n * n * w
  {
    TimesMono(round + 1, n, n);
    TimesIs(n, n);
    TimesMono(Times(round, n) + n, n * n, w);
    TimesMono(Times(round, n) + 1, n * n, w);
    TimesIs(n * n, w);
  }

  ghost predicate Within(dists: Distances, b: nat) {
    forall x :: x in dists ==> Bounded(dists[x], b)
  }

  /** After `steps` relaxed tokens no distance is larger in size than as many weights. */
  ghost predicate Tame(adj: Adjacency, dists: Distances, g: Trace, w: nat, steps: nat) {
    WeightsWithin(adj, w) && !g.wrapped && Within(dists, Times(steps, w))
  }

  lemma TameLater(adj: Adjacency, dists: Distances, g: Trace, w: nat, steps: nat)
    ensures Times(steps + 1, w) == Times(steps, w) + w
    ensures Tame(adj, dists, g, w, steps) ==> Tame(adj, dists, g, w, steps + 1)
  {
  }

  /** The distances are tame and one more step cannot leave 64 bits. */
  ghost predicate RoomFor(adj: Adjacency, t: Tables, g: Trace, w: nat, steps: nat) {
    Tame(adj, t.dists, g, w, steps) && Times(steps + 1, w) <= I64_MAX
  }

  lemma TameSum(adj: Adjacency, dists: Distances, g: Trace, w: nat, steps: nat, u: Token, i: nat)
    requires Tame(adj, dists, g, w, steps) && Times(steps + 1, w) <= I64_MAX
    requires u in dists && i < |Outgoing(adj, u)|
    ensures SumFits(dists[u], Outgoing(adj, u)[i].1.feeRate)
    ensures Bounded(Sum(dists[u], Outgoing(adj, u)[i].1.feeRate), Times(steps + 1, w))
  {
    TameLater(adj, dists, g, w, steps);
    SumFitsIff(dists[u], Outgoing(adj, u)[i].1.feeRate);
  }

  /** Small weights leave no sum that could wrap, in the rounds or in the check. */
  lemma NoneWrapped(adj: Adjacency, from: Token, t: Tables, g: Trace, w: nat, rounds: nat)
    requires Rounds(adj, from, t, g, w, rounds) && (rounds == 0 || rounds < |Vertices(adj)|)
    ensures SmallWeights(adj, w) ==> !g.wrapped && AllFit(adj, Vertices(adj), t.dists)
  {
    if SmallWeights(adj, w) {
      TameFits(adj, t.dists, g, w, rounds);
    }
  }

  lemma TameFits(adj: Adjacency, dists: Distances, g: Trace, w: nat, round: nat)
    requires SmallWeights(adj, w) && (round == 0 || round < |Vertices(adj)|)
    requires Tame(adj, dists, g, w, Times(round, |Vertices(adj)|))
    ensures AllFit(adj, Vertices(adj), dists)
  {
    forall u, i: nat | u in Vertices(adj)
      ensures SumFitsAt(adj, dists, u, i)
    {
      if u in dists && i < |Outgoing(adj, u)| {
        StepsLeft(round, |Vertices(adj)|, w);
        TameSum(adj, dists, g, w, Times(round, |Vertices(adj)|), u, i);
      }
    }
  }

  // ----- what relaxing has established

  /** The trace after the sum along `arc` has been formed and, if it improves, recorded. */
  function Traced(t: Tables, g: Trace, uDist: int, arc: Arc): Trace {
    var wrapped := g.wrapped || !SumFits(uDist, arc.1.feeRate);
    if Improves(t.dists, uDist, arc) then Trace(g.stamps[arc.0 := g.clock], g.clock + 1, wrapped)
    else Trace(g.stamps, g.clock, wrapped)
  }

  /** What holds after the first `n` arcs of `u` have been tried. */
  ghost predicate Relaxed(
    adj: Adjacency, from: Token, t0: Tables, g0: Trace, t: Tables, g: Trace, u: Token, n: nat)
  {
    && n <= |Outgoing(adj, u)| && u in t0.dists
    && Kept(adj, from, t, g) && (g0.wrapped ==> g.wrapped)
    && Known(adj, from, t.dists) && t0.dists.Keys <= t.dists.Keys && ArcsKnown(adj, t.dists, u, n)
    && (Plain(adj, from, g) ==>
          && t.dists[u] == t0.dists[u]
          && Lower(t0.dists, t.dists) && Offered(adj, t0.dists, t.dists, u, n))
  }

  lemma ArcRelaxed(
    adj: Adjacency, from: Token, t0: Tables, g0: Trace, t: Tables, g: Trace, u: Token, i: nat)
    requires Relaxed(adj, from, t0, g0, t, g, u, i) && i < |Outgoing(adj, u)|
    ensures var arc, uDist := Outgoing(adj, u)[i], t0.dists[u];
      var t' := if Improves(t.dists, uDist, arc) then Record(t, u, uDist, arc) else t;
      Relaxed(adj, from, t0, g0, t', Traced(t, g, uDist, arc), u, i + 1)
  {
    var arc, uDist := Outgoing(adj, u)[i], t0.dists[u];
    var g' := Traced(t, g, uDist, arc);
    assert IsArc(adj, HopOf(u, arc));
    ArcReaches(adj, from, u, i);
    if SimpleSumsBelow(adj, from, 0, WORD / 2) {
      SimpleSumFits(adj, from, t, g, u, i);
    }
    if Plain(adj, from, g') {
      FeeFits(adj, from, HopOf(u, arc));
      if Improves(t.dists, uDist, arc) {
        RecordKeeps(adj, from, t, g, u, i);
      }
    }
  }

  ghost predicate Divided(tokens: set<Token>, todo: set<Token>, done: set<Token>) {
    todo !! done && todo + done == tokens
  }

  lemma MoveOne(tokens: set<Token>, todo: set<Token>, done: set<Token>, u: Token)
    requires Divided(tokens, todo, done) && u in todo
    ensures Divided(tokens, todo - {u}, done + {u})
    ensures |done + {u}| == |done| + 1 <= |tokens|
  {
    SubsetSize(done + {u}, tokens);
  }

  lemma AllMoved(tokens: set<Token>, done: set<Token>)
    requires Divided(tokens, {}, done)
    ensures done == tokens
  {
  }

  /** What holds after one token has been relaxed; a token without a distance is skipped. */
  ghost predicate TokenDone(
    adj: Adjacency, from: Token, t0: Tables, g0: Trace, t: Tables, g: Trace, w: nat, steps: nat, u: Token)
  {
    && (u in t0.dists ==> Relaxed(adj, from, t0, g0, t, g, u, |Outgoing(adj, u)|))
    && (u !in t0.dists ==> t == t0 && g == g0)
    && (RoomFor(adj, t0, g0, w, steps) ==> Tame(adj, t.dists, g, w, steps + 1))
  }

  /** What holds after the tokens `done` have been relaxed in one round. */
  ghost predicate Passed(
    adj: Adjacency, from: Token, t0: Tables, g0: Trace, t: Tables, g: Trace, w: nat, steps: nat, done: set<Token>)
  {
    && Kept(adj, from, t, g) && (g0.wrapped ==> g.wrapped)
    && Known(adj, from, t.dists) && t0.dists.Keys <= t.dists.Keys
    && (forall u :: u in done && u in t0.dists ==> ArcsKnown(adj, t.dists, u, |Outgoing(adj, u)|))
    && (Plain(adj, from, g) ==>
          && Lower(t0.dists, t.dists)
          && forall u :: u in done && u in t0.dists ==> Offered(adj, t0.dists, t.dists, u, |Outgoing(adj, u)|))
    && (Tame(adj, t0.dists, g0, w, steps) && Times(steps + |done|, w) <= I64_MAX ==>
          Tame(adj, t.dists, g, w, steps + |done|))
  }

  lemma NonePassed(adj: Adjacency, from: Token, t: Tables, g: Trace, w: nat, steps: nat)
    requires Kept(adj, from, t, g) && Known(adj, from, t.dists)
    ensures Passed(adj, from, t, g, t, g, w, steps, {})
  {
  }

  lemma TokenPassed(
    adj: Adjacency, from: Token, t0: Tables, g0: Trace, before: Tables, gBefore: Trace, t: Tables, g: Trace,
    w: nat, steps: nat, done: set<Token>, u: Token)
    requires Passed(adj, from, t0, g0, before, gBefore, w, steps, done) && u !in done
    requires TokenDone(adj, from, before, gBefore, t, g, w, steps + |done|, u)
    ensures Passed(adj, from, t0, g0, t, g, w, steps, done + {u})
  {
    TimesMono(steps + |done|, steps + |done| + 1, w);
    if u in before.dists {
      TokenAdds(adj, from, t0, before, t, g, done, u);
    }
  }

  lemma TokenAdds(
    adj: Adjacency, from: Token, t0: Tables, before: Tables, t: Tables, g: Trace, done: set<Token>, u: Token)
    requires before.dists.Keys <= t.dists.Keys && ArcsKnown(adj, t.dists, u, |Outgoing(adj, u)|)
    requires forall x :: x in done && x in t0.dists ==> ArcsKnown(adj, before.dists, x, |Outgoing(adj, x)|)
    requires Plain(adj, from, g) ==>
      && Lower(t0.dists, before.dists) && Lower(before.dists, t.dists)
      && Offered(adj, before.dists, t.dists, u, |Outgoing(adj, u)|)
      && forall x :: x in done && x in t0.dists ==> Offered(adj, t0.dists, before.dists, x, |Outgoing(adj, x)|)
    ensures forall x :: x in done + {u} && x in t0.dists ==> ArcsKnown(adj, t.dists, x, |Outgoing(adj, x)|)
    ensures Plain(adj, from, g) ==> Lower(t0.dists, t.dists) && forall x :: x in done + {u} && x in t0.dists ==>
      Offered(adj, t0.dists, t.dists, x, |Outgoing(adj, x)|)
  {
    ArcsStayKnown(adj, t0.dists, before.dists, t.dists, done);
    if Plain(adj, from, g) {
      OfferedLater(adj, t0.dists, before.dists, t.dists, done, u);
    }
  }

  lemma ArcsStayKnown(adj: Adjacency, d0: Distances, before: Distances, after: Distances, done: set<Token>)
    requires before.Keys <= after.Keys
    requires forall u :: u in done && u in d0 ==> ArcsKnown(adj, before, u, |Outgoing(adj, u)|)
    ensures forall u :: u in done && u in d0 ==> ArcsKnown(adj, after, u, |Outgoing(adj, u)|)
  {
    forall u | u in done && u in d0
      ensures ArcsKnown(adj, after, u, |Outgoing(adj, u)|)
    {
      assert ArcsKnown(adj, before, u, |Outgoing(adj, u)|);
    }
  }

  // ----- what the rounds have established

  ghost predicate Rounds(adj: Adjacency, from: Token, t: Tables, g: Trace, w: nat, round: nat) {
    && Kept(adj, from, t, g)
    && Known(adj, from, t.dists) && KnownUpTo(adj, from, t.dists, round)
    && (Plain(adj, from, g) ==> CoversUpTo(adj, from, t.dists, round))
    && (SmallWeights(adj, w) ==> Tame(adj, t.dists, g, w, Times(round, |Vertices(adj)|)))
  }

  /** Every walk is accounted for. */
  ghost predicate Closed(adj: Adjacency, from: Token, dists: Distances, g: Trace) {
    KnowsAll(adj, from, dists) && (Plain(adj, from, g) ==> CoversAll(adj, from, dists))
  }

  lemma StartRounds(adj: Adjacency, from: Token, w: nat)
    ensures Rounds(adj, from, Tables(map[from := 0], map[]), Trace(map[from := 0], 1, false), w, 0)
  {
    StartKnown(adj, from);
    StartSound(adj, from);
  }

  lemma RoundAdds(
    adj: Adjacency, from: Token, t0: Tables, g0: Trace, t: Tables, g: Trace, w: nat, round: nat)
    requires Rounds(adj, from, t0, g0, w, round) && round < |Vertices(adj)|
    requires Passed(adj, from, t0, g0, t, g, w, Times(round, |Vertices(adj)|), Vertices(adj))
    ensures Rounds(adj, from, t, g, w, round + 1)
  {
    TameRound(adj, from, t0, g0, t, g, w, round);
    RoundKnows(adj, from, t0.dists, t.dists, round);
    if Plain(adj, from, g) {
      RoundCovers(adj, from, t0.dists, t.dists, round);
    }
  }

  lemma TameRound(
    adj: Adjacency, from: Token, t0: Tables, g0: Trace, t: Tables, g: Trace, w: nat, round: nat)
    requires Passed(adj, from, t0, g0, t, g, w, Times(round, |Vertices(adj)|), Vertices(adj))
    requires SmallWeights(adj, w) ==> Tame(adj, t0.dists, g0, w, Times(round, |Vertices(adj)|))
    requires round < |Vertices(adj)|
    ensures SmallWeights(adj, w) ==> Tame(adj, t.dists, g, w, Times(round + 1, |Vertices(adj)|))
  {
    StepsLeft(round, |Vertices(adj)|, w);
  }

  lemma QuietCloses(adj: Adjacency, from: Token, t: Tables, g0: Trace, g: Trace, w: nat, steps: nat)
    requires Passed(adj, from, t, g0, t, g, w, steps, Vertices(adj))
    ensures Closed(adj, from, t.dists, g)
  {
    QuietKnows(adj, from, t.dists);
    if Plain(adj, from, g) {
      QuietRoundCovers(adj, from, t.dists);
    }
  }

  lemma LastCloses(adj: Adjacency, from: Token, t: Tables, g: Trace, w: nat, round: nat)
    requires Rounds(adj, from, t, g, w, round) && |Vertices(adj)| - 1 <= round
    ensures Closed(adj, from, t.dists, g)
  {
    LastKnows(adj, from, t.dists, round);
    if Plain(adj, from, g) {
      LastRoundCovers(adj, from, t.dists, round);
    }
  }

  // ----- which tokens have a distance, whatever the fees

  /** Only reachable tokens have a distance. */
  ghost predicate Known(adj: Adjacency, from: Token, dists: Distances) {
    from in dists && forall x {:trigger Reachable(adj, from, x)} :: x in dists ==> Reachable(adj, from, x)
  }

  /** The first `n` neighbours of `u` have one. */
  ghost predicate ArcsKnown(adj: Adjacency, dists: Distances, u: Token, n: nat)
    requires n <= |Outgoing(adj, u)|
  {
    forall i :: 0 <= i < n ==> Outgoing(adj, u)[i].0 in dists
  }

  ghost predicate EndKnown(from: Token, dists: Distances, w: seq<SwapHop>) {
    End(from, w) in dists
  }

  ghost predicate KnownUpTo(adj: Adjacency, from: Token, dists: Distances, k: nat) {
    forall w {:trigger EndKnown(from, dists, w)} :: IsWalk(adj, from, w) && |w| <= k ==> EndKnown(from, dists, w)
  }

  ghost predicate KnowsAll(adj: Adjacency, from: Token, dists: Distances) {
    forall w {:trigger EndKnown(from, dists, w)} :: IsWalk(adj, from, w) ==> EndKnown(from, dists, w)
  }

  lemma StartKnown(adj: Adjacency, from: Token)
    ensures Known(adj, from, map[from := 0]) && KnownUpTo(adj, from, map[from := 0], 0)
  {
    assert IsWalkTo(adj, from, from, []);
  }

  lemma ArcReaches(adj: Adjacency, from: Token, u: Token, i: nat)
    requires Reachable(adj, from, u) && i < |Outgoing(adj, u)|
    ensures Reachable(adj, from, Outgoing(adj, u)[i].0)
  {
    var w :| IsWalkTo(adj, from, u, w);
    var hop := HopOf(u, Outgoing(adj, u)[i]);
    assert IsArc(adj, hop);
    assert Follows(adj, u, [hop], 0);
    WalkConcat(adj, from, w, [hop]);
    assert IsWalkTo(adj, from, hop.outputToken, w + [hop]);
  }

  lemma StepKnown(adj: Adjacency, from: Token, before: Distances, after: Distances, w: seq<SwapHop>)
    requires IsWalk(adj, from, w) && w != [] && EndKnown(from, before, w[..|w| - 1])
    requires forall u :: u in Vertices(adj) && u in before ==> ArcsKnown(adj, after, u, |Outgoing(adj, u)|)
    ensures EndKnown(from, after, w)
  {
    var n := |w| - 1;
    var hop := w[n];
    WalkPrefix(adj, from, w, n);
    assert Follows(adj, from, w, n);
    ArcEnds(adj, hop);
    var arc: Arc := (hop.outputToken, Edge(hop.poolId, hop.dexName, hop.feeRate));
    var k :| 0 <= k < |Outgoing(adj, hop.inputToken)| && Outgoing(adj, hop.inputToken)[k] == arc;
    assert ArcsKnown(adj, after, hop.inputToken, |Outgoing(adj, hop.inputToken)|);
  }

  lemma RoundKnows(adj: Adjacency, from: Token, before: Distances, after: Distances, k: nat)
    requires KnownUpTo(adj, from, before, k) && before.Keys <= after.Keys
    requires forall u :: u in Vertices(adj) && u in before ==> ArcsKnown(adj, after, u, |Outgoing(adj, u)|)
    ensures KnownUpTo(adj, from, after, k + 1)
  {
    forall w | IsWalk(adj, from, w) && |w| <= k + 1
      ensures EndKnown(from, after, w)
    {
      if |w| <= k {
        assert EndKnown(from, before, w);
      } else {
        WalkPrefix(adj, from, w, k);
        assert EndKnown(from, before, w[..k]);
        StepKnown(adj, from, before, after, w);
      }
    }
  }

  lemma QuietKnows(adj: Adjacency, from: Token, dists: Distances)
    requires from in dists
    requires forall u :: u in Vertices(adj) && u in dists ==> ArcsKnown(adj, dists, u, |Outgoing(adj, u)|)
    ensures KnowsAll(adj, from, dists)
  {
    forall w | IsWalk(adj, from, w)
      ensures EndKnown(from, dists, w)
    {
      QuietEnd(adj, from, dists, w);
    }
  }

  lemma {:induction false} QuietEnd(adj: Adjacency, from: Token, dists: Distances, w: seq<SwapHop>)
    requires from in dists && IsWalk(adj, from, w)
    requires forall u :: u in Vertices(adj) && u in dists ==> ArcsKnown(adj, dists, u, |Outgoing(adj, u)|)
    ensures EndKnown(from, dists, w)
  {
    if w != [] {
      WalkPrefix(adj, from, w, |w| - 1);
      QuietEnd(adj, from, dists, w[..|w| - 1]);
      StepKnown(adj, from, dists, dists, w);
    }
  }

  lemma LastKnows(adj: Adjacency, from: Token, dists: Distances, k: nat)
    requires KnownUpTo(adj, from, dists, k) && |Vertices(adj)| - 1 <= k
    ensures KnowsAll(adj, from, dists)
  {
    forall w | IsWalk(adj, from, w)
      ensures EndKnown(from, dists, w)
    {
      var s := Simplify(adj, from, w, 0);
      if s != [] {
        SimpleIsShort(adj, from, s);
      }
      assert EndKnown(from, dists, s);
    }
  }

  /** No arc improves a distance, and no sum along one wraps. */
  ghost predicate NothingImproves(adj: Adjacency, dists: Distances) {
    AllFit(adj, Vertices(adj), dists) && forall u, i: nat :: u in Vertices(adj) ==> !ImprovesAt(adj, dists, u, i)
  }

  /** Every arc has a twin in the other direction. */
  ghost predicate Symmetric(adj: Adjacency) {
    forall u, i :: 0 <= i < |Outgoing(adj, u)| ==> HasTwin(adj, u, Outgoing(adj, u)[i])
  }

  ghost predicate HasTwin(adj: Adjacency, u: Token, arc: Arc) {
    (u, arc.1) in Outgoing(adj, arc.0)
  }

  /** Graphs built from pools have both directions of every pool. */
  lemma BuiltGraphIsSymmetric(adj: Adjacency, pools: seq<PoolState>)
    requires IsGraphOf(adj, pools)
    ensures Symmetric(adj)
  {
    forall u, i | 0 <= i < |Outgoing(adj, u)|
      ensures HasTwin(adj, u, Outgoing(adj, u)[i])
    {
      var arc := Outgoing(adj, u)[i];
      var there, back := HopOf(u, arc), HopOf(arc.0, (u, arc.1));
      assert IsArc(adj, there);
      ArcsAreUnpausedPools(adj, pools, there);
      ArcsAreUnpausedPools(adj, pools, back);
      var k :| 0 <= k < |pools| && !pools[k].isPaused && HopUsesPool(there, pools[k]);
      assert HopUsesPool(back, pools[k]);
    }
  }

  /** Without an improving arc, a fee that casts to a negative number and its twin would contradict each other. */
  lemma NoImprovementFits(adj: Adjacency, from: Token, dists: Distances)
    requires Symmetric(adj) && FeesAreWords(adj) && Known(adj, from, dists) && KnowsAll(adj, from, dists)
    requires NothingImproves(adj, dists)
    ensures FeesFit(adj, from)
  {
    forall u, k | Reachable(adj, from, u) && 0 <= k < |Outgoing(adj, u)|
      ensures FeeFitsAt(adj, u, k)
    {
      TwinsFit(adj, from, dists, u, k);
      CastFits(Outgoing(adj, u)[k].1.feeRate);
    }
  }

  lemma TwinsFit(adj: Adjacency, from: Token, dists: Distances, u: Token, k: nat)
    requires Symmetric(adj) && KnowsAll(adj, from, dists) && Reachable(adj, from, u) && k < |Outgoing(adj, u)|
    requires NothingImproves(adj, dists)
    ensures AsI64(Outgoing(adj, u)[k].1.feeRate) >= 0
  {
    var arc := Outgoing(adj, u)[k];
    assert IsArc(adj, HopOf(u, arc));
    ArcEnds(adj, HopOf(u, arc));
    ArcReaches(adj, from, u, k);
    HasDistance(adj, from, dists, u);
    HasDistance(adj, from, dists, arc.0);
    assert HasTwin(adj, u, arc);
    var j :| 0 <= j < |Outgoing(adj, arc.0)| && Outgoing(adj, arc.0)[j] == (u, arc.1);
    assert !ImprovesAt(adj, dists, u, k) && !ImprovesAt(adj, dists, arc.0, j);
    assert SumFitsAt(adj, dists, u, k) && SumFitsAt(adj, dists, arc.0, j);
  }

  lemma HasDistance(adj: Adjacency, from: Token, dists: Distances, u: Token)
    requires KnowsAll(adj, from, dists) && Reachable(adj, from, u)
    ensures u in dists
  {
    var w :| IsWalkTo(adj, from, u, w);
    assert EndKnown(from, dists, w);
  }

  /** What the check for negative cycles tells when no sum has wrapped, and when none can. */
  lemma FlagMeans(adj: Adjacency, from: Token, t: Tables, g: Trace, found: bool, wrapped: bool)
    requires Known(adj, from, t.dists) && Kept(adj, from, t, g) && Closed(adj, from, t.dists, g)
    requires found <==> exists u, i: nat :: u in Vertices(adj) && ImprovesAt(adj, t.dists, u, i)
    requires g.wrapped ==> wrapped
    requires !g.wrapped && AllFit(adj, Vertices(adj), t.dists) ==> !wrapped
    requires !wrapped && !found ==> AllFit(adj, Vertices(adj), t.dists)
    requires !wrapped && found ==>
      exists u, i: nat :: u in Vertices(adj) && ImprovesAt(adj, t.dists, u, i) && SumFitsAt(adj, t.dists, u, i)
    ensures FeesFit(adj, from) && !wrapped ==> !found
    ensures Symmetric(adj) && FeesAreWords(adj) && !wrapped && !found ==> FeesFit(adj, from)
    ensures SimpleSumsBelow(adj, from, 0, WORD / 2) ==> !wrapped
    ensures FeesFit(adj, from) && !wrapped ==> CheapestSumsBelow(adj, from, 0, WORD / 2)
  {
    if FeesFit(adj, from) && !wrapped && found {
      var u, i: nat :| u in Vertices(adj) && ImprovesAt(adj, t.dists, u, i) && SumFitsAt(adj, t.dists, u, i);
      NoArcImproves(adj, from, t, g, u, i);
    }
    if Symmetric(adj) && FeesAreWords(adj) && !wrapped && !found {
      NoImprovementFits(adj, from, t.dists);
    }
    if SimpleSumsBelow(adj, from, 0, WORD / 2) {
      forall u, i: nat | u in Vertices(adj)
        ensures SumFitsAt(adj, t.dists, u, i)
      {
        if u in t.dists && i < |Outgoing(adj, u)| {
          SimpleSumFits(adj, from, t, g, u, i);
        }
      }
    }
    if FeesFit(adj, from) && !wrapped {
      FormedSumsFit(adj, from, t, g);
    }
  }

  /** The check forms the sum along every arc out of every cheapest cost. */
  lemma FormedSumsFit(adj: Adjacency, from: Token, t: Tables, g: Trace)
    requires FeesFit(adj, from) && Sound(adj, from, t, g) && CoversAll(adj, from, t.dists)
    requires AllFit(adj, Vertices(adj), t.dists)
    ensures CheapestSumsBelow(adj, from, 0, WORD / 2)
  {
    forall u, w, i: nat | IsCheapest(adj, from, u, w, 0) && i < |Outgoing(adj, u)|
      ensures SumBelow(adj, u, w, i, 0, WORD / 2)
    {
      assert Covered(from, t.dists, w) && HasWalk(adj, from, t.dists, u);
      assert IsArc(adj, HopOf(u, Outgoing(adj, u)[i]));
      FeeFits(adj, from, HopOf(u, Outgoing(adj, u)[i]));
      assert SumFitsAt(adj, t.dists, u, i);
      SumFitsIff(t.dists[u], Outgoing(adj, u)[i].1.feeRate);
    }
  }

  /** A distance is the cost of a simple walk, so when those stay below 2^63 so does every sum. */
  lemma SimpleSumFits(adj: Adjacency, from: Token, t: Tables, g: Trace, u: Token, i: nat)
    requires SimpleSumsBelow(adj, from, 0, WORD / 2) && Kept(adj, from, t, g)
    requires u in t.dists && i < |Outgoing(adj, u)|
    ensures FeesFit(adj, from) && SumFits(t.dists[u], Outgoing(adj, u)[i].1.feeRate)
  {
    SimpleSumsFees(adj, from);
    assert HasWalk(adj, from, t.dists, u);
    var w :| IsRecorded(adj, from, t.dists, u, w);
    assert SumBelow(adj, u, w, i, 0, WORD / 2);
    SumFitsIff(t.dists[u], Outgoing(adj, u)[i].1.feeRate);
  }

  lemma SimpleSumsFees(adj: Adjacency, from: Token)
    requires SimpleSumsBelow(adj, from, 0, WORD / 2)
    ensures FeesFit(adj, from)
  {
    forall u, k | Reachable(adj, from, u) && 0 <= k < |Outgoing(adj, u)|
      ensures FeeFitsAt(adj, u, k)
    {
      var hops :| IsWalkTo(adj, from, u, hops);
      var w := Simplify(adj, from, hops, 0);
      assert SumBelow(adj, u, w, k, 0, WORD / 2);
    }
  }

  lemma NotKnown(adj: Adjacency, from: Token, to: Token, dists: Distances)
    requires KnowsAll(adj, from, dists) && to !in dists
    ensures !Reachable(adj, from, to)
  {
    forall w
      ensures IsWalkTo(adj, from, to, w) ==> EndKnown(from, dists, w)
    {
    }
  }

  /** The hops collected so far lead from `curr` to `to`, and every token already visited ranks after `curr`. */
  ghost predicate Backtrace(
    adj: Adjacency, t: Tables, stamps: Stamps, to: Token, curr: Token, hops: seq<SwapHop>, visited: set<Token>)
  {
    && curr in t.dists && to in t.dists
    && IsWalkTo(adj, curr, to, Reverse(hops))
    && t.dists[curr] + Cost(Reverse(hops), 0) <= t.dists[to]
    && (forall i :: 1 <= i <= |hops| ==> TokenAt(curr, Reverse(hops), i) in visited)
    && (forall x :: x in visited ==> Before(t.dists, stamps, curr, x))
    && Simple(curr, Reverse(hops))
  }

  lemma BacktraceStep(
    adj: Adjacency, from: Token, t: Tables, g: Trace,
    to: Token, curr: Token, hops: seq<SwapHop>, visited: set<Token>)
    requires FeesFit(adj, from) && Sound(adj, from, t, g)
    requires Backtrace(adj, t, g.stamps, to, curr, hops, visited) && curr in t.parent
    ensures Backtrace(adj, t, g.stamps, to, t.parent[curr].0, hops + [ParentHop(t.parent, curr)], visited + {curr})
  {
    var hop, prev, rest := ParentHop(t.parent, curr), t.parent[curr].0, Reverse(hops);
    assert Link(adj, t, g.stamps, curr) && HasWalk(adj, from, t.dists, prev);
    ReverseSnoc(hops, hop);
    WalkCons(adj, hop, rest, 0);
    FeeFits(adj, from, hop);
    forall x | x in visited + {curr}
      ensures Before(t.dists, g.stamps, prev, x)
    {
    }
    forall i | 1 <= i <= |hops| + 1
      ensures TokenAt(prev, [hop] + rest, i) in visited + {curr}
    {
      assert TokenAt(prev, [hop] + rest, i) == TokenAt(curr, rest, i - 1);
    }
    SimpleCons(hop, rest);
  }

  // ----- the invariant

  /** `p` ranks before `x`: a smaller distance, or the same distance written earlier. */
  ghost predicate Before(dists: Distances, stamps: Stamps, p: Token, x: Token) {
    && p in dists && x in dists && p in stamps && x in stamps
    && (dists[p] < dists[x] || (dists[p] == dists[x] && stamps[p] < stamps[x]))
  }

  /** The parent of `x` is an arc's source whose distance explains the distance of `x`, and it ranks before `x`. */
  ghost predicate Link(adj: Adjacency, t: Tables, stamps: Stamps, x: Token)
    requires x in t.parent
  {
    var (p, edge) := t.parent[x];
    && IsArc(adj, ParentHop(t.parent, x))
    && p in t.dists && x in t.dists
    && t.dists[p] + AsI64(edge.feeRate) <= t.dists[x]
    && Before(t.dists, stamps, p, x)
    && (t.dists[p] + AsI64(edge.feeRate) == t.dists[x] ==> stamps[p] < stamps[x])
  }

  /** `w` leads to `x` at the recorded distance, and no token on it has a larger distance than `w` gives it. */
  ghost predicate IsRecorded(adj: Adjacency, from: Token, dists: Distances, x: Token, w: seq<SwapHop>) {
    && IsWalkTo(adj, from, x, w) && Simple(from, w)
    && x in dists && dists[x] == Cost(w, 0)
    && forall i :: 0 <= i <= |w| ==> TokenAt(from, w, i) in dists && dists[TokenAt(from, w, i)] <= dists[x]
  }

  ghost predicate HasWalk(adj: Adjacency, from: Token, dists: Distances, x: Token): (b: bool)
    ensures b ==> x in dists && 0 <= dists[x] && Reachable(adj, from, x)
  {
    exists w :: IsRecorded(adj, from, dists, x, w)
  }

  ghost predicate Sound(adj: Adjacency, from: Token, t: Tables, g: Trace) {
    && from in t.dists && t.dists[from] == 0
    && (forall x {:trigger HasWalk(adj, from, t.dists, x)} :: x in t.dists ==> HasWalk(adj, from, t.dists, x))
    && t.parent.Keys == t.dists.Keys - {from}
    && g.stamps.Keys == t.dists.Keys
    && (forall x :: x in g.stamps ==> g.stamps[x] < g.clock)
    && (forall x {:trigger Link(adj, t, g.stamps, x)} :: x in t.parent ==> Link(adj, t, g.stamps, x))
  }

  /** No fee has been misread and no sum has wrapped. */
  ghost predicate Plain(adj: Adjacency, from: Token, g: Trace) {
    FeesFit(adj, from) && !g.wrapped
  }

  ghost predicate Kept(adj: Adjacency, from: Token, t: Tables, g: Trace) {
    && (Plain(adj, from, g) ==> Sound(adj, from, t, g))
    && (SimpleSumsBelow(adj, from, 0, WORD / 2) ==> !g.wrapped)
  }

  lemma StartSound(adj: Adjacency, from: Token)
    ensures Sound(adj, from, Tables(map[from := 0], map[]), Trace(map[from := 0], 1, false))
  {
    assert IsRecorded(adj, from, map[from := 0], from, []);
  }

  /** Distances only ever shrink. */
  ghost predicate Lower(before: Distances, after: Distances) {
    forall x :: x in before ==> x in after && after[x] <= before[x]
  }

  /** The distance `u` had in `before` has been offered along its first `n` arcs. */
  ghost predicate Offered(adj: Adjacency, before: Distances, after: Distances, u: Token, n: nat)
    requires n <= |Outgoing(adj, u)|
  {
    u in before && forall k :: 0 <= k < n ==> ArcOffered(before[u], after, Outgoing(adj, u)[k])
  }

  ghost predicate ArcOffered(uDist: int, after: Distances, arc: Arc) {
    arc.0 in after && after[arc.0] <= uDist + AsI64(arc.1.feeRate)
  }

  ghost predicate Covered(from: Token, dists: Distances, w: seq<SwapHop>) {
    End(from, w) in dists && dists[End(from, w)] <= Cost(w, 0)
  }

  ghost predicate CoversUpTo(adj: Adjacency, from: Token, dists: Distances, k: nat) {
    forall w {:trigger Covered(from, dists, w)} :: IsWalk(adj, from, w) && |w| <= k ==> Covered(from, dists, w)
  }

  ghost predicate CoversAll(adj: Adjacency, from: Token, dists: Distances) {
    forall w {:trigger Covered(from, dists, w)} :: IsWalk(adj, from, w) ==> Covered(from, dists, w)
  }

  lemma FeeFits(adj: Adjacency, from: Token, hop: SwapHop)
    requires FeesFit(adj, from) && IsArc(adj, hop) && Reachable(adj, from, hop.inputToken)
    ensures AsI64(hop.feeRate) == hop.feeRate
  {
    var arc: Arc := (hop.outputToken, Edge(hop.poolId, hop.dexName, hop.feeRate));
    var k :| 0 <= k < |Outgoing(adj, hop.inputToken)| && Outgoing(adj, hop.inputToken)[k] == arc;
    assert FeeFitsAt(adj, hop.inputToken, k);
  }

  /** Recording an improvement keeps the parent links ranked, even along zero-fee arcs. */
  lemma RecordKeeps(adj: Adjacency, from: Token, t: Tables, g: Trace, u: Token, i: nat)
    requires FeesFit(adj, from) && Sound(adj, from, t, g)
    requires u in t.dists && i < |Outgoing(adj, u)|
    requires SumFits(t.dists[u], Outgoing(adj, u)[i].1.feeRate)
    requires Improves(t.dists, t.dists[u], Outgoing(adj, u)[i])
    ensures var arc := Outgoing(adj, u)[i];
      && arc.0 != u
      && Sound(adj, from, Record(t, u, t.dists[u], arc), Trace(g.stamps[arc.0 := g.clock], g.clock + 1, g.wrapped))
  {
    var arc := Outgoing(adj, u)[i];
    var v := arc.0;
    assert IsArc(adj, HopOf(u, arc));
    assert HasWalk(adj, from, t.dists, u);
    FeeFits(adj, from, HopOf(u, arc));
    var t' := Record(t, u, t.dists[u], arc);
    var stamps' := g.stamps[v := g.clock];
    RecordWalks(adj, from, t.dists, t'.dists, u, arc);
    forall x | x in t'.parent
      ensures Link(adj, t', stamps', x)
    {
      RecordLinks(adj, from, t, g, u, arc, x);
    }
  }

  lemma RecordLinks(adj: Adjacency, from: Token, t: Tables, g: Trace, u: Token, arc: Arc, x: Token)
    requires FeesFit(adj, from) && Sound(adj, from, t, g) && u in t.dists && IsArc(adj, HopOf(u, arc))
    requires Sum(t.dists[u], arc.1.feeRate) == t.dists[u] + arc.1.feeRate
    requires AsI64(arc.1.feeRate) == arc.1.feeRate && arc.0 != u && Improves(t.dists, t.dists[u], arc)
    requires x in Record(t, u, t.dists[u], arc).parent
    ensures Link(adj, Record(t, u, t.dists[u], arc), g.stamps[arc.0 := g.clock], x)
  {
    var t' := Record(t, u, t.dists[u], arc);
    if x == arc.0 {
      assert ParentHop(t'.parent, x) == HopOf(u, arc);
    } else {
      assert Link(adj, t, g.stamps, x) && HasWalk(adj, from, t.dists, t.parent[x].0);
      assert ParentHop(t'.parent, x) == ParentHop(t.parent, x);
      FeeFits(adj, from, ParentHop(t.parent, x));
    }
  }

  /** The improved token is on no walk that led to `u`, so its new walk is simple; all other walks stay. */
  lemma RecordWalks(adj: Adjacency, from: Token, dists: Distances, after: Distances, u: Token, arc: Arc)
    requires from in dists && dists[from] == 0 && u in dists && IsArc(adj, HopOf(u, arc))
    requires forall x {:trigger HasWalk(adj, from, dists, x)} :: x in dists ==> HasWalk(adj, from, dists, x)
    requires arc.0 !in dists || dists[u] + arc.1.feeRate < dists[arc.0]
    requires after == dists[arc.0 := dists[u] + arc.1.feeRate]
    ensures arc.0 != u && arc.0 != from
    ensures forall x {:trigger HasWalk(adj, from, after, x)} :: x in after ==> HasWalk(adj, from, after, x)
  {
    var v, hop := arc.0, HopOf(u, arc);
    assert HasWalk(adj, from, dists, u);
    var w :| IsRecorded(adj, from, dists, u, w);
    forall x | x in after
      ensures HasWalk(adj, from, after, x)
    {
      if x != v {
        assert HasWalk(adj, from, dists, x);
        var wx :| IsRecorded(adj, from, dists, x, wx);
        assert IsRecorded(adj, from, after, x, wx);
      } else {
        WalkSnoc(adj, from, w, hop);
        assert IsRecorded(adj, from, after, v, w + [hop]);
      }
    }
  }

  lemma WalkSnoc(adj: Adjacency, from: Token, w: seq<SwapHop>, hop: SwapHop)
    requires IsWalkTo(adj, from, hop.inputToken, w) && IsArc(adj, hop)
    ensures IsWalkTo(adj, from, hop.outputToken, w + [hop])
    ensures Cost(w + [hop], 0) == Cost(w, 0) + hop.feeRate
    ensures forall i :: 0 <= i <= |w| ==> TokenAt(from, w + [hop], i) == TokenAt(from, w, i)
  {
    assert Follows(adj, hop.inputToken, [hop], 0);
    WalkConcat(adj, from, w, [hop]);
    assert (w + [hop])[..|w|] == w;
  }

  lemma OfferedLater(
    adj: Adjacency, d0: Distances, before: Distances, after: Distances, done: set<Token>, u: Token)
    requires Lower(d0, before) && Lower(before, after)
    requires forall x :: x in done && x in d0 ==> Offered(adj, d0, before, x, |Outgoing(adj, x)|)
    requires Offered(adj, before, after, u, |Outgoing(adj, u)|)
    ensures forall x :: x in done + {u} && x in d0 ==> Offered(adj, d0, after, x, |Outgoing(adj, x)|)
  {
    forall x, k | x in done + {u} && x in d0 && 0 <= k < |Outgoing(adj, x)|
      ensures ArcOffered(d0[x], after, Outgoing(adj, x)[k])
    {
      if x in done {
        assert Offered(adj, d0, before, x, |Outgoing(adj, x)|);
        assert ArcOffered(d0[x], before, Outgoing(adj, x)[k]);
      } else {
        assert ArcOffered(before[x], after, Outgoing(adj, x)[k]);
      }
    }
  }

  /** A full round extends the covered walks by one hop. */
  lemma RoundCovers(adj: Adjacency, from: Token, before: Distances, after: Distances, k: nat)
    requires FeesFit(adj, from)
    requires CoversUpTo(adj, from, before, k) && Lower(before, after)
    requires forall u :: u in Vertices(adj) && u in before ==> Offered(adj, before, after, u, |Outgoing(adj, u)|)
    ensures CoversUpTo(adj, from, after, k + 1)
  {
    forall w | IsWalk(adj, from, w) && |w| <= k + 1
      ensures Covered(from, after, w)
    {
      if |w| <= k {
        assert Covered(from, before, w);
      } else {
        WalkPrefix(adj, from, w, k);
        assert Covered(from, before, w[..k]);
        ExtendCover(adj, from, before, after, w);
      }
    }
  }

  lemma ExtendCover(adj: Adjacency, from: Token, before: Distances, after: Distances, w: seq<SwapHop>)
    requires FeesFit(adj, from) && IsWalk(adj, from, w) && w != []
    requires Covered(from, before, w[..|w| - 1])
    requires forall u :: u in Vertices(adj) && u in before ==> Offered(adj, before, after, u, |Outgoing(adj, u)|)
    ensures Covered(from, after, w)
  {
    var n := |w| - 1;
    var hop := w[n];
    WalkPrefix(adj, from, w, n);
    assert Follows(adj, from, w, n);
    assert IsWalkTo(adj, from, hop.inputToken, w[..n]);
    ArcEnds(adj, hop);
    FeeFits(adj, from, hop);
    var u := hop.inputToken;
    var arc: Arc := (hop.outputToken, Edge(hop.poolId, hop.dexName, hop.feeRate));
    var k :| 0 <= k < |Outgoing(adj, u)| && Outgoing(adj, u)[k] == arc;
    assert Offered(adj, before, after, u, |Outgoing(adj, u)|);
    assert ArcOffered(before[u], after, Outgoing(adj, u)[k]);
  }

  /** A round that changed nothing proves every walk covered. */
  lemma QuietRoundCovers(adj: Adjacency, from: Token, dists: Distances)
    requires FeesFit(adj, from) && from in dists && dists[from] == 0
    requires forall u :: u in Vertices(adj) && u in dists ==> Offered(adj, dists, dists, u, |Outgoing(adj, u)|)
    ensures CoversAll(adj, from, dists)
  {
    forall w | IsWalk(adj, from, w)
      ensures Covered(from, dists, w)
    {
      QuietWalk(adj, from, dists, w);
    }
  }

  lemma {:induction false} QuietWalk(adj: Adjacency, from: Token, dists: Distances, w: seq<SwapHop>)
    requires FeesFit(adj, from) && from in dists && dists[from] == 0 && IsWalk(adj, from, w)
    requires forall u :: u in Vertices(adj) && u in dists ==> Offered(adj, dists, dists, u, |Outgoing(adj, u)|)
    ensures Covered(from, dists, w)
  {
    if w != [] {
      WalkPrefix(adj, from, w, |w| - 1);
      QuietWalk(adj, from, dists, w[..|w| - 1]);
      ExtendCover(adj, from, dists, dists, w);
    }
  }

  /** V-1 rounds suffice: every walk has a simple shortcut of at most V-1 hops. */
  lemma LastRoundCovers(adj: Adjacency, from: Token, dists: Distances, k: nat)
    requires CoversUpTo(adj, from, dists, k) && |Vertices(adj)| - 1 <= k
    ensures CoversAll(adj, from, dists)
  {
    forall w | IsWalk(adj, from, w)
      ensures Covered(from, dists, w)
    {
      var s := Simplify(adj, from, w, 0);
      if s != [] {
        SimpleIsShort(adj, from, s);
      }
      assert Covered(from, dists, s);
    }
  }

  lemma NoArcImproves(adj: Adjacency, from: Token, t: Tables, g: Trace, u: Token, i: nat)
    requires FeesFit(adj, from) && Sound(adj, from, t, g) && CoversAll(adj, from, t.dists)
    requires u in t.dists && i < |Outgoing(adj, u)| && SumFits(t.dists[u], Outgoing(adj, u)[i].1.feeRate)
    ensures !Improves(t.dists, t.dists[u], Outgoing(adj, u)[i])
  {
    var hop := HopOf(u, Outgoing(adj, u)[i]);
    assert IsArc(adj, hop);
    assert HasWalk(adj, from, t.dists, u);
    FeeFits(adj, from, hop);
    var w :| IsRecorded(adj, from, t.dists, u, w);
    WalkSnoc(adj, from, w, hop);
    assert Covered(from, t.dists, w + [hop]);
  }

  /** A token not on a simple walk can be put in front of it. */
  lemma SimpleCons(hop: SwapHop, rest: seq<SwapHop>)
    requires Simple(hop.outputToken, rest)
    requires forall i :: 0 <= i <= |rest| ==> TokenAt(hop.outputToken, rest, i) != hop.inputToken
    ensures Simple(hop.inputToken, [hop] + rest)
  {
    var all := [hop] + rest;
    assert forall i :: 1 <= i <= |all| ==> TokenAt(hop.inputToken, all, i) == TokenAt(hop.outputToken, rest, i - 1);
  }
}

/** Hop-limited depth-first enumeration of simple paths (src/router.rs, `find_all_paths_dfs`). */
module PathEnumeration {
  import opened Models
  import opened TokenGraphs
  import opened Walks

  /** The three collections the recursive helper shares and updates in place. */
  class DfsState {
    var visited: set<Token>
    var currentPath: seq<SwapHop>
    var paths: seq<RoutePath>

    constructor ()
      ensures visited == {} && currentPath == [] && paths == []
    {
      visited, currentPath, paths := {}, [], [];
    }

    /** Appends every admissible extension of the current path and restores `visited` and `currentPath`. */
    method DfsHelper(adj: Adjacency, current: Token, target: Token, maxHops: nat)
      requires current !in visited
      modifies this
      ensures visited == old(visited) && currentPath == old(currentPath)
      ensures paths == old(paths) + Extensions(adj, current, target, maxHops, old(visited), old(currentPath))
      decreases maxHops - |currentPath|, 1
    {
      if current == target {
        if currentPath != [] {
          paths := paths + [RoutePath(currentPath)];
        }
        return;
      }
      if |currentPath| >= maxHops {
        return;
      }
      visited := visited + {current};
      var edges := Outgoing(adj, current);
      ghost var goal := paths + ExtensionsAlong(adj, current, target, maxHops, visited, currentPath, 0);
      var i := 0;
      while i < |edges|
        invariant i <= |edges|
        invariant visited == old(visited) + {current} && currentPath == old(currentPath)
        invariant paths + ExtensionsAlong(adj, current, target, maxHops, visited, currentPath, i) == goal
      {
        ghost var before := paths;
        var (nextToken, edge) := edges[i];
        if nextToken !in visited {
          var hop := SwapHop(edge.poolId, edge.dexName, current, nextToken, edge.feeRate);
          currentPath := currentPath + [hop];
          DfsHelper(adj, nextToken, target, maxHops);
          currentPath := currentPath[..|currentPath| - 1];
        }
        AlongNext(adj, current, target, maxHops, visited, currentPath, i, before);
        i := i + 1;
      }
      visited := visited - {current};
    }
  }

  /** One arc's extensions, then those of the arcs after it. */
  lemma AlongNext(
    adj: Adjacency, current: Token, target: Token, maxHops: nat, visited: set<Token>, path: seq<SwapHop>, i: nat,
    front: seq<RoutePath>)
    requires |path| < maxHops && i < |Outgoing(adj, current)|
    ensures var arc := Outgoing(adj, current)[i];
      var now := if arc.0 in visited then front
                 else front + Extensions(adj, arc.0, target, maxHops, visited, path + [HopOf(current, arc)]);
      now + ExtensionsAlong(adj, current, target, maxHops, visited, path, i + 1)
      == front + ExtensionsAlong(adj, current, target, maxHops, visited, path, i)
  {
  }

  method FindAllPathsDfs(adj: Adjacency, from: Token, to: Token, maxHops: nat) returns (paths: seq<RoutePath>)
    ensures forall p :: RoutePath(p) in paths <==> IsSimplePath(adj, from, to, maxHops, p)
    ensures NoParallelCopies(adj) ==> forall i, j :: 0 <= i < j < |paths| ==> paths[i] != paths[j]
  {
    var state := new DfsState();
    state.DfsHelper(adj, from, to, maxHops);
    paths := state.paths;
    assert paths == Extensions(adj, from, to, maxHops, {}, []);
    forall p
      ensures RoutePath(p) in paths <==> IsSimplePath(adj, from, to, maxHops, p)
    {
      if RoutePath(p) in paths {
        ExtensionsSound(adj, from, to, maxHops, {}, [], RoutePath(p));
      }
      if IsSimplePath(adj, from, to, maxHops, p) {
        ExtensionsComplete(adj, from, to, maxHops, {}, [], p);
        assert [] + p == p;
      }
    }
    if NoParallelCopies(adj) {
      ExtensionsDistinct(adj, from, to, maxHops, {}, []);
    }
  }

  /** A simple path of 1 to `maxHops` hops. */
  ghost predicate IsSimplePath(adj: Adjacency, from: Token, to: Token, maxHops: nat, p: seq<SwapHop>) {
    IsWalkTo(adj, from, to, p) && Simple(from, p) && 1 <= |p| <= maxHops
  }

  // ----- the enumeration as a function

  /** The complete paths that extend `path`, which currently ends at `current`. */
  function Extensions(
    adj: Adjacency, current: Token, target: Token, maxHops: nat, visited: set<Token>, path: seq<SwapHop>)
    : seq<RoutePath>
    decreases maxHops - |path|, 1, 0
  {
    if current == target then
      if path != [] then [RoutePath(path)] else []
    else if |path| >= maxHops then []
    else ExtensionsAlong(adj, current, target, maxHops, visited + {current}, path, 0)
  }

  /** Those that leave `current` along its arcs from index `i` on. */
  function ExtensionsAlong(
    adj: Adjacency, current: Token, target: Token, maxHops: nat, visited: set<Token>, path: seq<SwapHop>, i: nat)
    : seq<RoutePath>
    requires |path| < maxHops && i <= |Outgoing(adj, current)|
    decreases maxHops - |path|, 0, |Outgoing(adj, current)| - i
  {
    var edges := Outgoing(adj, current);
    if i == |edges| then []
    else
      (if edges[i].0 !in visited then
         Extensions(adj, edges[i].0, target, maxHops, visited, path + [HopOf(current, edges[i])])
       else [])
      + ExtensionsAlong(adj, current, target, maxHops, visited, path, i + 1)
  }

  /** `q` leads from `current` to `target` through tokens outside `visited`, each at most once. */
  ghost predicate IsAdmissible(adj: Adjacency, current: Token, target: Token, visited: set<Token>, q: seq<SwapHop>) {
    && IsWalkTo(adj, current, target, q) && Simple(current, q)
    && forall i :: 0 <= i <= |q| ==> TokenAt(current, q, i) !in visited
  }

  /** `r` is `path` followed by an admissible extension within the hop limit. */
  ghost predicate IsExtension(
    adj: Adjacency, current: Token, target: Token, maxHops: nat, visited: set<Token>, path: seq<SwapHop>, r: RoutePath)
  {
    && path <= r.hops && r.hops != [] && (|r.hops| <= maxHops || r.hops == path)
    && IsAdmissible(adj, current, target, visited, r.hops[|path|..])
  }

  lemma {:induction false} ExtensionsSound(
    adj: Adjacency, current: Token, target: Token, maxHops: nat, visited: set<Token>, path: seq<SwapHop>, r: RoutePath)
    requires current !in visited
    requires r in Extensions(adj, current, target, maxHops, visited, path)
    ensures IsExtension(adj, current, target, maxHops, visited, path, r)
    decreases maxHops - |path|, 1, 0
  {
    if current != target {
      ExtensionsAlongSound(adj, current, target, maxHops, visited, path, 0, r);
    }
  }

  lemma {:induction false} ExtensionsAlongSound(
    adj: Adjacency, current: Token, target: Token, maxHops: nat, visited: set<Token>, path: seq<SwapHop>, i: nat,
    r: RoutePath)
    requires current !in visited && |path| < maxHops && i <= |Outgoing(adj, current)|
    requires r in ExtensionsAlong(adj, current, target, maxHops, visited + {current}, path, i)
    ensures IsExtension(adj, current, target, maxHops, visited, path, r)
    ensures exists k :: i <= k < |Outgoing(adj, current)| && Takes(adj, current, visited, path, r, k)
    decreases maxHops - |path|, 0, |Outgoing(adj, current)| - i
  {
    var edges := Outgoing(adj, current);
    if r in ExtensionsAlong(adj, current, target, maxHops, visited + {current}, path, i + 1) {
      ExtensionsAlongSound(adj, current, target, maxHops, visited, path, i + 1, r);
    } else {
      var hop := HopOf(current, edges[i]);
      ExtensionsSound(adj, edges[i].0, target, maxHops, visited + {current}, path + [hop], r);
      ConsAdmissible(adj, target, visited, hop, r.hops[|path| + 1..]);
      assert r.hops[|path|] == (path + [hop])[|path|];
      assert r.hops[|path|..] == [hop] + r.hops[|path| + 1..];
      assert Takes(adj, current, visited, path, r, i);
    }
  }

  /** After `path`, route `r` continues along arc `k` out of `current`. */
  ghost predicate Takes(
    adj: Adjacency, current: Token, visited: set<Token>, path: seq<SwapHop>, r: RoutePath, k: nat)
    requires k < |Outgoing(adj, current)|
  {
    && |path| < |r.hops| && r.hops[|path|] == HopOf(current, Outgoing(adj, current)[k])
    && Outgoing(adj, current)[k].0 !in visited + {current}
  }

  lemma ConsAdmissible(adj: Adjacency, target: Token, visited: set<Token>, hop: SwapHop, q: seq<SwapHop>)
    requires IsArc(adj, hop) && hop.inputToken !in visited
    requires IsAdmissible(adj, hop.outputToken, target, visited + {hop.inputToken}, q)
    ensures IsAdmissible(adj, hop.inputToken, target, visited, [hop] + q)
  {
    WalkCons(adj, hop, q, 0);
    assert forall i :: 1 <= i <= |q| + 1 ==>
      TokenAt(hop.inputToken, [hop] + q, i) == TokenAt(hop.outputToken, q, i - 1);
  }

  lemma {:induction false} ExtensionsComplete(
    adj: Adjacency, current: Token, target: Token, maxHops: nat, visited: set<Token>, path: seq<SwapHop>,
    q: seq<SwapHop>)
    requires IsAdmissible(adj, current, target, visited, q)
    requires 1 <= |path| + |q| <= maxHops
    ensures RoutePath(path + q) in Extensions(adj, current, target, maxHops, visited, path)
    decreases |q|
  {
    if q == [] {
      assert path + q == path;
    } else {
      assert TokenAt(current, q, 0) != TokenAt(current, q, |q|);
      assert Follows(adj, current, q, 0);
      var arc: Arc := (q[0].outputToken, Edge(q[0].poolId, q[0].dexName, q[0].feeRate));
      var k :| 0 <= k < |Outgoing(adj, current)| && Outgoing(adj, current)[k] == arc;
      assert q[0] == HopOf(current, arc);
      TailAdmissible(adj, current, target, visited, q);
      ExtensionsComplete(adj, arc.0, target, maxHops, visited + {current}, path + [q[0]], q[1..]);
      assert path + [q[0]] + q[1..] == path + q;
      assert TokenAt(current, q, 1) == arc.0 && arc.0 !in visited + {current};
      AlongContains(adj, current, target, maxHops, visited + {current}, path, 0, k, RoutePath(path + q));
    }
  }

  lemma TailAdmissible(adj: Adjacency, current: Token, target: Token, visited: set<Token>, q: seq<SwapHop>)
    requires IsAdmissible(adj, current, target, visited, q) && q != []
    ensures IsAdmissible(adj, q[0].outputToken, target, visited + {current}, q[1..])
  {
    WalkSuffix(adj, current, q, 1);
    assert TokenAt(current, q, 1) == q[0].outputToken;
    forall i | 0 <= i <= |q| - 1
      ensures TokenAt(q[0].outputToken, q[1..], i) == TokenAt(current, q, i + 1)
    {
    }
    assert TokenAt(current, q, 0) == current;
  }

  lemma {:induction false} AlongContains(
    adj: Adjacency, current: Token, target: Token, maxHops: nat, visited: set<Token>, path: seq<SwapHop>,
    i: nat, k: nat, r: RoutePath)
    requires |path| < maxHops && i <= k < |Outgoing(adj, current)|
    requires Outgoing(adj, current)[k].0 !in visited
    requires r in Extensions(adj, Outgoing(adj, current)[k].0, target, maxHops, visited,
                             path + [HopOf(current, Outgoing(adj, current)[k])])
    ensures r in ExtensionsAlong(adj, current, target, maxHops, visited, path, i)
    decreases k - i
  {
    if i < k {
      AlongContains(adj, current, target, maxHops, visited, path, i + 1, k, r);
    }
  }

  ghost predicate Distinct<T>(s: seq<T>) {
    forall i, j :: 0 <= i < j < |s| ==> s[i] != s[j]
  }

  lemma {:induction false} ExtensionsDistinct(
    adj: Adjacency, current: Token, target: Token, maxHops: nat, visited: set<Token>, path: seq<SwapHop>)
    requires NoParallelCopies(adj) && current !in visited
    ensures Distinct(Extensions(adj, current, target, maxHops, visited, path))
    decreases maxHops - |path|, 1, 0
  {
    if current != target && |path| < maxHops {
      ExtensionsAlongDistinct(adj, current, target, maxHops, visited, path, 0);
    }
  }

  lemma {:induction false} ExtensionsAlongDistinct(
    adj: Adjacency, current: Token, target: Token, maxHops: nat, visited: set<Token>, path: seq<SwapHop>, i: nat)
    requires NoParallelCopies(adj) && current !in visited && |path| < maxHops && i <= |Outgoing(adj, current)|
    ensures Distinct(ExtensionsAlong(adj, current, target, maxHops, visited + {current}, path, i))
    decreases maxHops - |path|, 0, |Outgoing(adj, current)| - i
  {
    var edges := Outgoing(adj, current);
    if i < |edges| {
      var seen := visited + {current};
      var rest := ExtensionsAlong(adj, current, target, maxHops, seen, path, i + 1);
      ExtensionsAlongDistinct(adj, current, target, maxHops, visited, path, i + 1);
      if edges[i].0 !in seen {
        var hop := HopOf(current, edges[i]);
        var first := Extensions(adj, edges[i].0, target, maxHops, seen, path + [hop]);
        ExtensionsDistinct(adj, edges[i].0, target, maxHops, seen, path + [hop]);
        forall a, b | 0 <= a < |first| && 0 <= b < |rest|
          ensures first[a] != rest[b]
        {
          ExtensionsSound(adj, edges[i].0, target, maxHops, seen, path + [hop], first[a]);
          assert first[a].hops[|path|] == (path + [hop])[|path|];
          ExtensionsAlongSound(adj, current, target, maxHops, visited, path, i + 1, rest[b]);
          var k :| i + 1 <= k < |edges| && Takes(adj, current, visited, path, rest[b], k);
          assert edges[i] != edges[k];
        }
        ConcatDistinct(first, rest);
      } else {
        assert [] + rest == rest;
      }
    }
  }

  lemma ConcatDistinct<T>(a: seq<T>, b: seq<T>)
    requires Distinct(a) && Distinct(b)
    requires forall i, j :: 0 <= i < |a| && 0 <= j < |b| ==> a[i] != b[j]
    ensures Distinct(a + b)
  {
  }
}

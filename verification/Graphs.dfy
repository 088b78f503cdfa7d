/** Overlay graphs, walks and distances.

    A node is named by the rank of its name in lexicographic order, so comparing
    nodes is comparing names. */
module Graphs {

  type Node = nat
  type Graph = map<Node, seq<Node>>

  /** Every neighbour is itself a node. */
  ghost predicate Closed(g: Graph)
  {
    forall u, v :: u in g && v in g[u] ==> v in g
  }

  /** A walk of exactly `k` edges. */
  ghost predicate Walk(g: Graph, a: Node, b: Node, k: nat)
    decreases k
  {
    if k == 0 then a == b else exists m: Node :: m in g && Walk(g, a, m, k - 1) && b in g[m]
  }

  ghost predicate Reachable(g: Graph, a: Node, b: Node)
  {
    exists k: nat :: Walk(g, a, b, k)
  }

  /** `k` is the length of a shortest walk. */
  ghost predicate Dist(g: Graph, a: Node, b: Node, k: nat)
  {
    Walk(g, a, b, k) && forall j: nat :: j < k ==> !Walk(g, a, b, j)
  }

  lemma DistUnique(g: Graph, a: Node, b: Node, j: nat, k: nat)
    requires Dist(g, a, b, j) && Dist(g, a, b, k)
    ensures j == k
  {
  }

  lemma {:induction false} DistExists(g: Graph, a: Node, b: Node, k: nat) returns (d: nat)
    requires Walk(g, a, b, k)
    ensures d <= k && Dist(g, a, b, d)
    decreases k
  {
    if j: nat :| j < k && Walk(g, a, b, j) {
      d := DistExists(g, a, b, j);
    } else {
      d := k;
    }
  }

  lemma {:induction false} WalkPrepend(g: Graph, a: Node, f: Node, b: Node, k: nat)
    requires a in g && f in g[a] && Walk(g, f, b, k)
    ensures Walk(g, a, b, k + 1)
    decreases k
  {
    if k == 0 {
      assert Walk(g, a, a, 0);
    } else {
      var m: Node :| m in g && Walk(g, f, m, k - 1) && b in g[m];
      WalkPrepend(g, a, f, m, k - 1);
    }
  }

  lemma {:induction false} WalkFirst(g: Graph, a: Node, b: Node, k: nat) returns (f: Node)
    requires Walk(g, a, b, k + 1)
    ensures a in g && f in g[a] && Walk(g, f, b, k)
    decreases k
  {
    var m: Node :| m in g && Walk(g, a, m, k) && b in g[m];
    if k == 0 {
      f := b;
    } else {
      f := WalkFirst(g, a, m, k - 1);
    }
  }

  lemma {:induction false} WalkInGraph(g: Graph, a: Node, b: Node, k: nat)
    requires Closed(g) && a in g && Walk(g, a, b, k)
    ensures b in g
  {
    if k > 0 {
      var m: Node :| m in g && Walk(g, a, m, k - 1) && b in g[m];
    }
  }

  /** A neighbour of `a` is at most one step closer to anything. */
  lemma NeighbourDist(g: Graph, a: Node, f: Node, b: Node, d: nat)
    requires a in g && f in g[a] && Dist(g, a, b, d + 1) && Walk(g, f, b, d)
    ensures Dist(g, f, b, d)
  {
    forall j: nat | j < d
      ensures !Walk(g, f, b, j)
    {
      if Walk(g, f, b, j) {
        WalkPrepend(g, a, f, b, j);
      }
    }
  }

  // --- Next-hop tables -----------------------------------------------------------

  /** `h` starts a shortest walk from `src` to `v`, and is the least neighbour that does. */
  ghost predicate BestHop(g: Graph, src: Node, v: Node, h: Node)
  {
    exists d: nat :: BestHopAt(g, src, v, h, d)
  }

  ghost predicate BestHopAt(g: Graph, src: Node, v: Node, h: Node, d: nat)
  {
    && Dist(g, src, v, d + 1)
    && src in g && h in g[src] && Dist(g, h, v, d)
    && forall f: Node :: f in g[src] && Walk(g, f, v, d) ==> h <= f
  }

  /** The table promised for `src`: an entry exactly for what is reachable, on a
      shortest path, ties broken by the least name. */
  ghost predicate Canonical(g: Graph, src: Node, table: map<Node, Node>)
  {
    && (forall v: Node :: v in table <==> Reachable(g, src, v))
    && src in table && table[src] == src
    && (forall v: Node :: v in table && v != src ==> BestHop(g, src, v, table[v]))
  }

  /** The promise determines the table, so it is the same across runs. */
  lemma CanonicalUnique(g: Graph, src: Node, s: map<Node, Node>, t: map<Node, Node>)
    requires Canonical(g, src, s) && Canonical(g, src, t)
    ensures s == t
  {
    forall v: Node
      ensures v in s <==> v in t
      ensures v in s ==> s[v] == t[v]
    {
      assert v in s <==> Reachable(g, src, v);
      assert v in t <==> Reachable(g, src, v);
      if v in s && v != src {
        var d: nat :| BestHopAt(g, src, v, s[v], d);
        var e: nat :| BestHopAt(g, src, v, t[v], e);
        DistUnique(g, src, v, d + 1, e + 1);
      }
    }
    assert s.Keys == t.Keys;
  }

  // --- Adjacency lists -------------------------------------------------------------

  /** `u` and `v` are joined by one of the edges, in either direction. */
  predicate Joined(edges: seq<(Node, Node)>, u: Node, v: Node)
  {
    (u, v) in edges || (v, u) in edges
  }

  /** `g` has the given nodes, and the neighbour lists of the edge list, without repetition. */
  ghost predicate AdjacencyOf(g: Graph, nodes: seq<Node>, edges: seq<(Node, Node)>)
  {
    && (forall n: Node :: n in g <==> n in nodes)
    && (forall u: Node, v: Node :: u in g ==> (v in g[u] <==> Joined(edges, u, v)))
    && (forall u: Node :: u in g ==> NoRepeats(g[u]))
  }

  ghost predicate NoRepeats(s: seq<Node>)
  {
    forall i, j :: 0 <= i < j < |s| ==> s[i] != s[j]
  }

  method AddNeighbour(adj: Graph, a: Node, b: Node) returns (grown: Graph)
    requires a in adj && NoRepeats(adj[a])
    ensures grown.Keys == adj.Keys && (forall u :: u in adj && u != a ==> grown[u] == adj[u])
    ensures NoRepeats(grown[a]) && forall v :: v in grown[a] <==> v in adj[a] || v == b
  {
    grown := adj;
    if b !in adj[a] {
      grown := adj[a := adj[a] + [b]];
    }
  }

  /** build_adj: each edge is entered in both directions, once. */
  method BuildAdj(nodes: seq<Node>, edges: seq<(Node, Node)>) returns (adj: Graph)
    requires forall e :: e in edges ==> e.0 in nodes && e.1 in nodes
    ensures AdjacencyOf(adj, nodes, edges) && Closed(adj)
    ensures forall u: Node, v: Node :: u in adj && v in adj[u] ==> v in adj && u in adj[v]
  {
    adj := map n | n in nodes :: [];
    for k := 0 to |edges|
      invariant AdjacencyOf(adj, nodes, edges[..k])
    {
      var (a, b) := edges[k];
      ghost var before := adj;
      assert edges[k] in edges;
      adj := AddNeighbour(adj, a, b);
      adj := AddNeighbour(adj, b, a);
      assert edges[..k + 1] == edges[..k] + [(a, b)];
      forall u: Node, v: Node | u in adj
        ensures v in adj[u] <==> Joined(edges[..k + 1], u, v)
      {
        assert v in before[u] <==> Joined(edges[..k], u, v);
      }
    }
    assert edges[..|edges|] == edges;
    forall u: Node, v: Node | u in adj && v in adj[u]
      ensures v in adj && u in adj[v]
    {
      assert Joined(edges, u, v);
    }
  }
}

/** bfs_next_hop of py/topology/generator.py, proved to build the canonical table. */
module Bfs {
  import opened Graphs

  // --- sorted() -----------------------------------------------------------------------

  ghost predicate Ascending(s: seq<Node>)
  {
    forall i, j :: 0 <= i < j < |s| ==> s[i] <= s[j]
  }

  function Insert(s: seq<Node>, x: Node): (r: seq<Node>)
    requires Ascending(s)
    ensures Ascending(r) && forall y: Node :: y in r <==> y in s || y == x
  {
    if s == [] || x <= s[0] then [x] + s else
    var rest := Insert(s[1..], x);
    assert forall y: Node :: y in s[1..] ==> s[0] <= y;
    assert forall k :: 0 <= k < |rest| ==> rest[k] in rest;
    assert forall k :: 0 <= k < |rest| ==> s[0] <= rest[k];
    [s[0]] + rest
  }

  /** The neighbours of a node in name order. */
  function Sorted(s: seq<Node>): (r: seq<Node>)
    ensures Ascending(r) && forall y: Node :: y in r <==> y in s
  {
    if s == [] then [] else Insert(Sorted(s[1..]), s[0])
  }

  // --- What the search keeps ----------------------------------------------------------

  /** Every labelled node has its distance, and its best first hop among the neighbours of `src`. */
  ghost predicate LabelOk(g: Graph, src: Node, v: Node, hop: Node, level: nat)
  {
    if v == src then hop == src && level == 0
    else level >= 1 && BestHopAt(g, src, v, hop, level - 1)
  }

  ghost predicate Labelled(g: Graph, src: Node, hop: map<Node, Node>, level: map<Node, nat>)
  {
    && hop.Keys == level.Keys && src in hop
    && forall v: Node :: v in hop ==> v in g && LabelOk(g, src, v, hop[v], level[v])
  }

  /** The queue while a node of level `lo` and first hop `bound` is being expanded: levels
      are `lo` then `lo` + 1, first hops ascend within a level, and `bound` separates them. */
  ghost predicate QueueOk(src: Node, hop: map<Node, Node>, level: map<Node, nat>,
                          q: seq<(Node, Node)>, lo: nat, bound: Node)
  {
    && hop.Keys == level.Keys
    && (forall i :: 0 <= i < |q| ==> q[i].0 in hop && q[i].0 != src && q[i].1 == hop[q[i].0]
                                     && EntryOk(level[q[i].0], q[i].1, lo, bound))
    && (forall i, j :: 0 <= i < j < |q| ==> Before(level[q[i].0], q[i].1, level[q[j].0], q[j].1))
  }

  ghost predicate EntryOk(level: nat, first: Node, lo: nat, bound: Node)
  {
    (level == lo && bound <= first) || (level == lo + 1 && first <= bound)
  }

  ghost predicate Before(level1: nat, first1: Node, level2: nat, first2: Node)
  {
    level1 < level2 || (level1 == level2 && first1 <= first2)
  }

  ghost predicate Queued(q: seq<(Node, Node)>, v: Node)
  {
    exists i :: 0 <= i < |q| && q[i].0 == v
  }

  /** Labelled nodes that left the queue have all their neighbours labelled, except `open`. */
  ghost predicate Explored(g: Graph, hop: map<Node, Node>, q: seq<(Node, Node)>, open: set<Node>)
  {
    forall v: Node, w: Node :: v in hop && v in g && v !in open && !Queued(q, v) && w in g[v] ==> w in hop
  }

  // --- Finding a new node -------------------------------------------------------------

  /** A labelled node below the expanded one has left the queue. */
  lemma StepLabelled(g: Graph, src: Node, hop: map<Node, Node>, level: map<Node, nat>,
                     q: seq<(Node, Node)>, u: Node, m: Node, w: Node)
    requires u in hop && u in level && m in g && m in hop && m in level && level[m] < level[u] && w in g[m]
    requires QueueOk(src, hop, level, q, level[u], hop[u]) && Explored(g, hop, q, {u})
    ensures w in hop
  {
  }

  /** While a node of level `lo` is expanded, everything at distance at most `lo` is labelled. */
  lemma {:induction false} NearLabelled(g: Graph, src: Node, hop: map<Node, Node>, level: map<Node, nat>,
                                        q: seq<(Node, Node)>, u: Node, w: Node, k: nat)
    requires Labelled(g, src, hop, level) && u in hop
    requires QueueOk(src, hop, level, q, level[u], hop[u])
    requires Explored(g, hop, q, {u})
    requires Walk(g, src, w, k) && k <= level[u]
    ensures w in hop && level[w] <= k
    decreases k
  {
    hide QueueOk, Explored;
    if k > 0 {
      var m: Node :| m in g && Walk(g, src, m, k - 1) && w in g[m];
      NearLabelled(g, src, hop, level, q, u, m, k - 1);
      StepLabelled(g, src, hop, level, q, u, m, w);
      assert LabelOk(g, src, w, hop[w], level[w]);
    }
  }

  /** The first hop of the node being expanded is the best one for a node it discovers. */
  lemma Discover(g: Graph, src: Node, hop: map<Node, Node>, level: map<Node, nat>,
                 q: seq<(Node, Node)>, u: Node, v: Node)
    requires Closed(g) && src in g && Labelled(g, src, hop, level)
    requires u in hop && u in g && u != src && v in g[u] && v !in hop
    requires QueueOk(src, hop, level, q, level[u], hop[u])
    requires Explored(g, hop, q, {u})
    ensures v in g && LabelOk(g, src, v, hop[u], level[u] + 1)
  {
    var d := level[u];
    assert LabelOk(g, src, u, hop[u], d);
    assert Walk(g, src, v, d + 1);
    forall j: nat | j < d + 1
      ensures !Walk(g, src, v, j)
    {
      if Walk(g, src, v, j) {
        NearLabelled(g, src, hop, level, q, u, v, j);
      }
    }
    assert Walk(g, hop[u], v, d);
    NeighbourDist(g, src, hop[u], v, d);
    forall f: Node | f in g[src] && Walk(g, f, v, d)
      ensures hop[u] <= f
    {
      HopBound(g, src, hop, level, q, u, v, f);
    }
    assert BestHopAt(g, src, v, hop[u], d);
  }

  /** A last step into an undiscovered node comes from the expanded node or from the queue. */
  lemma Frontier(g: Graph, src: Node, hop: map<Node, Node>, level: map<Node, nat>,
                 q: seq<(Node, Node)>, u: Node, v: Node, f: Node) returns (m: Node)
    requires src in g && Labelled(g, src, hop, level)
    requires u in hop && v !in hop && level[u] >= 1
    requires QueueOk(src, hop, level, q, level[u], hop[u])
    requires Explored(g, hop, q, {u})
    requires f in g[src] && Walk(g, f, v, level[u])
    ensures m in g && m in hop && Walk(g, f, m, level[u] - 1) && level[m] <= level[u]
    ensures m == u || Queued(q, m)
  {
    hide LabelOk;
    var d := level[u];
    m :| m in g && Walk(g, f, m, d - 1) && v in g[m];
    WalkPrepend(g, src, f, m, d - 1);
    NearLabelled(g, src, hop, level, q, u, m, d);
  }

  /** The label of a node bounds every other first hop of a shortest walk to it. */
  lemma LabelIsLeast(g: Graph, src: Node, v: Node, hop: Node, level: nat, f: Node)
    requires src in g && v != src && LabelOk(g, src, v, hop, level) && level >= 1
    requires f in g[src] && Walk(g, f, v, level - 1)
    ensures hop <= f
  {
  }

  lemma HopBound(g: Graph, src: Node, hop: map<Node, Node>, level: map<Node, nat>,
                 q: seq<(Node, Node)>, u: Node, v: Node, f: Node)
    requires src in g && Labelled(g, src, hop, level)
    requires u in hop && u in g && u != src && v in g[u] && v !in hop && level[u] >= 1
    requires QueueOk(src, hop, level, q, level[u], hop[u])
    requires Explored(g, hop, q, {u})
    requires f in g[src] && Walk(g, f, v, level[u])
    ensures hop[u] <= f
  {
    hide LabelOk;
    hide Walk;
    hide Explored;
    var m := Frontier(g, src, hop, level, q, u, v, f);
    if m != u {
      var i :| 0 <= i < |q| && q[i].0 == m;
      assert EntryOk(level[m], q[i].1, level[u], hop[u]);
    }
    LabelIsLeast(g, src, m, hop[m], level[m], f);
  }

  /** Labelling and queueing a discovered node keeps everything. */
  lemma Enqueue(g: Graph, src: Node, hop: map<Node, Node>, level: map<Node, nat>,
                q: seq<(Node, Node)>, v: Node, first: Node, lo: nat, open: set<Node>)
    requires v in g && v !in hop && Labelled(g, src, hop, level)
    requires LabelOk(g, src, v, first, lo + 1) && v != src
    requires QueueOk(src, hop, level, q, lo, first) && Explored(g, hop, q, open)
    ensures Labelled(g, src, hop[v := first], level[v := lo + 1])
    ensures QueueOk(src, hop[v := first], level[v := lo + 1], q + [(v, first)], lo, first)
    ensures Explored(g, hop[v := first], q + [(v, first)], open)
  {
    hide LabelOk;
    QueuedGrows(q, (v, first));
  }

  // --- The search ----------------------------------------------------------------------

  /** Everything labelled and nothing queued: the labels are the canonical table. */
  lemma Finished(g: Graph, src: Node, hop: map<Node, Node>, level: map<Node, nat>)
    requires Closed(g) && src in g && Labelled(g, src, hop, level) && Explored(g, hop, [], {})
    ensures Canonical(g, src, hop)
  {
    forall v: Node
      ensures v in hop <==> Reachable(g, src, v)
      ensures v in hop && v != src ==> BestHop(g, src, v, hop[v])
    {
      if v in hop {
        assert LabelOk(g, src, v, hop[v], level[v]);
        if v == src {
          assert Walk(g, src, v, 0);
        }
      } else if Reachable(g, src, v) {
        var k: nat :| Walk(g, src, v, k);
        ClosedLabels(g, src, hop, v, k);
      }
    }
    assert LabelOk(g, src, src, hop[src], level[src]);
  }

  lemma {:induction false} ClosedLabels(g: Graph, src: Node, hop: map<Node, Node>, v: Node, k: nat)
    requires src in hop && Explored(g, hop, [], {}) && Walk(g, src, v, k)
    ensures v in hop
    decreases k
  {
    if k > 0 {
      var m: Node :| m in g && Walk(g, src, m, k - 1) && v in g[m];
      ClosedLabels(g, src, hop, m, k - 1);
      assert !Queued([], m);
    }
  }

  /** While the neighbours of the source are entered: all of level 1, first hops at most `last`. */
  ghost predicate Seeding(g: Graph, src: Node, hop: map<Node, Node>, level: map<Node, nat>,
                          q: seq<(Node, Node)>, last: Node)
  {
    && Labelled(g, src, hop, level) && QueueOk(src, hop, level, q, 1, 0) && Explored(g, hop, q, {src})
    && forall k :: 0 <= k < |q| ==> level[q[k].0] == 1 && q[k].1 <= last
  }

  lemma SeedStart(g: Graph, src: Node)
    requires src in g
    ensures Seeding(g, src, map[src := src], map[src := 0], [], 0)
  {
  }

  lemma SeedLabel(g: Graph, src: Node, nb: Node)
    requires src in g && Closed(g) && nb in g[src] && nb != src
    ensures nb in g && LabelOk(g, src, nb, nb, 1)
  {
    assert Walk(g, src, src, 0);
    assert Walk(g, src, nb, 1);
    assert Walk(g, nb, nb, 0);
    assert BestHopAt(g, src, nb, nb, 0);
  }

  lemma QueuedGrows(q: seq<(Node, Node)>, e: (Node, Node))
    ensures forall w :: Queued(q + [e], w) <==> Queued(q, w) || w == e.0
  {
    var q' := q + [e];
    assert q'[|q|] == e;
    forall w | Queued(q, w)
      ensures Queued(q', w)
    {
      var i :| 0 <= i < |q| && q[i].0 == w;
      assert q'[i].0 == w;
    }
  }

  lemma SeedQueue(g: Graph, src: Node, hop: map<Node, Node>, level: map<Node, nat>, q: seq<(Node, Node)>,
                  nb: Node, last: Node)
    requires src in g && Closed(g) && nb in g[src] && nb !in hop && last <= nb
    requires Seeding(g, src, hop, level, q, last)
    ensures nb in g && Seeding(g, src, hop[nb := nb], level[nb := 1], q + [(nb, nb)], nb)
  {
    hide LabelOk;
    SeedLabel(g, src, nb);
    QueuedGrows(q, (nb, nb));
  }

  lemma SeedSkip(g: Graph, src: Node, hop: map<Node, Node>, level: map<Node, nat>, q: seq<(Node, Node)>,
                 nb: Node, last: Node)
    requires Seeding(g, src, hop, level, q, last) && last <= nb
    ensures Seeding(g, src, hop, level, q, nb)
  {
  }

  /** Once all neighbours of an open node are labelled it need not stay open. */
  lemma Close(g: Graph, hop: map<Node, Node>, q: seq<(Node, Node)>, u: Node)
    requires u in g && Explored(g, hop, q, {u}) && forall w :: w in g[u] ==> w in hop
    ensures Explored(g, hop, q, {})
  {
  }

  /** The neighbours of the source, in name order, are their own first hops. */
  method Seed(adj: Graph, src: Node)
    returns (nextHop: map<Node, Node>, q: seq<(Node, Node)>, ghost level: map<Node, nat>)
    requires src in adj && Closed(adj)
    ensures Labelled(adj, src, nextHop, level) && QueueOk(src, nextHop, level, q, 1, 0)
    ensures Explored(adj, nextHop, q, {}) && nextHop.Keys <= adj.Keys
  {
    hide Labelled;
    hide QueueOk;
    hide Explored;
    nextHop, q, level := map[src := src], [], map[src := 0];
    SeedStart(adj, src);
    var nbs := Sorted(adj[src]);
    ghost var last: Node := 0;
    for i := 0 to |nbs|
      invariant Seeding(adj, src, nextHop, level, q, last)
      invariant i > 0 ==> last == nbs[i - 1]
      invariant i == 0 ==> last == 0
      invariant nextHop.Keys <= adj.Keys && src in nextHop
      invariant forall j :: 0 <= j < i ==> nbs[j] in nextHop
    {
      var nb := nbs[i];
      if nb !in nextHop {
        assert nb in adj[src];
        SeedQueue(adj, src, nextHop, level, q, nb, last);
        nextHop := nextHop[nb := nb];
        level := level[nb := 1];
        q := q + [(nb, nb)];
      } else {
        SeedSkip(adj, src, nextHop, level, q, nb, last);
      }
      last := nb;
    }
    forall w | w in adj[src]
      ensures w in nextHop
    {
      assert w in nbs;
    }
    Close(adj, nextHop, q, src);
  }

  /** The state of the search while node `u` is being expanded. */
  ghost predicate Expanding(g: Graph, src: Node, hop: map<Node, Node>, level: map<Node, nat>,
                            q: seq<(Node, Node)>, u: Node)
  {
    && src in hop && u in hop && u in g && u != src && Labelled(g, src, hop, level)
    && u in level && QueueOk(src, hop, level, q, level[u], hop[u]) && Explored(g, hop, q, {u})
  }

  lemma Expand(g: Graph, src: Node, hop: map<Node, Node>, level: map<Node, nat>, q: seq<(Node, Node)>, u: Node, v: Node)
    requires Closed(g) && src in g && Expanding(g, src, hop, level, q, u) && v in g[u] && v !in hop
    ensures v in g && u in level && u in hop && v != u
    ensures Expanding(g, src, hop[v := hop[u]], level[v := level[u] + 1], q + [(v, hop[u])], u)
  {
    hide Labelled;
    hide QueueOk;
    hide Explored;
    hide LabelOk;
    Discover(g, src, hop, level, q, u, v);
    Enqueue(g, src, hop, level, q, v, hop[u], level[u], {u});
  }

  lemma ExpandingNode(g: Graph, src: Node, hop: map<Node, Node>, level: map<Node, nat>, q: seq<(Node, Node)>, u: Node)
    requires Expanding(g, src, hop, level, q, u)
    ensures u in g && u in hop && u in level
  {
  }

  lemma Expanded(g: Graph, src: Node, hop: map<Node, Node>, level: map<Node, nat>, q: seq<(Node, Node)>, u: Node)
    requires Expanding(g, src, hop, level, q, u) && forall w :: w in g[u] ==> w in hop
    ensures u in hop && u in level && Labelled(g, src, hop, level)
    ensures QueueOk(src, hop, level, q, level[u], hop[u]) && Explored(g, hop, q, {})
  {
    Close(g, hop, q, u);
  }

  /** Nodes still to be expanded or to be found. */
  ghost function Left(adj: Graph, hop: map<Node, Node>, q: seq<(Node, Node)>): nat
  {
    |adj.Keys - hop.Keys| + |q|
  }

  lemma LeftKept(adj: Graph, hop: map<Node, Node>, q: seq<(Node, Node)>, v: Node, first: Node)
    requires v in adj && v !in hop
    ensures Left(adj, hop[v := first], q + [(v, first)]) == Left(adj, hop, q)
  {
    assert hop[v := first].Keys == hop.Keys + {v};
    assert adj.Keys - (hop.Keys + {v}) == (adj.Keys - hop.Keys) - {v};
  }

  lemma LeftDrops(adj: Graph, hop: map<Node, Node>, q: seq<(Node, Node)>)
    requires q != []
    ensures Left(adj, hop, q[1..]) < Left(adj, hop, q)
  {
  }

  /** One neighbour of `u`: skipped if visited, else labelled with the first hop of `u` and queued. */
  method Visit(adj: Graph, ghost src: Node, u: Node, first: Node, v: Node, hop0: map<Node, Node>, q0: seq<(Node, Node)>,
               ghost level0: map<Node, nat>)
    returns (nextHop: map<Node, Node>, q: seq<(Node, Node)>, ghost level: map<Node, nat>)
    requires Closed(adj) && src in adj && Expanding(adj, src, hop0, level0, q0, u) && first == hop0[u]
    requires v in adj[u] && hop0.Keys <= adj.Keys
    ensures Expanding(adj, src, nextHop, level, q, u) && u in nextHop && first == nextHop[u]
    ensures nextHop.Keys == hop0.Keys + {v} && nextHop.Keys <= adj.Keys
    ensures Left(adj, nextHop, q) == Left(adj, hop0, q0)
  {
    hide *;
    nextHop, q, level := hop0, q0, level0;
    ExpandingNode(adj, src, nextHop, level, q, u);
    if v !in nextHop {
      Expand(adj, src, nextHop, level, q, u, v);
      LeftKept(adj, nextHop, q, v, first);
      level := level[v := level[u] + 1];
      nextHop := nextHop[v := first];
      q := q + [(v, first)];
    }
  }

  /** The inner loop visits every neighbour of `u` in name order. */
  method ExpandNode(adj: Graph, ghost src: Node, u: Node, first: Node, hop0: map<Node, Node>, q0: seq<(Node, Node)>,
                    ghost level0: map<Node, nat>)
    returns (nextHop: map<Node, Node>, q: seq<(Node, Node)>, ghost level: map<Node, nat>)
    requires Closed(adj) && src in adj && Expanding(adj, src, hop0, level0, q0, u) && first == hop0[u]
    requires hop0.Keys <= adj.Keys
    ensures u in level && Labelled(adj, src, nextHop, level)
    ensures QueueOk(src, nextHop, level, q, level[u], first) && Explored(adj, nextHop, q, {})
    ensures nextHop.Keys <= adj.Keys
    ensures Left(adj, nextHop, q) == Left(adj, hop0, q0)
  {
    hide *;
    nextHop, q, level := hop0, q0, level0;
    ExpandingNode(adj, src, nextHop, level, q, u);
    var vs := Sorted(adj[u]);
    for i := 0 to |vs|
      invariant Expanding(adj, src, nextHop, level, q, u) && u in nextHop && first == nextHop[u]
      invariant nextHop.Keys <= adj.Keys
      invariant forall j :: 0 <= j < i ==> vs[j] in nextHop.Keys
      invariant Left(adj, nextHop, q) == Left(adj, hop0, q0)
    {
      assert vs[i] in adj[u];
      nextHop, q, level := Visit(adj, src, u, first, vs[i], nextHop, q, level);
    }
    forall w | w in adj[u]
      ensures w in nextHop
    {
      assert w in vs;
    }
    Expanded(adj, src, nextHop, level, q, u);
  }

  /** bfs_next_hop: for every reachable node the least neighbour on a shortest path. */
  method BfsNextHop(adj: Graph, src: Node) returns (nextHop: map<Node, Node>)
    requires src in adj && Closed(adj)
    ensures Canonical(adj, src, nextHop)
  {
    hide Labelled;
    hide QueueOk;
    hide Explored;
    hide Canonical;
    hide Expanding;
    hide Closed;
    var q;
    ghost var level;
    nextHop, q, level := Seed(adj, src);
    ghost var lo: nat, bound: Node := 1, 0;
    while q != []
      invariant Labelled(adj, src, nextHop, level) && QueueOk(src, nextHop, level, q, lo, bound)
      invariant Explored(adj, nextHop, q, {}) && nextHop.Keys <= adj.Keys
      decreases Left(adj, nextHop, q)
    {
      var (u, first) := q[0];
      Dequeue(adj, src, nextHop, level, q, lo, bound);
      LeftDrops(adj, nextHop, q);
      nextHop, q, level := ExpandNode(adj, src, u, first, nextHop, q[1..], level);
      lo, bound := level[u], first;
    }
    assert q == [];
    Finished(adj, src, nextHop, level);
  }

  /** Taking the head of the queue starts its expansion. */
  lemma Dequeue(g: Graph, src: Node, hop: map<Node, Node>, level: map<Node, nat>,
                q: seq<(Node, Node)>, lo: nat, bound: Node)
    requires q != [] && Labelled(g, src, hop, level) && QueueOk(src, hop, level, q, lo, bound)
    requires Explored(g, hop, q, {})
    ensures Expanding(g, src, hop, level, q[1..], q[0].0)
    ensures q[0].0 in hop && q[0].1 == hop[q[0].0]
  {
    hide LabelOk;
    var rest := q[1..];
    forall v | Queued(q, v) && v != q[0].0
      ensures Queued(rest, v)
    {
      var i :| 0 <= i < |q| && q[i].0 == v;
      assert rest[i - 1].0 == v;
    }
    forall i | 0 <= i < |rest|
      ensures EntryOk(level[rest[i].0], rest[i].1, level[q[0].0], q[0].1)
    {
      assert rest[i] == q[i + 1];
      assert Before(level[q[0].0], q[0].1, level[q[i + 1].0], q[i + 1].1);
    }
  }
}

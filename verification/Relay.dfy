/** Hop-by-hop forwarding of queries and pulls along the nodes' own next-hop tables. */
module Relay {
  import opened Basics
  import opened Graphs

  type Tables = map<Node, map<Node, Node>>

  const TTL: nat := 8

  /** Every node's table is the one bfs_next_hop builds for it. */
  ghost predicate TablesOk(g: Graph, tables: Tables)
  {
    tables.Keys == g.Keys && forall u: Node :: u in g ==> Canonical(g, u, tables[u])
  }

  /** The acknowledgement of a forwarded query.  Forwarding itself only compares nodes, and
      works on their names as it does on their ranks. */
  datatype Ack<N> = Accepted(owner: N) | TtlExpired | NoRoute

  predicate HasRoute<N(==)>(tables: map<N, map<N, N>>, node: N, target: N)
  {
    node in tables && target in tables[node]
  }

  /** ForwardQuery at `node`: check the ttl, accept, or relay to the next hop. */
  function Forward<N(==)>(tables: map<N, map<N, N>>, node: N, target: N, ttl: int): Ack<N>
    decreases ttl
  {
    if ttl <= 0 then TtlExpired
    else if target == node then Accepted(node)
    else if !HasRoute(tables, node, target) || tables[node][target] == node then NoRoute
    else Forward(tables, tables[node][target], target, ttl - 1)
  }

  /** SubmitQuery's forward to one remote owner. */
  function Submit<N(==)>(tables: map<N, map<N, N>>, gateway: N, owner: N): Ack<N>
  {
    if !HasRoute(tables, gateway, owner) then NoRoute
    else Forward(tables, tables[gateway][owner], owner, TTL)
  }

  /** `n` hops of a PullChunk relay, which carries no ttl. */
  function Hops(tables: Tables, node: Node, target: Node, n: nat): Node
    decreases n
  {
    if n == 0 || !HasRoute(tables, node, target) then node
    else Hops(tables, tables[node][target], target, n - 1)
  }

  lemma ZeroDist(g: Graph, node: Node, target: Node, d: nat)
    requires Dist(g, node, target, d)
    ensures d == 0 <==> node == target
  {
    assert Walk(g, node, node, 0);
  }

  lemma TableEntry(g: Graph, tables: Tables, node: Node, target: Node, d: nat)
    requires TablesOk(g, tables) && node in g && Dist(g, node, target, d + 1)
    ensures HasRoute(tables, node, target) && BestHopAt(g, node, target, tables[node][target], d)
  {
    hide Walk;
    ZeroDist(g, node, target, d + 1);
    assert Canonical(g, node, tables[node]);
    assert Reachable(g, node, target);
    var e: nat :| BestHopAt(g, node, target, tables[node][target], e);
    DistUnique(g, node, target, d + 1, e + 1);
  }

  /** Each relay brings a message exactly one edge closer to its target. */
  lemma HopDrops(g: Graph, tables: Tables, node: Node, target: Node, d: nat)
    requires Closed(g) && TablesOk(g, tables) && node in g && Dist(g, node, target, d + 1)
    ensures HasRoute(tables, node, target)
    ensures var h := tables[node][target]; h in g && h in g[node] && h != node && Dist(g, h, target, d)
  {
    hide Walk;
    hide TablesOk;
    TableEntry(g, tables, node, target, d);
  }

  /** The exact fate of a forwarded query: accepted by its target if and only if the
      ttl exceeds the distance still to go; never misrouted. */
  lemma {:induction false} ForwardFate(g: Graph, tables: Tables, node: Node, target: Node, d: nat, ttl: int)
    requires Closed(g) && TablesOk(g, tables) && node in g && Dist(g, node, target, d)
    ensures Forward(tables, node, target, ttl) == if ttl > d then Accepted(target) else TtlExpired
    decreases d
  {
    hide Walk;
    hide Dist;
    hide TablesOk;
    ZeroDist(g, node, target, d);
    if d > 0 {
      HopDrops(g, tables, node, target, d - 1);
      if ttl > 0 {
        ForwardFate(g, tables, tables[node][target], target, d - 1, ttl - 1);
      }
    }
  }

  /** A forward to an unreachable target is refused, at the node that was asked. */
  lemma ForwardNoRoute(g: Graph, tables: Tables, node: Node, target: Node, ttl: int)
    requires TablesOk(g, tables) && node in g && !Reachable(g, node, target) && ttl > 0
    ensures Forward(tables, node, target, ttl) == NoRoute
  {
    assert Canonical(g, node, tables[node]);
    assert node != target by {
      assert Walk(g, node, node, 0);
    }
  }

  /** The gateway's forward reaches an owner at distance `d` if and only if `d` <= 8. */
  lemma SubmitFate(g: Graph, tables: Tables, gateway: Node, owner: Node, d: nat)
    requires Closed(g) && TablesOk(g, tables) && gateway in g && gateway != owner && Dist(g, gateway, owner, d)
    ensures Submit(tables, gateway, owner) == if d <= TTL then Accepted(owner) else TtlExpired
  {
    hide Walk;
    hide Dist;
    hide TablesOk;
    ZeroDist(g, gateway, owner, d);
    HopDrops(g, tables, gateway, owner, d - 1);
    ForwardFate(g, tables, tables[gateway][owner], owner, d - 1, TTL);
  }

  /** A pull is at its target after exactly as many hops as the distance, and gets
      strictly closer on the way, so no relay ever sees it twice. */
  lemma {:induction false} PullArrives(g: Graph, tables: Tables, node: Node, target: Node, d: nat, n: nat)
    requires Closed(g) && TablesOk(g, tables) && node in g && Dist(g, node, target, d) && n <= d
    ensures Dist(g, Hops(tables, node, target, n), target, d - n)
    ensures Hops(tables, node, target, n) == target <==> n == d
    decreases n
  {
    hide Walk;
    hide Dist;
    hide TablesOk;
    if n == 0 {
      ZeroDist(g, node, target, d);
    } else {
      HopDrops(g, tables, node, target, d - 1);
      PullArrives(g, tables, tables[node][target], target, d - 1, n - 1);
    }
  }

  lemma PullLoopFree(g: Graph, tables: Tables, node: Node, target: Node, d: nat, i: nat, j: nat)
    requires Closed(g) && TablesOk(g, tables) && node in g && Dist(g, node, target, d) && i < j <= d
    ensures Hops(tables, node, target, i) != Hops(tables, node, target, j)
  {
    PullArrives(g, tables, node, target, d, i);
    PullArrives(g, tables, node, target, d, j);
    assert !Walk(g, Hops(tables, node, target, i), target, d - j);
  }

  // --- Overlay size ------------------------------------------------------------------

  ghost predicate Within(g: Graph, a: Node, v: Node, d: nat)
  {
    exists k: nat :: k <= d && Walk(g, a, v, k)
  }

  /** The nodes of a shortest walk: `d` + 1 different ones. */
  lemma {:induction false} WalkNodes(g: Graph, a: Node, b: Node, d: nat) returns (nodes: set<Node>)
    requires Closed(g) && a in g && Dist(g, a, b, d)
    ensures nodes <= g.Keys && |nodes| == d + 1
    ensures forall v: Node :: v in nodes ==> Within(g, a, v, d)
    decreases d
  {
    WalkInGraph(g, a, b, d);
    if d == 0 {
      nodes := {b};
      var k: nat := 0;
      assert k <= d && Walk(g, a, b, k);
    } else {
      var m: Node :| m in g && Walk(g, a, m, d - 1) && b in g[m];
      assert Dist(g, a, m, d - 1) by {
        if j: nat :| j < d - 1 && Walk(g, a, m, j) {
          assert Walk(g, a, b, j + 1);
        }
      }
      var rest := WalkNodes(g, a, m, d - 1);
      assert b !in rest;
      nodes := rest + {b};
      forall v: Node | v in nodes
        ensures Within(g, a, v, d)
      {
        if v in rest {
          var k: nat :| k <= d - 1 && Walk(g, a, v, k);
          assert k <= d && Walk(g, a, v, k);
        }
      }
    }
  }

  /** No two nodes are further apart than the number of nodes minus one. */
  lemma DistBound(g: Graph, a: Node, b: Node, d: nat)
    requires Closed(g) && a in g && Dist(g, a, b, d)
    ensures d <= |g| - 1
  {
    var nodes := WalkNodes(g, a, b, d);
    SubsetSize(nodes, g.Keys);
  }

  /** On every connected overlay of at most nine nodes the gateway's forward is accepted
      by every other node. */
  lemma NineNodesSuffice(g: Graph, tables: Tables, gateway: Node, owner: Node)
    requires Closed(g) && TablesOk(g, tables) && |g| <= 9
    requires gateway in g && owner != gateway && Reachable(g, gateway, owner)
    ensures Submit(tables, gateway, owner) == Accepted(owner)
  {
    var k: nat :| Walk(g, gateway, owner, k);
    var d := DistExists(g, gateway, owner, k);
    DistBound(g, gateway, owner, d);
    SubmitFate(g, tables, gateway, owner, d);
  }

  // --- The bound is tight ----------------------------------------------------------------

  /** The chain 0 - 1 - ... - (n - 1). */
  ghost predicate IsChain(g: Graph, n: nat)
  {
    && (forall u: Node :: u in g <==> u < n)
    && forall u: Node, v: Node :: u in g ==> (v in g[u] <==> v < n && (v == u + 1 || v + 1 == u))
  }

  lemma {:induction false} ChainReach(g: Graph, n: nat, b: Node, k: nat)
    requires IsChain(g, n) && n > 0 && Walk(g, 0, b, k)
    ensures b <= k
    decreases k
  {
    if k > 0 {
      var m: Node :| m in g && Walk(g, 0, m, k - 1) && b in g[m];
      ChainReach(g, n, m, k - 1);
    }
  }

  lemma {:induction false} ChainWalk(g: Graph, n: nat, b: Node)
    requires IsChain(g, n) && b < n
    ensures Walk(g, 0, b, b)
  {
    if b > 0 {
      ChainWalk(g, n, b - 1);
      assert b - 1 in g && b in g[b - 1];
    }
  }

  lemma ChainDist(g: Graph, n: nat, b: Node)
    requires IsChain(g, n) && b < n
    ensures Dist(g, 0, b, b)
  {
    ChainWalk(g, n, b);
    forall j: nat | j < b
      ensures !Walk(g, 0, b, j)
    {
      if Walk(g, 0, b, j) {
        ChainReach(g, n, b, j);
      }
    }
  }

  lemma ChainEnds(g: Graph, n: nat)
    requires IsChain(g, n) && n >= 2
    ensures 0 in g && Closed(g)
  {
    forall u, v | u in g && v in g[u]
      ensures v in g
    {
      assert v < n;
    }
  }

  /** On a chain whose end is the gateway, the far end is reached exactly up to nine nodes. */
  lemma ChainLimit(g: Graph, tables: Tables, n: nat)
    requires IsChain(g, n) && n >= 2 && TablesOk(g, tables)
    ensures Submit<Node>(tables, 0, n - 1) == if n <= 9 then Ack<Node>.Accepted(n - 1) else TtlExpired
  {
    hide Submit, Forward, Dist, TablesOk, IsChain, Closed;
    ChainDist(g, n, n - 1);
    ChainEnds(g, n);
    SubmitFate(g, tables, 0, n - 1, n - 1);
  }
}

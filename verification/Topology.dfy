/** The routing part of emit_yaml: adjacency, connectivity check and all next-hop tables. */
module Topology {
  import opened Graphs
  import Bfs
  import opened Relay

  /** Visited nodes are reachable, and except for the waiting ones all their neighbours are visited. */
  ghost predicate Scan(g: Graph, root: Node, visited: set<Node>, waiting: seq<Node>)
  {
    && root in visited && visited <= g.Keys
    && (forall v: Node :: v in visited ==> Reachable(g, root, v))
    && (forall v :: v in waiting ==> v in visited)
    && (forall u: Node, v: Node :: u in visited && u in g && u !in waiting && v in g[u] ==> v in visited)
  }

  ghost function Left(g: Graph, visited: set<Node>, q: seq<Node>): nat
  {
    |g.Keys - visited| + |q|
  }

  lemma ScanStart(g: Graph, root: Node)
    requires root in g
    ensures Scan(g, root, {root}, [root])
  {
    assert Walk(g, root, root, 0);
  }

  lemma ScanVisit(g: Graph, root: Node, u: Node, visited: set<Node>, q: seq<Node>, v: Node)
    requires Closed(g) && u in g && v in g[u] && v !in visited && Scan(g, root, visited, [u] + q)
    ensures Scan(g, root, visited + {v}, [u] + (q + [v]))
    ensures Left(g, visited + {v}, q + [v]) == Left(g, visited, q)
  {
    assert u in [u] + q;
    var k: nat :| Walk(g, root, u, k);
    assert Walk(g, root, v, k + 1);
    assert g.Keys - (visited + {v}) == (g.Keys - visited) - {v};
    assert forall w :: w in [u] + (q + [v]) <==> w in [u] + q || w == v;
  }

  lemma ScanClose(g: Graph, root: Node, u: Node, visited: set<Node>, q: seq<Node>)
    requires u in g && Scan(g, root, visited, [u] + q) && forall v :: v in g[u] ==> v in visited
    ensures Scan(g, root, visited, q)
  {
    assert forall w :: w in [u] + q <==> w == u || w in q;
  }

  lemma ScanEnd(g: Graph, root: Node, visited: set<Node>, v: Node)
    requires Scan(g, root, visited, [])
    ensures v in visited <==> Reachable(g, root, v)
  {
    if Reachable(g, root, v) {
      var k: nat :| Walk(g, root, v, k);
      ScanCovers(g, root, visited, v, k);
    }
  }

  lemma {:induction false} ScanCovers(g: Graph, root: Node, visited: set<Node>, v: Node, k: nat)
    requires Scan(g, root, visited, []) && Walk(g, root, v, k)
    ensures v in visited
    decreases k
  {
    if k > 0 {
      var m: Node :| m in g && Walk(g, root, m, k - 1) && v in g[m];
      ScanCovers(g, root, visited, m, k - 1);
    }
  }

  /** Marks the unvisited neighbours of `u` and queues them. */
  method VisitAll(adj: Graph, ghost root: Node, u: Node, visited0: set<Node>, q0: seq<Node>)
    returns (visited: set<Node>, q: seq<Node>)
    requires Closed(adj) && u in adj && Scan(adj, root, visited0, [u] + q0)
    ensures Scan(adj, root, visited, q) && Left(adj, visited, q) == Left(adj, visited0, q0)
  {
    hide *;
    visited, q := visited0, q0;
    for i := 0 to |adj[u]|
      invariant Scan(adj, root, visited, [u] + q) && Left(adj, visited, q) == Left(adj, visited0, q0)
      invariant forall j :: 0 <= j < i ==> adj[u][j] in visited
    {
      var v := adj[u][i];
      if v !in visited {
        ScanVisit(adj, root, u, visited, q, v);
        visited := visited + {v};
        q := q + [v];
      }
    }
    ScanClose(adj, root, u, visited, q);
  }

  lemma ScanHead(g: Graph, root: Node, visited: set<Node>, q: seq<Node>)
    requires q != [] && Scan(g, root, visited, q)
    ensures q[0] in g && Left(g, visited, q[1..]) < Left(g, visited, q)
  {
  }

  /** validate_connectivity: the nodes that cannot be reached from the first one. */
  method ValidateConnectivity(adj: Graph, root: Node) returns (missing: set<Node>)
    requires Closed(adj) && root in adj
    ensures forall v: Node :: v in missing <==> v in adj && !Reachable(adj, root, v)
  {
    hide *;
    var visited := {root};
    var q := [root];
    ScanStart(adj, root);
    while q != []
      invariant Scan(adj, root, visited, q)
      decreases Left(adj, visited, q)
    {
      var u := q[0];
      assert q == [u] + q[1..];
      ScanHead(adj, root, visited, q);
      visited, q := VisitAll(adj, root, u, visited, q[1..]);
    }
    missing := adj.Keys - visited;
    forall v: Node
      ensures v in visited <==> Reachable(adj, root, v)
    {
      assert q == [];
      ScanEnd(adj, root, visited, v);
    }
  }

  lemma TablesOfAll(g: Graph, nodes: seq<Node>, edges: seq<(Node, Node)>, tables: Tables)
    requires AdjacencyOf(g, nodes, edges)
    requires forall u: Node :: u in tables <==> u in nodes
    requires forall u: Node :: u in tables ==> Canonical(g, u, tables[u])
    ensures TablesOk(g, tables)
  {
    assert tables.Keys == g.Keys;
  }

  lemma NodesOf(g: Graph, nodes: seq<Node>, edges: seq<(Node, Node)>)
    requires AdjacencyOf(g, nodes, edges)
    ensures forall n: Node :: n in g <==> n in nodes
  {
  }

  /** The tables of a generated overlay, or the unreachable nodes if it is not connected. */
  method Generate(nodes: seq<Node>, edges: seq<(Node, Node)>)
    returns (adj: Graph, missing: set<Node>, tables: Tables)
    requires nodes != [] && forall e :: e in edges ==> e.0 in nodes && e.1 in nodes
    ensures AdjacencyOf(adj, nodes, edges) && Closed(adj)
    ensures forall v: Node :: v in missing <==> v in nodes && !Reachable(adj, nodes[0], v)
    ensures missing == {} ==> TablesOk(adj, tables)
  {
    hide *;
    adj := BuildAdj(nodes, edges);
    NodesOf(adj, nodes, edges);
    missing := ValidateConnectivity(adj, nodes[0]);
    tables := map[];
    if missing != {} {
      return;
    }
    for i := 0 to |nodes|
      invariant forall u: Node :: u in tables <==> u in nodes[..i]
      invariant forall u: Node :: u in tables ==> Canonical(adj, u, tables[u])
    {
      assert nodes[i] in nodes && nodes[..i + 1] == nodes[..i] + [nodes[i]];
      var table := Bfs.BfsNextHop(adj, nodes[i]);
      tables := tables[nodes[i] := table];
    }
    assert nodes[..|nodes|] == nodes;
    TablesOfAll(adj, nodes, edges, tables);
  }

  lemma {:induction false} WalkBack(g: Graph, a: Node, b: Node, k: nat)
    requires forall u: Node, v: Node :: u in g && v in g[u] ==> v in g && u in g[v]
    requires Walk(g, a, b, k)
    ensures Walk(g, b, a, k)
    decreases k
  {
    if k > 0 {
      var m: Node :| m in g && Walk(g, a, m, k - 1) && b in g[m];
      WalkBack(g, a, m, k - 1);
      WalkPrepend(g, b, m, a, k - 1);
    }
  }

  lemma {:induction false} WalkJoin(g: Graph, a: Node, b: Node, c: Node, j: nat, k: nat)
    requires Walk(g, a, b, j) && Walk(g, b, c, k)
    ensures Walk(g, a, c, j + k)
    decreases k
  {
    if k > 0 {
      var m: Node :| m in g && Walk(g, b, m, k - 1) && c in g[m];
      WalkJoin(g, a, b, m, j, k - 1);
    }
  }

  lemma BothWays(g: Graph, nodes: seq<Node>, edges: seq<(Node, Node)>)
    requires AdjacencyOf(g, nodes, edges) && Closed(g)
    ensures forall u: Node, v: Node :: u in g && v in g[u] ==> v in g && u in g[v]
  {
    forall u: Node, v: Node | u in g && v in g[u]
      ensures v in g && u in g[v]
    {
      assert Joined(edges, u, v) && Joined(edges, v, u);
    }
  }

  /** An overlay of at most nine nodes that passes the connectivity check delivers every
      forward, from any gateway to any other node. */
  lemma GeneratedOverlaysDeliver(nodes: seq<Node>, edges: seq<(Node, Node)>, g: Graph, tables: Tables,
                                 gateway: Node, owner: Node)
    requires nodes != [] && AdjacencyOf(g, nodes, edges) && Closed(g) && TablesOk(g, tables) && |g| <= 9
    requires forall v: Node :: v in nodes ==> Reachable(g, nodes[0], v)
    requires gateway in nodes && owner in nodes && gateway != owner
    ensures Submit(tables, gateway, owner) == Accepted(owner)
  {
    BothWays(g, nodes, edges);
    var j: nat :| Walk(g, nodes[0], gateway, j);
    var k: nat :| Walk(g, nodes[0], owner, k);
    WalkBack(g, nodes[0], gateway, j);
    WalkJoin(g, gateway, nodes[0], owner, j, k);
    NineNodesSuffice(g, tables, gateway, owner);
  }
}

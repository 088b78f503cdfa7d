/** From the generator to the running overlay: tables are built over ranks, printed with the
    nodes' names, read back from the file, and used to forward queries by name. */
module Deployment {
  import opened Graphs
  import opened Relay
  import Topology
  import OverlayText
  import opened Overlays
  import opened OverlayFile
  import opened OverlayDocument

  /** `names[u]` is the name of the node with rank `u`. */
  ghost predicate Distinct(names: seq<string>)
  {
    forall i, j :: 0 <= i < j < |names| ==> names[i] != names[j]
  }

  /** A node's table with names for ranks. */
  ghost predicate NamedRow(names: seq<string>, table: map<Node, Node>, row: Row)
  {
    && (forall x :: x in row ==> exists v: Node :: v < |names| && names[v] == x && v in table)
    && forall v: Node :: v in table ==>
         v < |names| && table[v] < |names| && names[v] in row && row[names[v]] == names[table[v]]
  }

  /** All tables with names for ranks. */
  ghost predicate Named(names: seq<string>, tables: Tables, routing: map<string, Row>)
  {
    && (forall x :: x in routing ==> exists u: Node :: u < |names| && names[u] == x && u in tables)
    && forall u: Node :: u in tables ==>
         u < |names| && names[u] in routing && NamedRow(names, tables[u], routing[names[u]])
  }

  function AckByName(names: seq<string>, ack: Ack<Node>): Ack<string>
  {
    match ack
    case Accepted(owner) => if owner < |names| then Accepted(names[owner]) else NoRoute
    case TtlExpired => TtlExpired
    case NoRoute => NoRoute
  }

  lemma SameName(names: seq<string>, u: Node, v: Node)
    requires Distinct(names) && u < |names| && v < |names|
    ensures names[u] == names[v] <==> u == v
  {
  }

  lemma RouteByName(names: seq<string>, tables: Tables, routing: map<string, Row>, node: Node, target: Node)
    requires Distinct(names) && Named(names, tables, routing) && node < |names| && target < |names|
    ensures HasRoute<string>(routing, names[node], names[target]) <==> HasRoute<Node>(tables, node, target)
    ensures HasRoute<Node>(tables, node, target) ==>
              Hop<Node>(tables, node, target) < |names|
              && Hop<string>(routing, names[node], names[target]) == names[Hop<Node>(tables, node, target)]
  {
    if names[node] in routing {
      var u: Node :| u < |names| && names[u] == names[node] && u in tables;
      SameName(names, u, node);
      assert NamedRow(names, tables[node], routing[names[node]]);
      if names[target] in routing[names[node]] {
        var v: Node :| v < |names| && names[v] == names[target] && v in tables[node];
        SameName(names, v, target);
      }
    }
  }

  /** Forwarding by name does what forwarding by rank does. */
  lemma {:induction false} ForwardByName(names: seq<string>, tables: Tables, routing: map<string, Row>,
                                         node: Node, target: Node, ttl: int)
    requires Distinct(names) && Named(names, tables, routing) && node < |names| && target < |names|
    ensures Forward<string>(routing, names[node], names[target], ttl)
         == AckByName(names, Forward<Node>(tables, node, target, ttl))
    decreases ttl
  {
    hide Forward, HasRoute, Hop, AckByName, Named, Distinct, Submit;
    RouteByName(names, tables, routing, node, target);
    SameName(names, node, target);
    ForwardOnce<Node>(tables, node, target, ttl);
    ForwardOnce<string>(routing, names[node], names[target], ttl);
    AcksByName(names, target);
    if ttl > 0 && node != target && HasRoute<Node>(tables, node, target) {
      var next := Hop<Node>(tables, node, target);
      SameName(names, next, node);
      if next != node {
        ForwardByName(names, tables, routing, next, target, ttl - 1);
      }
    }
  }

  function Hop<N(==)>(tables: map<N, map<N, N>>, node: N, target: N): N
    requires HasRoute<N>(tables, node, target)
  {
    tables[node][target]
  }

  /** One relay of a forward. */
  lemma ForwardOnce<N>(tables: map<N, map<N, N>>, node: N, target: N, ttl: int)
    ensures Forward<N>(tables, node, target, ttl) ==
            if ttl <= 0 then TtlExpired
            else if target == node then Accepted(node)
            else if !HasRoute<N>(tables, node, target) || Hop<N>(tables, node, target) == node then NoRoute
            else Forward(tables, Hop<N>(tables, node, target), target, ttl - 1)
  {
  }

  lemma AcksByName(names: seq<string>, u: Node)
    requires u < |names|
    ensures AckByName(names, TtlExpired) == TtlExpired && AckByName(names, NoRoute) == NoRoute
    ensures AckByName(names, Ack<Node>.Accepted(u)) == Accepted(names[u])
  {
  }

  lemma SubmitOnce<N>(tables: map<N, map<N, N>>, gateway: N, owner: N)
    ensures Submit<N>(tables, gateway, owner) ==
            if !HasRoute<N>(tables, gateway, owner) then NoRoute
            else Forward(tables, Hop<N>(tables, gateway, owner), owner, TTL)
  {
  }

  lemma SubmitByName(names: seq<string>, tables: Tables, routing: map<string, Row>, gateway: Node, owner: Node)
    requires Distinct(names) && Named(names, tables, routing) && gateway < |names| && owner < |names|
    ensures Submit<string>(routing, names[gateway], names[owner])
         == AckByName(names, Submit<Node>(tables, gateway, owner))
  {
    hide Forward, HasRoute, Hop, AckByName, Named, Distinct, Submit;
    RouteByName(names, tables, routing, gateway, owner);
    SubmitOnce<Node>(tables, gateway, owner);
    SubmitOnce<string>(routing, names[gateway], names[owner]);
    AcksByName(names, owner);
    if HasRoute<Node>(tables, gateway, owner) {
      ForwardByName(names, tables, routing, Hop<Node>(tables, gateway, owner), owner, TTL);
    }
  }

  // --- The generated file -----------------------------------------------------------------------

  /** The names of the nodes, in node order. */
  function NamesOf(names: seq<string>, nodes: seq<Node>): (r: seq<string>)
    requires forall k :: 0 <= k < |nodes| ==> nodes[k] < |names|
    ensures |r| == |nodes| && forall k :: 0 <= k < |r| ==> r[k] == names[nodes[k]]
  {
    seq(|nodes|, k requires 0 <= k < |nodes| => names[nodes[k]])
  }

  lemma NameIn(names: seq<string>, nodes: seq<Node>, u: Node)
    requires Distinct(names) && (forall k :: 0 <= k < |nodes| ==> nodes[k] < |names|) && u < |names|
    ensures names[u] in NamesOf(names, nodes) <==> u in nodes
  {
    var r := NamesOf(names, nodes);
    if u in nodes {
      var k :| 0 <= k < |nodes| && nodes[k] == u;
      assert r[k] == names[u];
    }
    if names[u] in r {
      var k :| 0 <= k < |r| && r[k] == names[u];
      SameName(names, nodes[k], u);
    }
  }

  /** A table that lists every node becomes a row that lists every name. */
  lemma NamedRowFull(names: seq<string>, nodes: seq<Node>, table: map<Node, Node>, row: Row, y: string)
    requires Distinct(names) && NamedRow(names, table, row)
    requires (forall k :: 0 <= k < |nodes| ==> nodes[k] < |names|) && forall v: Node :: v in table <==> v in nodes
    ensures y in row <==> y in NamesOf(names, nodes)
  {
    var r := NamesOf(names, nodes);
    if y in row {
      var v: Node :| v < |names| && names[v] == y && v in table;
      NameIn(names, nodes, v);
    }
    if y in r {
      var k :| 0 <= k < |r| && r[k] == y;
      assert nodes[k] in nodes;
    }
  }

  lemma NamedFull(names: seq<string>, nodes: seq<Node>, tables: Tables, routing: map<string, Row>, x: string)
    requires Distinct(names) && Named(names, tables, routing)
    requires forall k :: 0 <= k < |nodes| ==> nodes[k] < |names|
    requires forall u: Node :: u in tables <==> u in nodes
    ensures x in routing <==> x in NamesOf(names, nodes)
    ensures x in routing ==> exists u: Node :: u in tables && u < |names| && names[u] == x
  {
    hide NamedRow;
    var r := NamesOf(names, nodes);
    if x in routing {
      var u: Node :| u < |names| && names[u] == x && u in tables;
      NameIn(names, nodes, u);
    }
    if x in r {
      var k :| 0 <= k < |r| && r[k] == x;
      assert nodes[k] in nodes;
    }
  }

  /** In a connected overlay every table lists every node. */
  lemma TableFull(g: Graph, nodes: seq<Node>, tables: Tables, u: Node)
    requires Closed(g) && TablesOk(g, tables) && u in g && forall n: Node :: n in g <==> n in nodes
    requires forall v: Node :: v in g ==> Reachable(g, u, v)
    ensures u in tables && forall v: Node :: v in tables[u] <==> v in nodes
  {
    assert Canonical(g, u, tables[u]);
    forall v: Node
      ensures v in tables[u] <==> v in nodes
    {
      if v in tables[u] {
        var k: nat :| Walk(g, u, v, k);
        WalkInGraph(g, u, v, k);
      }
    }
  }

  /** Every row lists every name. */
  ghost predicate Complete(all: seq<string>, routing: map<string, Row>)
  {
    && (forall x :: x in routing <==> x in all)
    && forall x :: x in routing ==> FullRow(all, routing[x])
  }

  ghost predicate FullRow(all: seq<string>, row: Row)
  {
    forall y :: y in row <==> y in all
  }

  /** The routing rows of a connected overlay are complete. */
  lemma RoutingComplete(names: seq<string>, nodes: seq<Node>, g: Graph, tables: Tables, routing: map<string, Row>)
    requires Distinct(names) && Named(names, tables, routing) && Closed(g) && TablesOk(g, tables)
    requires (forall k :: 0 <= k < |nodes| ==> nodes[k] < |names|) && forall n: Node :: n in g <==> n in nodes
    requires forall u: Node, v: Node :: u in g && v in g ==> Reachable(g, u, v)
    ensures Complete(NamesOf(names, nodes), routing)
  {
    hide Reachable, Canonical, Distinct, Named, NamedRow, FullRow, TablesOk;
    var all := NamesOf(names, nodes);
    TablesKeys(g, tables);
    forall x: string
      ensures x in routing <==> x in all
      ensures x in routing ==> FullRow(all, routing[x])
    {
      NamedFull(names, nodes, tables, routing, x);
      if x in routing {
        var u: Node :| u in tables && u < |names| && names[u] == x;
        RowComplete(names, nodes, g, tables, routing, u);
      }
    }
  }

  lemma RowComplete(names: seq<string>, nodes: seq<Node>, g: Graph, tables: Tables, routing: map<string, Row>, u: Node)
    requires Distinct(names) && Named(names, tables, routing) && Closed(g) && TablesOk(g, tables)
    requires (forall k :: 0 <= k < |nodes| ==> nodes[k] < |names|) && forall n: Node :: n in g <==> n in nodes
    requires u in tables && forall v: Node :: v in g ==> Reachable(g, u, v)
    ensures u < |names| && names[u] in routing && FullRow(NamesOf(names, nodes), routing[names[u]])
  {
    hide Reachable, Canonical, Distinct, Named, NamedRow, TablesOk;
    TablesKeys(g, tables);
    TableFull(g, nodes, tables, u);
    RowOfNamed(names, tables, routing, u);
    forall y: string
      ensures y in routing[names[u]] <==> y in NamesOf(names, nodes)
    {
      NamedRowFull(names, nodes, tables[u], routing[names[u]], y);
    }
  }

  lemma TablesKeys(g: Graph, tables: Tables)
    requires TablesOk(g, tables)
    ensures forall u: Node :: u in tables <==> u in g
  {
  }

  lemma RowOfNamed(names: seq<string>, tables: Tables, routing: map<string, Row>, u: Node)
    requires Named(names, tables, routing) && u in tables
    ensures u < |names| && names[u] in routing && NamedRow(names, tables[u], routing[names[u]])
  {
  }

  /** The routing section as emit_yaml prints it. */
  function Printed(all: seq<string>, routing: map<string, Row>): seq<FlowRow>
    requires Complete(all, routing)
  {
    assert forall k, x :: 0 <= k < |all| && x in routing ==> all[k] in routing[x] by {
      forall k, x | 0 <= k < |all| && x in routing
        ensures all[k] in routing[x]
      {
        assert FullRow(all, routing[x]);
      }
    }
    TableRows(all, all, routing)
  }

  lemma PrintedReadsBack(all: seq<string>, routing: map<string, Row>)
    requires Complete(all, routing)
    ensures Rows(Printed(all, routing), map[]) == routing
  {
    hide TableRows, Rows;
    assert forall x :: x in routing ==> FullRow(all, routing[x]);
    RoutingReadsBack(all, routing);
  }

  /** A generated overlay that is connected: what Generate returns for its nodes and edges,
      and the routing by name. */
  ghost predicate Generated(names: seq<string>, nodes: seq<Node>, edges: seq<(Node, Node)>, g: Graph,
                            tables: Tables, routing: map<string, Row>)
  {
    && Distinct(names) && nodes != [] && (forall k :: 0 <= k < |nodes| ==> nodes[k] < |names|)
    && AdjacencyOf(g, nodes, edges) && Closed(g) && TablesOk(g, tables)
    && (forall v: Node :: v in nodes ==> Reachable(g, nodes[0], v))
    && Named(names, tables, routing)
  }

  lemma AllReachable(nodes: seq<Node>, edges: seq<(Node, Node)>, g: Graph, u: Node, v: Node)
    requires nodes != [] && AdjacencyOf(g, nodes, edges) && Closed(g) && u in g && v in g
    requires forall v: Node :: v in nodes ==> Reachable(g, nodes[0], v)
    ensures Reachable(g, u, v)
  {
    assert Reachable(g, nodes[0], u) && Reachable(g, nodes[0], v);
    var j: nat :| Walk(g, nodes[0], u, j);
    var k: nat :| Walk(g, nodes[0], v, k);
    Topology.BothWays(g, nodes, edges);
    Topology.WalkBack(g, nodes[0], u, j);
    Topology.WalkJoin(g, u, nodes[0], v, j, k);
  }

  lemma GeneratedComplete(names: seq<string>, nodes: seq<Node>, edges: seq<(Node, Node)>, g: Graph,
                          tables: Tables, routing: map<string, Row>)
    requires Generated(names, nodes, edges, g, tables, routing)
    ensures Complete(NamesOf(names, nodes), routing)
  {
    hide Reachable, Canonical, Distinct, Named, Complete, TablesOk, Closed;
    assert forall n: Node :: n in g <==> n in nodes;
    forall u: Node, v: Node | u in g && v in g
      ensures Reachable(g, u, v)
    {
      AllReachable(nodes, edges, g, u, v);
    }
    RoutingComplete(names, nodes, g, tables, routing);
  }

  /** From generator to cluster: a connected overlay of at most nine nodes is generated, its
      file printed and loaded by the nodes; then every forward, from any gateway to any other
      node, goes by the loaded names and is accepted by the owner it is meant for. */
  lemma LoadedOverlayDelivers(d: Doc, names: seq<string>, nodes: seq<Node>, edges: seq<(Node, Node)>, g: Graph,
                              tables: Tables, routing: map<string, Row>, gateway: Node, owner: Node)
    requires Generated(names, nodes, edges, g, tables, routing) && |g| <= 9
    requires d.Ok() && d.nodes != []
    requires (GeneratedComplete(names, nodes, edges, g, tables, routing);
              d.routing == Printed(NamesOf(names, nodes), routing))
    requires gateway in nodes && owner in nodes && gateway != owner
    ensures var loaded := Load(CleanAll(GetLines(Join(FileLines(d) + [""]))));
            && loaded.Ok? && gateway < |names| && owner < |names|
            && loaded.value.routing == routing
            && Submit<string>(loaded.value.routing, names[gateway], names[owner]) == Ack<string>.Accepted(names[owner])
  {
    hide Reachable, Canonical, Distinct, Named, Complete, TablesOk, Closed, Submit, Load, CleanAll, GetLines, Join,
      FileLines, AckByName, Printed, Rows, AdjacencyOf;
    GeneratedComplete(names, nodes, edges, g, tables, routing);
    FileReadsBack(d);
    PrintedReadsBack(NamesOf(names, nodes), routing);
    Topology.GeneratedOverlaysDeliver(nodes, edges, g, tables, gateway, owner);
    SubmitByName(names, tables, routing, gateway, owner);
    AcksByName(names, owner);
  }
}

/** The route graph of the client (web/src/connectivity.ts): how it is built from the
    public nodes and routes, and what walks in it are. */
module Connectivity {
  import opened Sorting

  datatype Endpoint = Endpoint(nodeId: string, name: string, pathHash3: string)

  datatype Route = Route(id: string, from: Endpoint, to: Endpoint, distanceKm: real, packetCount: int, lastHeard: int)

  datatype Node = Node(id: string, name: string, activityCount: int, lastSeen: int)

  datatype GraphEdge = GraphEdge(route: Route, fromNodeID: string, toNodeID: string)

  datatype Graph = Graph(
    nodesByID: map<string, Node>,
    routesByID: map<string, Route>,
    adjacency: map<string, seq<GraphEdge>>,
    pathHash3ByNodeID: map<string, string>)

  /** String operations of the host library: locale collation (negative, zero, positive)
      and the normal form of a path hash ("" when the value is not six hex digits). */
  datatype Text = Text(collate: (string, string) -> int, normalizeHash3: string -> string)

  function Edges(g: Graph, n: string): seq<GraphEdge> {
    if n in g.adjacency then g.adjacency[n] else []
  }

  function Hash3(g: Graph, n: string): string {
    if n in g.pathHash3ByNodeID then g.pathHash3ByNodeID[n] else ""
  }

  /** compareRoutesByActivity: busier first, then more recent, then by id. */
  predicate BusierEdge(text: Text, left: GraphEdge, right: GraphEdge) {
    var l, r := left.route, right.route;
    if r.packetCount != l.packetCount then r.packetCount < l.packetCount
    else if r.lastHeard != l.lastHeard then r.lastHeard < l.lastHeard
    else text.collate(l.id, r.id) < 0
  }

  function BusierFirst(text: Text): (GraphEdge, GraphEdge) -> bool {
    (l, r) => BusierEdge(text, l, r)
  }

  function SortAdjacency(text: Text, adjacency: map<string, seq<GraphEdge>>): map<string, seq<GraphEdge>> {
    map n | n in adjacency :: SortBy(BusierFirst(text), adjacency[n])
  }

  ghost predicate EdgesOrdered(text: Text, adjacency: map<string, seq<GraphEdge>>) {
    forall n | n in adjacency :: Ordered(BusierFirst(text), adjacency[n])
  }

  /** Left is at least as busy as right: more packets, or as many and heard later, or as late and not
      behind in collation. */
  predicate AtLeastAsBusy(text: Text, left: Route, right: Route) {
    || left.packetCount > right.packetCount
    || (left.packetCount == right.packetCount && left.lastHeard > right.lastHeard)
    || (left.packetCount == right.packetCount && left.lastHeard == right.lastHeard
        && !(text.collate(right.id, left.id) < 0))
  }

  ghost predicate BusiestFirst(text: Text, adjacency: map<string, seq<GraphEdge>>) {
    forall n, i, j | n in adjacency && 0 <= i < j < |adjacency[n]| ::
      AtLeastAsBusy(text, adjacency[n][i].route, adjacency[n][j].route)
  }

  /** The collation of names is a strict weak order. */
  ghost predicate OrdersNames(text: Text) {
    && (forall a, b | text.collate(a, b) < 0 :: !(text.collate(b, a) < 0))
    && (forall a, b, c | text.collate(a, b) < 0 && !(text.collate(c, b) < 0) :: text.collate(a, c) < 0)
  }

  lemma CollationOrders(text: Text)
    requires OrdersNames(text)
    ensures StrictWeakOrder(BusierFirst(text))
  {
    forall x, y, z | BusierEdge(text, x, y) && !BusierEdge(text, z, y) ensures BusierEdge(text, x, z) {}
  }

  lemma OrderedIsBusiest(text: Text, adjacency: map<string, seq<GraphEdge>>)
    requires EdgesOrdered(text, adjacency)
    ensures BusiestFirst(text, adjacency)
  {
    forall n, i, j | n in adjacency && 0 <= i < j < |adjacency[n]|
      ensures AtLeastAsBusy(text, adjacency[n][i].route, adjacency[n][j].route)
    {
      assert !BusierFirst(text)(adjacency[n][j], adjacency[n][i]);
    }
  }

  predicate Joins(ids: set<string>, r: Route) {
    r.from.nodeId in ids && r.to.nodeId in ids
  }

  function Forward(r: Route): GraphEdge { GraphEdge(r, r.from.nodeId, r.to.nodeId) }

  function Backward(r: Route): GraphEdge { GraphEdge(r, r.to.nodeId, r.from.nodeId) }

  /** e is one of the two directions of a listed route between known nodes. */
  ghost predicate IsEdgeOf(ids: set<string>, routes: seq<Route>, e: GraphEdge) {
    var from, to := e.route.from.nodeId, e.route.to.nodeId;
    && e.route in routes && from in ids && to in ids
    && (e == GraphEdge(e.route, from, to) || e == GraphEdge(e.route, to, from))
  }

  function Append(adjacency: map<string, seq<GraphEdge>>, n: string, e: GraphEdge): map<string, seq<GraphEdge>> {
    adjacency[n := (if n in adjacency then adjacency[n] else []) + [e]]
  }

  function Register(text: Text, hashes: map<string, string>, n: string, value: string): map<string, string> {
    var normalized := text.normalizeHash3(value);
    if normalized != "" && n !in hashes then hashes[n := normalized] else hashes
  }

  /** The hash route r has for node n: that of its from end when usable, else that of its to end;
      none when n is no end of it or an end is unknown. */
  function HashOf(text: Text, ids: set<string>, r: Route, n: string): string {
    if r.from.nodeId !in ids || r.to.nodeId !in ids then ""
    else if r.from.nodeId == n && text.normalizeHash3(r.from.pathHash3) != "" then text.normalizeHash3(r.from.pathHash3)
    else if r.to.nodeId == n then text.normalizeHash3(r.to.pathHash3)
    else ""
  }

  /** The first of the listed routes that has a hash for n has this one. */
  ghost predicate FirstHash(text: Text, ids: set<string>, routes: seq<Route>, n: string, hash: string, i: int) {
    && 0 <= i < |routes| && hash == HashOf(text, ids, routes[i], n) != ""
    && forall j | 0 <= j < i :: HashOf(text, ids, routes[j], n) == ""
  }

  /** Each node has the first usable hash the routes have for it, or none when they have none. */
  ghost predicate FirstHashes(text: Text, ids: set<string>, routes: seq<Route>, hashes: map<string, string>) {
    && (forall n | n in hashes :: exists i :: FirstHash(text, ids, routes, n, hashes[n], i))
    && forall n, j | n !in hashes && 0 <= j < |routes| :: HashOf(text, ids, routes[j], n) == ""
  }

  /** The edges listed at a node leave it and are directions of listed routes, */
  ghost predicate OnlyRoutes(ids: set<string>, routes: seq<Route>, adjacency: map<string, seq<GraphEdge>>) {
    forall n, e: GraphEdge | n in adjacency && e in adjacency[n] :: e.fromNodeID == n && IsEdgeOf(ids, routes, e)
  }

  /** and every direction of every route between known nodes is listed. */
  ghost predicate AllRoutes(ids: set<string>, routes: seq<Route>, adjacency: map<string, seq<GraphEdge>>) {
    forall r | r in routes && Joins(ids, r) ::
      && r.from.nodeId in adjacency && Forward(r) in adjacency[r.from.nodeId]
      && r.to.nodeId in adjacency && Backward(r) in adjacency[r.to.nodeId]
  }

  ghost predicate AdjacencyOf(ids: set<string>, routes: seq<Route>, adjacency: map<string, seq<GraphEdge>>) {
    OnlyRoutes(ids, routes, adjacency) && AllRoutes(ids, routes, adjacency)
  }

  function DegreeOf(ids: set<string>, routes: seq<Route>, n: string): nat {
    if routes == [] then 0
    else
      var r := routes[|routes| - 1];
      DegreeOf(ids, routes[..|routes| - 1], n) +
      (if !Joins(ids, r) then 0 else (if r.from.nodeId == n then 1 else 0) + (if r.to.nodeId == n then 1 else 0))
  }

  lemma AppendRoute(ids: set<string>, routes: seq<Route>, r: Route, adjacency: map<string, seq<GraphEdge>>)
    requires AdjacencyOf(ids, routes, adjacency) && Joins(ids, r)
    ensures AdjacencyOf(ids, routes + [r],
                        Append(Append(adjacency, r.from.nodeId, Forward(r)), r.to.nodeId, Backward(r)))
  {
    var once := Append(adjacency, r.from.nodeId, Forward(r));
    var twice := Append(once, r.to.nodeId, Backward(r));
    forall n, e: GraphEdge | n in twice && e in twice[n] ensures e.fromNodeID == n && IsEdgeOf(ids, routes + [r], e) {}
    forall q | q in routes + [r] && Joins(ids, q)
      ensures q.from.nodeId in twice && Forward(q) in twice[q.from.nodeId]
      ensures q.to.nodeId in twice && Backward(q) in twice[q.to.nodeId]
    {}
  }

  /** What the search needs of a graph: an edge listed at n leaves n and joins the two
      endpoints of its route. */
  ghost predicate WellFormed(g: Graph) {
    forall n, e: GraphEdge | n in g.adjacency && e in g.adjacency[n] ::
      e.fromNodeID == n && (e == Forward(e.route) || e == Backward(e.route))
  }

  function Ids(nodes: seq<Node>): set<string> {
    set n | n in nodes :: n.id
  }

  /** The last node listed under an id is the one kept for it. */
  ghost predicate LastNodeById(nodes: seq<Node>, nodesByID: map<string, Node>) {
    && nodesByID.Keys == Ids(nodes)
    && forall id | id in nodesByID ::
         exists i :: 0 <= i < |nodes| && nodesByID[id] == nodes[i] && nodes[i].id == id
                     && forall j | i < j < |nodes| :: nodes[j].id != id
  }

  lemma LastNodeStep(nodes: seq<Node>, node: Node, nodesByID: map<string, Node>)
    requires LastNodeById(nodes, nodesByID)
    ensures LastNodeById(nodes + [node], nodesByID[node.id := node])
  {
    var nodes', byID' := nodes + [node], nodesByID[node.id := node];
    assert byID'.Keys == Ids(nodes');
    forall id | id in byID'
      ensures exists i :: 0 <= i < |nodes'| && byID'[id] == nodes'[i] && nodes'[i].id == id
                          && forall j | i < j < |nodes'| :: nodes'[j].id != id
    {
      if id == node.id {
        assert nodes'[|nodes|] == node;
      } else {
        var i :| 0 <= i < |nodes| && nodesByID[id] == nodes[i] && nodes[i].id == id
                 && forall j | i < j < |nodes| :: nodes[j].id != id;
        assert nodes'[i] == nodes[i];
      }
    }
  }

  method IndexNodes(nodes: seq<Node>) returns (nodesByID: map<string, Node>)
    ensures LastNodeById(nodes, nodesByID)
  {
    nodesByID := map[];
    for k := 0 to |nodes|
      invariant LastNodeById(nodes[..k], nodesByID)
    {
      assert nodes[..k + 1] == nodes[..k] + [nodes[k]];
      LastNodeStep(nodes[..k], nodes[k], nodesByID);
      nodesByID := nodesByID[nodes[k].id := nodes[k]];
    }
    assert nodes[..|nodes|] == nodes;
  }

  /** The last route listed under an id, of those between known nodes, is the one kept for it. */
  ghost predicate RoutesById(ids: set<string>, routes: seq<Route>, routesByID: map<string, Route>) {
    && (forall id | id in routesByID ::
          routesByID[id].id == id && exists i :: LastListed(ids, routes, i, routesByID[id]))
    && (forall r | r in routes && Joins(ids, r) :: r.id in routesByID)
  }

  predicate LastListed(ids: set<string>, routes: seq<Route>, i: int, r: Route) {
    && 0 <= i < |routes| && routes[i] == r && r.from.nodeId in ids && r.to.nodeId in ids
    && forall j | i < j < |routes| && Joins(ids, routes[j]) :: routes[j].id != r.id
  }

  lemma StaysLast(ids: set<string>, routes: seq<Route>, i: int, r: Route, next: Route)
    requires LastListed(ids, routes, i, r) && (Joins(ids, next) ==> next.id != r.id)
    ensures LastListed(ids, routes + [next], i, r)
  {
  }

  ghost predicate Degrees(ids: set<string>, routes: seq<Route>, adjacency: map<string, seq<GraphEdge>>) {
    forall n :: (if n in adjacency then |adjacency[n]| else 0) == DegreeOf(ids, routes, n)
  }

  function AddRoute(adjacency: map<string, seq<GraphEdge>>, r: Route): map<string, seq<GraphEdge>> {
    Append(Append(adjacency, r.from.nodeId, Forward(r)), r.to.nodeId, Backward(r))
  }

  function AddHashes(text: Text, hashes: map<string, string>, r: Route): map<string, string> {
    Register(text, Register(text, hashes, r.from.nodeId, r.from.pathHash3), r.to.nodeId, r.to.pathHash3)
  }

  /** What the three tables hold once `routes` have been registered. */
  ghost predicate Registered(text: Text, ids: set<string>, routes: seq<Route>, routesByID: map<string, Route>,
                             adjacency: map<string, seq<GraphEdge>>, hashes: map<string, string>) {
    && AdjacencyOf(ids, routes, adjacency) && Degrees(ids, routes, adjacency)
    && RoutesById(ids, routes, routesByID)
    && FirstHashes(text, ids, routes, hashes)
  }

  lemma AddHashesIs(text: Text, ids: set<string>, hashes: map<string, string>, r: Route, n: string)
    requires Joins(ids, r)
    ensures var after, hash := AddHashes(text, hashes, r), HashOf(text, ids, r, n);
            && (n in after <==> n in hashes || hash != "")
            && (n in after ==> after[n] == if n in hashes then hashes[n] else hash)
  {
  }

  lemma AddHashesStep(text: Text, ids: set<string>, routes: seq<Route>, hashes: map<string, string>, r: Route)
    requires Joins(ids, r) && FirstHashes(text, ids, routes, hashes)
    ensures FirstHashes(text, ids, routes + [r], AddHashes(text, hashes, r))
  {
    var after, all := AddHashes(text, hashes, r), routes + [r];
    forall n | n in after ensures exists i :: FirstHash(text, ids, all, n, after[n], i) {
      AddHashesIs(text, ids, hashes, r, n);
      if n in hashes {
        var i :| FirstHash(text, ids, routes, n, hashes[n], i);
        assert FirstHash(text, ids, all, n, after[n], i);
      } else {
        assert FirstHash(text, ids, all, n, after[n], |routes|);
      }
    }
    forall n, j | n !in after && 0 <= j < |all| ensures HashOf(text, ids, all[j], n) == "" {
      AddHashesIs(text, ids, hashes, r, n);
    }
  }

  lemma SkipHashesStep(text: Text, ids: set<string>, routes: seq<Route>, hashes: map<string, string>, r: Route)
    requires !Joins(ids, r) && FirstHashes(text, ids, routes, hashes)
    ensures FirstHashes(text, ids, routes + [r], hashes)
  {
    forall n | n in hashes ensures exists i :: FirstHash(text, ids, routes + [r], n, hashes[n], i) {
      var i :| FirstHash(text, ids, routes, n, hashes[n], i);
      assert FirstHash(text, ids, routes + [r], n, hashes[n], i);
    }
  }

  lemma RoutesByIdStep(ids: set<string>, routes: seq<Route>, routesByID: map<string, Route>, r: Route)
    requires RoutesById(ids, routes, routesByID) && Joins(ids, r)
    ensures RoutesById(ids, routes + [r], routesByID[r.id := r])
  {
    var byID := routesByID[r.id := r];
    assert LastListed(ids, routes + [r], |routes|, r);
    forall id | id in byID ensures exists i :: LastListed(ids, routes + [r], i, byID[id]) {
      if id != r.id {
        var i :| LastListed(ids, routes, i, byID[id]);
        StaysLast(ids, routes, i, byID[id], r);
      }
    }
  }

  lemma RoutesByIdSkip(ids: set<string>, routes: seq<Route>, routesByID: map<string, Route>, r: Route)
    requires RoutesById(ids, routes, routesByID) && !Joins(ids, r)
    ensures RoutesById(ids, routes + [r], routesByID)
  {
    forall id | id in routesByID ensures exists i :: LastListed(ids, routes + [r], i, routesByID[id]) {
      var i :| LastListed(ids, routes, i, routesByID[id]);
      StaysLast(ids, routes, i, routesByID[id], r);
    }
  }

  lemma RegisterStep(text: Text, ids: set<string>, routes: seq<Route>, routesByID: map<string, Route>,
                     adjacency: map<string, seq<GraphEdge>>, hashes: map<string, string>, r: Route)
    requires Registered(text, ids, routes, routesByID, adjacency, hashes) && Joins(ids, r)
    ensures Registered(text, ids, routes + [r], routesByID[r.id := r], AddRoute(adjacency, r),
                       AddHashes(text, hashes, r))
  {
    AppendRoute(ids, routes, r, adjacency);
    RoutesByIdStep(ids, routes, routesByID, r);
    AddHashesStep(text, ids, routes, hashes, r);
  }

  lemma SkipStep(text: Text, ids: set<string>, routes: seq<Route>, routesByID: map<string, Route>,
                 adjacency: map<string, seq<GraphEdge>>, hashes: map<string, string>, r: Route)
    requires Registered(text, ids, routes, routesByID, adjacency, hashes) && !Joins(ids, r)
    ensures Registered(text, ids, routes + [r], routesByID, adjacency, hashes)
  {
    SkipHashesStep(text, ids, routes, hashes, r);
    RoutesByIdSkip(ids, routes, routesByID, r);
  }

  method RegisterRoutes(nodesByID: map<string, Node>, routes: seq<Route>, text: Text)
    returns (routesByID: map<string, Route>, adjacency: map<string, seq<GraphEdge>>, hashes: map<string, string>)
    ensures Registered(text, nodesByID.Keys, routes, routesByID, adjacency, hashes)
  {
    routesByID, adjacency, hashes := map[], map[], map[];
    for k := 0 to |routes|
      invariant Registered(text, nodesByID.Keys, routes[..k], routesByID, adjacency, hashes)
    {
      var route := routes[k];
      assert routes[..k + 1] == routes[..k] + [route];
      if route.from.nodeId !in nodesByID || route.to.nodeId !in nodesByID {
        SkipStep(text, nodesByID.Keys, routes[..k], routesByID, adjacency, hashes, route);
        continue;
      }
      RegisterStep(text, nodesByID.Keys, routes[..k], routesByID, adjacency, hashes, route);
      hashes := Register(text, hashes, route.from.nodeId, route.from.pathHash3);
      hashes := Register(text, hashes, route.to.nodeId, route.to.pathHash3);
      routesByID := routesByID[route.id := route];
      adjacency := Append(adjacency, route.from.nodeId, Forward(route));
      adjacency := Append(adjacency, route.to.nodeId, Backward(route));
    }
    assert routes[..|routes|] == routes;
  }

  method BuildConnectivityGraph(nodes: seq<Node>, routes: seq<Route>, text: Text) returns (g: Graph)
    ensures LastNodeById(nodes, g.nodesByID)
    ensures Registered(text, g.nodesByID.Keys, routes, g.routesByID, g.adjacency, g.pathHash3ByNodeID)
    ensures WellFormed(g)
    ensures OrdersNames(text) ==> EdgesOrdered(text, g.adjacency) && BusiestFirst(text, g.adjacency)
  {
    var nodesByID := IndexNodes(nodes);
    var routesByID, adjacency, hashes := RegisterRoutes(nodesByID, routes, text);
    SortedAdjacency(text, nodesByID.Keys, routes, adjacency);
    g := Graph(nodesByID, routesByID, SortAdjacency(text, adjacency), hashes);
    BuiltIsWellFormed(nodesByID.Keys, routes, g);
    if OrdersNames(text) {
      CollationOrders(text);
      OrderedIsBusiest(text, g.adjacency);
    }
  }

  lemma BuiltIsWellFormed(ids: set<string>, routes: seq<Route>, g: Graph)
    requires OnlyRoutes(ids, routes, g.adjacency)
    ensures WellFormed(g)
  {
  }

  lemma SortKeepsEdges(text: Text, adjacency: map<string, seq<GraphEdge>>, n: string, e: GraphEdge)
    ensures n in SortAdjacency(text, adjacency) <==> n in adjacency
    ensures n in adjacency ==>
              && (e in SortAdjacency(text, adjacency)[n] <==> e in adjacency[n])
              && |SortAdjacency(text, adjacency)[n]| == |adjacency[n]|
  {
    if n in adjacency { SortMembers(BusierFirst(text), adjacency[n], e); }
  }

  lemma FewerEdgesOnly(ids: set<string>, routes: seq<Route>, big: map<string, seq<GraphEdge>>,
                       small: map<string, seq<GraphEdge>>)
    requires OnlyRoutes(ids, routes, big)
    requires forall n, e: GraphEdge | n in small && e in small[n] :: n in big && e in big[n]
    ensures OnlyRoutes(ids, routes, small)
  {
  }

  lemma SortKeepsOnly(text: Text, ids: set<string>, routes: seq<Route>, adjacency: map<string, seq<GraphEdge>>)
    requires OnlyRoutes(ids, routes, adjacency)
    ensures OnlyRoutes(ids, routes, SortAdjacency(text, adjacency))
  {
    var sorted := SortAdjacency(text, adjacency);
    forall n, e: GraphEdge | n in sorted && e in sorted[n] ensures n in adjacency && e in adjacency[n] {
      SortKeepsEdges(text, adjacency, n, e);
    }
    FewerEdgesOnly(ids, routes, adjacency, sorted);
  }

  lemma SortKeepsAll(text: Text, ids: set<string>, routes: seq<Route>, adjacency: map<string, seq<GraphEdge>>)
    requires AllRoutes(ids, routes, adjacency)
    ensures AllRoutes(ids, routes, SortAdjacency(text, adjacency))
  {
    var sorted := SortAdjacency(text, adjacency);
    forall r | r in routes && Joins(ids, r)
      ensures r.from.nodeId in sorted && Forward(r) in sorted[r.from.nodeId]
      ensures r.to.nodeId in sorted && Backward(r) in sorted[r.to.nodeId]
    {
      SortKeepsEdges(text, adjacency, r.from.nodeId, Forward(r));
      SortKeepsEdges(text, adjacency, r.to.nodeId, Backward(r));
    }
  }

  lemma SortedAdjacency(text: Text, ids: set<string>, routes: seq<Route>, adjacency: map<string, seq<GraphEdge>>)
    requires AdjacencyOf(ids, routes, adjacency) && Degrees(ids, routes, adjacency)
    ensures AdjacencyOf(ids, routes, SortAdjacency(text, adjacency))
    ensures Degrees(ids, routes, SortAdjacency(text, adjacency))
    ensures StrictWeakOrder(BusierFirst(text)) ==> EdgesOrdered(text, SortAdjacency(text, adjacency))
  {
    SortKeepsOnly(text, ids, routes, adjacency);
    SortKeepsAll(text, ids, routes, adjacency);
    var sorted := SortAdjacency(text, adjacency);
    if StrictWeakOrder(BusierFirst(text)) {
      forall n | n in sorted ensures Ordered(BusierFirst(text), sorted[n]) {
        SortIsOrdered(BusierFirst(text), adjacency[n]);
      }
    }
  }

  /** es leads from src to dst along edges of the graph, each starting where the one
      before it ended. */
  ghost predicate Walk(g: Graph, src: string, es: seq<GraphEdge>, dst: string) {
    && (forall i | 0 <= i < |es| :: es[i] in Edges(g, es[i].fromNodeID))
    && (forall i | 0 <= i < |es| - 1 :: es[i].toNodeID == es[i + 1].fromNodeID)
    && (if es == [] then dst == src else es[0].fromNodeID == src && es[|es| - 1].toNodeID == dst)
  }

  /** In a built graph, walks are exactly the chains of routes between known nodes. */
  lemma WalksAreRouteChains(ids: set<string>, routes: seq<Route>, g: Graph, src: string, es: seq<GraphEdge>,
                            dst: string)
    requires AdjacencyOf(ids, routes, g.adjacency)
    ensures Walk(g, src, es, dst) <==>
            && (forall i | 0 <= i < |es| :: IsEdgeOf(ids, routes, es[i]))
            && (forall i | 0 <= i < |es| - 1 :: es[i].toNodeID == es[i + 1].fromNodeID)
            && (if es == [] then dst == src else es[0].fromNodeID == src && es[|es| - 1].toNodeID == dst)
  {
    forall e: GraphEdge ensures e in Edges(g, e.fromNodeID) <==> IsEdgeOf(ids, routes, e) {}
  }
}

/** The server's route aggregate (backend/internal/live/public.go), and the client's incremental
    one started from it. */
module PublicRoutes {
  import opened Shared
  import opened Sorting
  import opened RouteTable
  import opened RouteReducer
  import RouteTotals

  datatype EdgeEndpoint = EdgeEndpoint(nodeId: string, lat: real, lng: real)

  datatype EdgeSegment = EdgeSegment(from: EdgeEndpoint, to: EdgeEndpoint, distanceKm: real)

  datatype EdgeEvent = EdgeEvent(id: nat, payload: string, heardAt: int, segments: seq<EdgeSegment>)

  /** Coordinate validation, route hashing, the endpoint text under one hash index, and pulse ids. */
  datatype Publish = Publish(valid: EdgeEndpoint -> bool, routeId: (string, string) -> string,
                             endpoint: EdgeEndpoint -> string, pulseId: nat -> string)

  function PublicEnds(c: Publish, s: EdgeSegment): Ends { Ends(c.endpoint(s.from), c.endpoint(s.to), s.distanceKm) }

  /** The segments of an edge that may be shown. */
  function Shown(c: Publish, segments: seq<EdgeSegment>): seq<Segment> {
    if segments == [] then []
    else
      var init, s := Shown(c, segments[..|segments| - 1]), segments[|segments| - 1];
      if !c.valid(s.from) || !c.valid(s.to) then init
      else init + [Segment(c.routeId(s.from.nodeId, s.to.nodeId), PublicEnds(c, s))]
  }

  /** Both ends have valid coordinates. */
  function EndsValid(c: Publish): EdgeSegment -> bool { (s: EdgeSegment) => c.valid(s.from) && c.valid(s.to) }

  /** The route between the segment's nodes, with its endpoints in its own direction and its length. */
  predicate Publishes(c: Publish, s: EdgeSegment, p: Segment) {
    && p.routeId == c.routeId(s.from.nodeId, s.to.nodeId)
    && p.ends.from == c.endpoint(s.from) && p.ends.to == c.endpoint(s.to) && p.ends.distanceKm == s.distanceKm
  }

  /** What is shown are the segments with both ends valid, in order, each published as it is. */
  lemma {:induction false} ShownAreValid(c: Publish, segments: seq<EdgeSegment>) returns (kept: seq<EdgeSegment>)
    ensures Selects(kept, segments, EndsValid(c)) && |kept| == |Shown(c, segments)|
    ensures forall i | 0 <= i < |kept| :: Publishes(c, kept[i], Shown(c, segments)[i])
  {
    kept := [];
    if segments != [] {
      var init, s := segments[..|segments| - 1], segments[|segments| - 1];
      assert segments == init + [s];
      var before := ShownAreValid(c, init);
      kept := if EndsValid(c)(s) then before + [s] else before;
      SelectsOne(before, init, EndsValid(c), s, segments, kept);
    }
  }

  function PulseOf(c: Publish, edge: EdgeEvent): Pulse {
    Pulse(c.pulseId(edge.id), edge.heardAt, edge.payload, Shown(c, edge.segments))
  }

  function PulsesOf(c: Publish, edges: seq<EdgeEvent>): seq<Pulse> {
    if edges == [] then []
    else
      var init, last := PulsesOf(c, edges[..|edges| - 1]), edges[|edges| - 1];
      if Shown(c, last.segments) == [] then init else init + [PulseOf(c, last)]
  }

  /** PublicRoutePulseFromEdge: no pulse without a segment to show. */
  method PublicRoutePulseFromEdge(c: Publish, edge: EdgeEvent) returns (pulse: Option<Pulse>)
    ensures pulse == if Shown(c, edge.segments) == [] then None else Some(PulseOf(c, edge))
    ensures pulse.Some? ==>
              pulse.value == Pulse(c.pulseId(edge.id), edge.heardAt, edge.payload, Shown(c, edge.segments))
  {
    var segments: seq<Segment> := [];
    for i := 0 to |edge.segments|
      invariant segments == Shown(c, edge.segments[..i])
    {
      var s := edge.segments[i];
      assert edge.segments[..i + 1][..i] == edge.segments[..i];
      if !c.valid(s.from) || !c.valid(s.to) { continue; }
      segments := segments + [Segment(c.routeId(s.from.nodeId, s.to.nodeId), PublicEnds(c, s))];
    }
    assert edge.segments[..|edge.segments|] == edge.segments;
    if |segments| == 0 { return None; }
    return Some(Pulse(c.pulseId(edge.id), edge.heardAt, edge.payload, segments));
  }

  // ---------------------------------------------------------------------------
  // BuildPublicRoutes
  // ---------------------------------------------------------------------------

  /** The hits the server counts. */
  function EdgeHits(c: Publish, edges: seq<EdgeEvent>): seq<Hit> { AllHits(PulsesOf(c, edges)) }

  /** The server's aggregate of a route: last heard starts at 0, empty payload names are dropped. */
  function Served(id: string, g: Group): Route { Route(id, g.ends, g.hits, Max(0, g.lastHeard), g.payloads - {""}) }

  ghost predicate Serves(routes: seq<Route>, groups: map<string, Group>) {
    && UniqueIds(routes)
    && (forall i | 0 <= i < |routes| ::
          routes[i].id in groups && routes[i] == Served(routes[i].id, groups[routes[i].id]))
    && (forall id | id in groups :: Has(routes, id))
  }

  /** Busiest first, the latest heard first among equals. */
  predicate Ranked(routes: seq<Route>) {
    forall i, j | 0 <= i < j < |routes| ::
      && routes[i].packetCount >= routes[j].packetCount
      && (routes[i].packetCount == routes[j].packetCount ==> routes[i].lastHeard >= routes[j].lastHeard)
  }

  /** byID agrees with the groups of the hits so far. */
  ghost predicate Aggregates(byID: map<string, Route>, groups: map<string, Group>) {
    && byID.Keys == groups.Keys
    && forall id | id in groups ::
         byID[id] == Route(id, groups[id].ends, groups[id].hits, Max(0, groups[id].lastHeard), groups[id].payloads)
  }

  method CountSegment(byID: map<string, Route>, id: string, ends: Ends, edge: EdgeEvent, ghost hits: seq<Hit>)
    returns (next: map<string, Route>)
    requires Aggregates(byID, Groups(hits))
    ensures Aggregates(next, Groups(hits + [Hit(id, ends, edge.heardAt, edge.payload)]))
  {
    var item := if id in byID then byID[id] else Route(id, ends, 0, 0, {});
    item := item.(packetCount := item.packetCount + 1);
    if edge.heardAt > item.lastHeard { item := item.(lastHeard := edge.heardAt); }
    item := item.(payloads := item.payloads + {edge.payload});
    next := byID[id := item];
  }

  lemma ShownStep(c: Publish, edge: EdgeEvent, i: nat, done: seq<Hit>)
    requires i < |edge.segments|
    ensures var s := edge.segments[i];
            var p := PulseOf(c, edge);
            done + HitsOf(p, Shown(c, edge.segments[..i + 1])) ==
            if !c.valid(s.from) || !c.valid(s.to) then done + HitsOf(p, Shown(c, edge.segments[..i]))
            else done + HitsOf(p, Shown(c, edge.segments[..i]))
                 + [Hit(c.routeId(s.from.nodeId, s.to.nodeId), PublicEnds(c, s), edge.heardAt, edge.payload)]
  {
    assert edge.segments[..i + 1][..i] == edge.segments[..i];
    var p, s := PulseOf(c, edge), edge.segments[i];
    var before := Shown(c, edge.segments[..i]);
    var seg := Segment(c.routeId(s.from.nodeId, s.to.nodeId), PublicEnds(c, s));
    assert (before + [seg])[..|before|] == before;
  }

  method CountEdge(c: Publish, byID: map<string, Route>, edge: EdgeEvent,
                   ghost done: seq<Hit>) returns (next: map<string, Route>)
    requires Aggregates(byID, Groups(done))
    ensures Aggregates(next, Groups(done + HitsOf(PulseOf(c, edge), Shown(c, edge.segments))))
  {
    next := byID;
    ghost var p := PulseOf(c, edge);
    assert done + HitsOf(p, Shown(c, edge.segments[..0])) == done;
    for i := 0 to |edge.segments|
      invariant Aggregates(next, Groups(done + HitsOf(p, Shown(c, edge.segments[..i]))))
    {
      var s := edge.segments[i];
      ShownStep(c, edge, i, done);
      if !c.valid(s.from) || !c.valid(s.to) { continue; }
      next := CountSegment(next, c.routeId(s.from.nodeId, s.to.nodeId), PublicEnds(c, s), edge,
                           done + HitsOf(p, Shown(c, edge.segments[..i])));
    }
    assert edge.segments[..|edge.segments|] == edge.segments;
  }

  lemma EdgeHitsSnoc(c: Publish, edges: seq<EdgeEvent>, k: nat)
    requires k < |edges|
    ensures EdgeHits(c, edges[..k + 1]) == EdgeHits(c, edges[..k]) +
            HitsOf(PulseOf(c, edges[k]), Shown(c, edges[k].segments))
  {
    assert edges[..k + 1][..k] == edges[..k];
    var before, p := PulsesOf(c, edges[..k]), PulseOf(c, edges[k]);
    if p.segments == [] {
      assert AllHits(before) + HitsOf(p, []) == AllHits(before);
    } else {
      assert (before + [p])[..|before|] == before;
    }
  }

  function Busier(): (Route, Route) -> bool {
    (a: Route, b: Route) => a.packetCount > b.packetCount
        || (a.packetCount == b.packetCount && a.lastHeard > b.lastHeard)
  }

  lemma ServesPermuted(routes: seq<Route>, sorted: seq<Route>, groups: map<string, Group>)
    requires Serves(routes, groups) && multiset(routes) == multiset(sorted)
    ensures Serves(sorted, groups)
  {
    forall r ensures r in routes <==> r in sorted { PermutationMembers(routes, sorted, r); }
    assert Distinct(routes);
    DistinctPermutation(routes, sorted);
    forall i | 0 <= i < |sorted|
      ensures sorted[i].id in groups && sorted[i] == Served(sorted[i].id, groups[sorted[i].id])
    {
      assert sorted[i] in routes;
    }
    forall id | id in groups ensures Has(sorted, id) {
      var i :| 0 <= i < |routes| && routes[i].id == id;
      assert routes[i] in sorted;
    }
  }

  lemma SortRanks(routes: seq<Route>)
    ensures Ranked(SortBy(Busier(), routes))
  {
    SortIsOrdered(Busier(), routes);
  }

  /** The route tells of these hits: how many, where the first one passed, when the latest was heard,
      no earlier than 0, and their named payloads. */
  ghost predicate Tells(r: Route, own: seq<Hit>) {
    && r.packetCount == |own| > 0 && r.ends == own[0].ends
    && 0 <= r.lastHeard && (forall h | h in own :: h.heardAt <= r.lastHeard)
    && (r.lastHeard == 0 || exists h :: h in own && h.heardAt == r.lastHeard)
    && forall p :: p in r.payloads <==> p != "" && exists h :: h in own && h.payload == p
  }

  /** Each route that was hit is listed once and tells of its hits. */
  ghost predicate AllTell(routes: seq<Route>, hits: seq<Hit>) {
    && UniqueIds(routes)
    && (forall i | 0 <= i < |routes| :: Tells(routes[i], RouteTotals.HitsOn(hits, routes[i].id)))
    && (forall id | RouteTotals.HitsOn(hits, id) != [] :: Has(routes, id))
  }

  lemma SumIsTold(id: string, g: Group, own: seq<Hit>)
    requires RouteTotals.SumsUp(own, g)
    ensures Tells(Served(id, g), own)
  {
  }

  lemma ServesAllTell(routes: seq<Route>, hits: seq<Hit>)
    requires Serves(routes, Groups(hits))
    ensures AllTell(routes, hits)
  {
    forall i | 0 <= i < |routes| ensures Tells(routes[i], RouteTotals.HitsOn(hits, routes[i].id)) {
      RouteTotals.GroupsSumUp(hits, routes[i].id);
      SumIsTold(routes[i].id, Groups(hits)[routes[i].id], RouteTotals.HitsOn(hits, routes[i].id));
    }
    forall id | RouteTotals.HitsOn(hits, id) != [] ensures Has(routes, id) { RouteTotals.GroupsSumUp(hits, id); }
  }

  /** BuildPublicRoutes, without the ids per packet. */
  method BuildPublicRoutes(c: Publish, edges: seq<EdgeEvent>) returns (routes: seq<Route>)
    ensures Serves(routes, Groups(EdgeHits(c, edges))) && AllTell(routes, EdgeHits(c, edges)) && Ranked(routes)
  {
    ghost var groups := Groups(EdgeHits(c, edges));
    var byID: map<string, Route> := map[];
    for e := 0 to |edges|
      invariant Aggregates(byID, Groups(EdgeHits(c, edges[..e])))
    {
      EdgeHitsSnoc(c, edges, e);
      byID := CountEdge(c, byID, edges[e], EdgeHits(c, edges[..e]));
    }
    assert edges[..|edges|] == edges;
    routes := [];
    var left := byID.Keys;
    while left != {}
      invariant left <= byID.Keys && UniqueIds(routes)
      invariant forall i | 0 <= i < |routes| ::
        routes[i].id in groups && routes[i].id !in left && routes[i] == Served(routes[i].id, groups[routes[i].id])
      invariant forall id | id in groups :: id in left || Has(routes, id)
    {
      var id :| id in left;
      var item := byID[id];
      item := item.(payloads := item.payloads - {""});
      HasSnoc(routes, item);
      routes := routes + [item];
      left := left - {id};
    }
    SortRanks(routes);
    SortPermutes(Busier(), routes);
    ServesPermuted(routes, SortBy(Busier(), routes), groups);
    routes := SortBy(Busier(), routes);
    ServesAllTell(routes, EdgeHits(c, edges));
  }

  // ---------------------------------------------------------------------------
  // Incremental against rebuilt
  // ---------------------------------------------------------------------------

  /** Two routes with the same aggregate. */
  ghost predicate SameRoutes(a: seq<Route>, b: seq<Route>) {
    && (forall id :: Has(a, id) <==> Has(b, id))
    && (forall i, j | 0 <= i < |a| && 0 <= j < |b| && a[i].id == b[j].id :: a[i] == b[j])
  }

  /** Groups of consecutive hits join per route. */
  lemma {:induction false} GroupsConcat(a: seq<Hit>, b: seq<Hit>)
    ensures var g, h, all := Groups(a), Groups(b), Groups(a + b);
            && all.Keys == g.Keys + h.Keys
            && forall id | id in all ::
                 all[id] == if id !in h then g[id] else if id in g then Join(g[id], h[id]) else h[id]
  {
    if b == [] {
      assert a + b == a;
    } else {
      var n := |b| - 1;
      assert (a + b)[..|a + b| - 1] == a + b[..n];
      GroupsConcat(a, b[..n]);
    }
  }

  /** The client's table after the hits, started from the server's routes. */
  function Incremental(routes: seq<Route>, hits: seq<Hit>): seq<Route> { TouchAll(Snapshot(routes), hits).routes }

  /** What the client shows for an id touched by both parts, by the first only, by the second only. */
  function Shows(id: string, first: map<string, Group>, second: map<string, Group>): Route
    requires id in first || id in second
  {
    if id !in first then Fresh(id, second[id])
    else if id in second then Absorb(Served(id, first[id]), second[id])
    else Served(id, first[id])
  }

  ghost predicate Showing(r: seq<Route>, first: map<string, Group>, second: map<string, Group>) {
    && (forall i | 0 <= i < |r| :: (r[i].id in first || r[i].id in second) && r[i] == Shows(r[i].id, first, second))
    && (forall id | id in first || id in second :: Has(r, id))
  }

  lemma ShownRoute(r: seq<Route>, routes: seq<Route>, unknown: seq<string>, first: map<string, Group>,
                   second: map<string, Group>, i: nat)
    requires Serves(routes, first) && Batched(r, routes, unknown, second) && i < |r|
    requires forall id | id in unknown :: id in second && id !in first
    ensures (r[i].id in first || r[i].id in second) && r[i] == Shows(r[i].id, first, second)
  {
    if i < |routes| {
      assert r[i] == AbsorbFrom(routes[i], second);
    } else {
      var k := i - |routes|;
      assert r[|routes| + k] == Fresh(unknown[k], second[unknown[k]]) && unknown[k] in unknown;
    }
  }

  lemma IncrementalShows(routes: seq<Route>, first: map<string, Group>, hits: seq<Hit>)
    requires Serves(routes, first)
    ensures Showing(Incremental(routes, hits), first, Groups(hits))
  {
    var t, r, second := Snapshot(routes), Incremental(routes, hits), Groups(hits);
    SnapshotValidIff(routes);
    TouchAllBatches(t, hits);
    OrderOfGroups(hits);
    UnknownMembers(FirstOrder(hits), t.index);
    var unknown := Unknown(FirstOrder(hits), t.index);
    forall id ensures id in unknown <==> id in second && id !in first {}
    forall i | 0 <= i < |r| ensures (r[i].id in first || r[i].id in second) && r[i] == Shows(r[i].id, first, second) {
      ShownRoute(r, routes, unknown, first, second, i);
    }
    forall id | id in first || id in second ensures Has(r, id) {}
  }

  /** What the incremental side misses: names the server would drop, and times before 0 on routes
      that are new. */
  ghost predicate Agreeable(first: map<string, Group>, second: map<string, Group>) {
    && (forall id | id in second :: "" !in second[id].payloads)
    && (forall id | id in second && id !in first :: second[id].lastHeard >= 0)
  }

  lemma SameShown(id: string, first: map<string, Group>, second: map<string, Group>, whole: Group)
    requires id in first || id in second
    requires whole == if id !in second then first[id]
                      else if id in first then Join(first[id], second[id]) else second[id]
    ensures Shows(id, first, second) == Served(id, whole) <==>
            (id in second ==> "" !in second[id].payloads && (id !in first ==> second[id].lastHeard >= 0))
  {
    if id in second && "" in second[id].payloads {
      assert "" in Shows(id, first, second).payloads && "" !in Served(id, whole).payloads;
    }
  }

  lemma AgreeingRoutesAreSame(r: seq<Route>, rebuilt: seq<Route>, g: map<string, Group>, h: map<string, Group>,
                              all: map<string, Group>)
    requires Showing(r, g, h) && Serves(rebuilt, all) && all.Keys == g.Keys + h.Keys
    requires forall id | id in all :: Shows(id, g, h) == Served(id, all[id])
    ensures SameRoutes(r, rebuilt)
  {
    forall id ensures Has(r, id) <==> Has(rebuilt, id) {
      if Has(r, id) { var i :| 0 <= i < |r| && r[i].id == id; assert id in all; }
      if Has(rebuilt, id) { var i :| 0 <= i < |rebuilt| && rebuilt[i].id == id; assert id in all; }
    }
  }

  /** Applying the pulses of later edges to the routes of earlier ones gives the routes of them
      all, exactly when no payload name is empty and no new route was only heard before time 0. */
  lemma IncrementalIsRebuildIff(first: seq<Route>, rebuilt: seq<Route>, hits1: seq<Hit>, hits2: seq<Hit>)
    requires Serves(first, Groups(hits1)) && Serves(rebuilt, Groups(hits1 + hits2))
    ensures SameRoutes(Incremental(first, hits2), rebuilt) <==> Agreeable(Groups(hits1), Groups(hits2))
  {
    var g, h, all := Groups(hits1), Groups(hits2), Groups(hits1 + hits2);
    var r := Incremental(first, hits2);
    IncrementalShows(first, g, hits2);
    GroupsConcat(hits1, hits2);
    if Agreeable(g, h) {
      forall id | id in all ensures Shows(id, g, h) == Served(id, all[id]) { SameShown(id, g, h, all[id]); }
      AgreeingRoutesAreSame(r, rebuilt, g, h, all);
    }
    if SameRoutes(r, rebuilt) {
      forall id | id in h ensures "" !in h[id].payloads && (id !in g ==> h[id].lastHeard >= 0) {
        SameShown(id, g, h, all[id]);
      }
    }
  }

  lemma OneGroup(h: Hit)
    ensures Groups([h]) == map[h.routeId := One(h)] && Groups([]) == map[]
  {
    assert [h][..0] == [];
  }

  /** One later hit on a new route, with an empty payload name, or heard before time 0: the client
      shows what it got, the rebuild drops the name and raises the time. */
  lemma OneHitDiffers(h: Hit, rebuilt: seq<Route>)
    requires (h.payload == "" || h.heardAt < 0) && Serves(rebuilt, Groups([] + [h]))
    ensures Incremental([], [h]) == [Route(h.routeId, h.ends, 1, h.heardAt, {h.payload})]
    ensures rebuilt == [Route(h.routeId, h.ends, 1, Max(0, h.heardAt), {h.payload} - {""})]
    ensures !SameRoutes(Incremental([], [h]), rebuilt)
  {
    OneGroup(h);
    assert [] + [h] == [h] && [h][..0] == [];
    assert TouchAll(Snapshot([]), [h]) == Touch(TouchAll(Snapshot([]), []), h);
    OnlyRoute(rebuilt, h);
    var shown := Incremental([], [h]);
    assert shown[0].id == rebuilt[0].id;
    if h.payload == "" { assert "" in shown[0].payloads && "" !in rebuilt[0].payloads; }
  }

  lemma OnlyRoute(routes: seq<Route>, h: Hit)
    requires Serves(routes, map[h.routeId := One(h)])
    ensures routes == [Served(h.routeId, One(h))]
  {
    assert Has(routes, h.routeId);
    if |routes| > 1 {
      TwoDiffer(routes);
      assert false;
    }
  }

  lemma TwoDiffer(routes: seq<Route>)
    requires UniqueIds(routes) && |routes| > 1
    ensures routes[0].id != routes[1].id
  {
  }

  // ---------------------------------------------------------------------------
  // From edges to the screen
  // ---------------------------------------------------------------------------

  lemma {:induction false} ShownHits(p: Pulse, segments: seq<Segment>)
    ensures forall h | h in HitsOf(p, segments) :: h.heardAt == p.heardAt && h.payload == p.payload
  {
    if segments != [] { ShownHits(p, segments[..|segments| - 1]); }
  }

  predicate Plain(hits: seq<Hit>) { forall h | h in hits :: h.payload != "" && h.heardAt >= 0 }

  /** Named payload types, heard at non-negative times. */
  predicate Wellformed(edges: seq<EdgeEvent>) {
    forall i | 0 <= i < |edges| :: edges[i].payload != "" && edges[i].heardAt >= 0
  }

  lemma {:induction false} PlainEdges(c: Publish, edges: seq<EdgeEvent>)
    requires Wellformed(edges)
    ensures Plain(EdgeHits(c, edges))
  {
    if edges != [] {
      var n := |edges| - 1;
      PlainEdges(c, edges[..n]);
      assert edges[..n + 1] == edges;
      EdgeHitsSnoc(c, edges, n);
      ShownHits(PulseOf(c, edges[n]), Shown(c, edges[n].segments));
    }
  }

  lemma {:induction false} PlainGroups(hits: seq<Hit>)
    requires Plain(hits)
    ensures forall id | id in Groups(hits) :: "" !in Groups(hits)[id].payloads && Groups(hits)[id].lastHeard >= 0
  {
    if hits != [] {
      assert hits[|hits| - 1] in hits && forall h | h in hits[..|hits| - 1] :: h in hits;
      PlainGroups(hits[..|hits| - 1]);
    }
  }

  lemma {:induction false} PulsesOfConcat(c: Publish, a: seq<EdgeEvent>, b: seq<EdgeEvent>)
    ensures PulsesOf(c, a + b) == PulsesOf(c, a) + PulsesOf(c, b)
  {
    if b == [] {
      assert a + b == a;
    } else {
      var n := |b| - 1;
      assert (a + b)[..|a + b| - 1] == a + b[..n];
      PulsesOfConcat(c, a, b[..n]);
    }
  }

  lemma EdgeHitsConcat(c: Publish, a: seq<EdgeEvent>, b: seq<EdgeEvent>)
    ensures EdgeHits(c, a + b) == EdgeHits(c, a) + EdgeHits(c, b)
  {
    PulsesOfConcat(c, a, b);
    AllHitsConcat(PulsesOf(c, a), PulsesOf(c, b));
  }

  lemma StreamTouches<R, O>(env: Env<R, O>, app: App<R>, messages: seq<Message<O>>)
    requires FreshStream(app, messages)
    ensures Batch(env, app, messages).table == TouchAll(app.table, AllHits(PulsesIn(messages)))
  {
    AcceptsAll(env, app, messages);
    TakeAllKeepsTable(env, app, messages);
  }

  lemma PlainAgrees(c: Publish, edges1: seq<EdgeEvent>, edges2: seq<EdgeEvent>)
    requires Wellformed(edges2)
    ensures Agreeable(Groups(EdgeHits(c, edges1)), Groups(EdgeHits(c, edges2)))
  {
    PlainEdges(c, edges2);
    PlainGroups(EdgeHits(c, edges2));
  }

  lemma TableIsRebuild(t: Table, first: seq<Route>, rebuilt: seq<Route>, hits1: seq<Hit>, hits2: seq<Hit>,
                       hits: seq<Hit>)
    requires t == TouchAll(Snapshot(first), hits2) && hits == hits1 + hits2 && Agreeable(Groups(hits1), Groups(hits2))
    requires Serves(first, Groups(hits1)) && Serves(rebuilt, Groups(hits))
    ensures SameRoutes(t.routes, rebuilt)
  {
    IncrementalIsRebuildIff(first, rebuilt, hits1, hits2);
  }

  /** A client that loads the routes of the edges so far and then receives a fresh stream with
      the pulses of the later edges shows the routes the server would rebuild from all edges. */
  lemma StreamIsRebuild<R, O>(c: Publish, env: Env<R, O>, app: App<R>, messages: seq<Message<O>>,
                              edges1: seq<EdgeEvent>, edges2: seq<EdgeEvent>, first: seq<Route>, rebuilt: seq<Route>)
    requires Serves(first, Groups(EdgeHits(c, edges1))) && Serves(rebuilt, Groups(EdgeHits(c, edges1 + edges2)))
    requires app.table == Snapshot(first) && FreshStream(app, messages) && PulsesIn(messages) == PulsesOf(c, edges2)
    requires Wellformed(edges2)
    ensures SameRoutes(Batch(env, app, messages).table.routes, rebuilt)
  {
    var t := Batch(env, app, messages).table;
    assert t == TouchAll(Snapshot(first), EdgeHits(c, edges2)) by { StreamTouches(env, app, messages); }
    assert EdgeHits(c, edges1 + edges2) == EdgeHits(c, edges1) + EdgeHits(c, edges2) by {
      EdgeHitsConcat(c, edges1, edges2);
    }
    assert Agreeable(Groups(EdgeHits(c, edges1)), Groups(EdgeHits(c, edges2))) by { PlainAgrees(c, edges1, edges2); }
    assert SameRoutes(t.routes, rebuilt) by {
      TableIsRebuild(t, first, rebuilt, EdgeHits(c, edges1), EdgeHits(c, edges2), EdgeHits(c, edges1 + edges2));
    }
  }
}

/** Hit-testing nodes and curved edges through the grid, against looking at everything
    (web/src/netgraphPrepared.ts). */
module HitTest {
  import opened Shared
  import opened Geometry
  import opened SpatialIndex

  datatype Node = Node(at: Point, radius: real)

  /** The control point and the box are what a refresh computes; the rest identifies the edge. */
  datatype Edge = Edge(id: string, sourceIndex: int, targetIndex: int, width: real, control: Point, box: Bounds)

  datatype Graph = Graph(nodes: seq<Node>, edges: seq<Edge>, nodeGrid: Grid, edgeGrid: Grid)

  const CELL_SIZE: real := 128.0
  const STEPS: int := 10

  predicate Attached(e: Edge, nodes: seq<Node>) { 0 <= e.sourceIndex < |nodes| && 0 <= e.targetIndex < |nodes| }

  function NodeBox(n: Node): Bounds {
    Bounds(n.at.x - n.radius, n.at.y - n.radius, n.at.x + n.radius, n.at.y + n.radius)
  }

  function NodeBoxes(nodes: seq<Node>): seq<Bounds> { seq(|nodes|, i requires 0 <= i < |nodes| => NodeBox(nodes[i])) }

  function EdgeBoxes(edges: seq<Edge>): seq<Bounds> { seq(|edges|, i requires 0 <= i < |edges| => edges[i].box) }

  // ---------------------------------------------------------------------------
  // Refreshing edge geometry
  // ---------------------------------------------------------------------------

  function Padding(e: Edge): real { Geometry.Max(16.0, e.width + 10.0) }

  function BoxAround(s: Point, t: Point, c: Point, padding: real): Bounds {
    Bounds(Geometry.Min(Geometry.Min(s.x, t.x), c.x) - padding, Geometry.Min(Geometry.Min(s.y, t.y), c.y) - padding,
           Geometry.Max(Geometry.Max(s.x, t.x), c.x) + padding, Geometry.Max(Geometry.Max(s.y, t.y), c.y) + padding)
  }

  function Refreshed(e: Edge, nodes: seq<Node>, controlPoint: (Node, Node, Edge) -> Point): Edge {
    if !Attached(e, nodes) then e
    else
      var s, t := nodes[e.sourceIndex], nodes[e.targetIndex];
      var c := controlPoint(s, t, e);
      e.(control := c, box := BoxAround(s.at, t.at, c, Padding(e)))
  }

  /** The box holds the edge's three defining points. */
  predicate Boxed(e: Edge, nodes: seq<Node>)
    requires Attached(e, nodes)
  {
    Within(e.box, nodes[e.sourceIndex].at) && Within(e.box, nodes[e.targetIndex].at) && Within(e.box, e.control)
  }

  /** low is least among a, b and c. */
  predicate IsLeast(low: real, a: real, b: real, c: real) {
    low <= a && low <= b && low <= c && (low == a || low == b || low == c)
  }

  /** A refreshed edge's box leaves a margin of 16, or 10 more than its width if that is more, around the
      three points, and no more. */
  lemma BoxIsTight(e: Edge, nodes: seq<Node>, controlPoint: (Node, Node, Edge) -> Point)
    requires Attached(e, nodes)
    ensures var s, t, r := nodes[e.sourceIndex], nodes[e.targetIndex], Refreshed(e, nodes, controlPoint);
            var a, b, c, b', margin := s.at, t.at, controlPoint(s, t, e), r.box,
                                       if e.width > 6.0 then e.width + 10.0 else 16.0;
            && r.control == c
            && IsLeast(b'.minX + margin, a.x, b.x, c.x) && IsLeast(b'.minY + margin, a.y, b.y, c.y)
            && IsLeast(margin - b'.maxX, -a.x, -b.x, -c.x) && IsLeast(margin - b'.maxY, -a.y, -b.y, -c.y)
  {
  }

  ghost predicate Ready(g: Graph) {
    && Indexes(g.nodeGrid, NodeBoxes(g.nodes)) && Indexes(g.edgeGrid, EdgeBoxes(g.edges))
    && forall i | 0 <= i < |g.edges| && Attached(g.edges[i], g.nodes) :: Boxed(g.edges[i], g.nodes)
  }

  /** refreshPreparedEdgeGeometry: edges in place, then both grids anew. */
  method RefreshPreparedEdgeGeometry(nodes: seq<Node>, edges: array<Edge>, controlPoint: (Node, Node, Edge) -> Point)
    returns (g: Graph)
    modifies edges
    ensures forall k | 0 <= k < edges.Length :: edges[k] == Refreshed(old(edges[k]), nodes, controlPoint)
    ensures g.nodes == nodes && g.edges == edges[..] && Ready(g)
  {
    for k := 0 to edges.Length
      invariant forall j | 0 <= j < k :: edges[j] == Refreshed(old(edges[j]), nodes, controlPoint)
      invariant forall j | k <= j < edges.Length :: edges[j] == old(edges[j])
      invariant forall j | 0 <= j < k && Attached(edges[j], nodes) :: Boxed(edges[j], nodes)
    {
      var edge := edges[k];
      if Attached(edge, nodes) {
        var source, target := nodes[edge.sourceIndex], nodes[edge.targetIndex];
        var control := controlPoint(source, target, edge);
        edges[k] := edge.(control := control, box := BoxAround(source.at, target.at, control, Padding(edge)));
      }
    }
    var nodeGrid := IndexBoxes(NodeBoxes(nodes), CELL_SIZE);
    var edgeGrid := IndexBoxes(EdgeBoxes(edges[..]), CELL_SIZE);
    g := Graph(nodes, edges[..], nodeGrid, edgeGrid);
  }

  // ---------------------------------------------------------------------------
  // Nodes
  // ---------------------------------------------------------------------------

  function Allowance(pixels: real, scale: real): (r: real)
    requires pixels >= 0.0
    ensures r >= 0.0 && r * (if scale > 0.001 then scale else 0.001) == pixels
  {
    pixels / Geometry.Max(0.001, scale)
  }

  predicate NodeHit(n: Node, p: Point, allowance: real) {
    SquaredDistance(p, n.at) <= (n.radius + allowance) * (n.radius + allowance)
  }

  /** At a distance d along an axis a node is hit exactly within its radius and the allowance. */
  lemma NodeHitAlongAxes(n: Node, d: real, allowance: real)
    requires 0.0 <= d && 0.0 <= n.radius && 0.0 <= allowance
    ensures NodeHit(n, Point(n.at.x + d, n.at.y), allowance) <==> d <= n.radius + allowance
    ensures NodeHit(n, Point(n.at.x, n.at.y - d), allowance) <==> d <= n.radius + allowance
  {
    var h := n.radius + allowance;
    SquaresOrder(d, h);
  }

  lemma SquaresOrder(d: real, h: real)
    requires 0.0 <= d && 0.0 <= h
    ensures d * d <= h * h <==> d <= h
  {
    if d <= h { assert (h - d) * (h + d) >= 0.0; } else { Positive(d - h, d + h); }
  }

  function Around(p: Point, margin: real): Bounds { Bounds(p.x - margin, p.y - margin, p.x + margin, p.y + margin) }

  /** A coordinate both ranges reach. */
  function Meet(a: real, b: real): real { Geometry.Max(a, b) }

  /** A hit node's box meets the box around the point. */
  lemma HitNodeMeets(n: Node, p: Point, allowance: real, margin: real)
    requires n.radius >= 0.0 && 0.0 <= allowance <= margin && NodeHit(n, p, allowance)
    ensures var q := Point(Meet(n.at.x - n.radius, p.x - margin), Meet(n.at.y - n.radius, p.y - margin));
            Within(NodeBox(n), q) && Within(Around(p, margin), q)
  {
    NearAlongAxes(p, n.at, n.radius + allowance);
  }

  ghost predicate NearestNode(g: Graph, p: Point, allowance: real, best: Option<int>, among: seq<int>) {
    match best
    case None => forall i | i in among && 0 <= i < |g.nodes| :: !NodeHit(g.nodes[i], p, allowance)
    case Some(b) =>
      && 0 <= b < |g.nodes| && NodeHit(g.nodes[b], p, allowance)
      && forall i | i in among && 0 <= i < |g.nodes| && NodeHit(g.nodes[i], p, allowance) ::
           SquaredDistance(p, g.nodes[b].at) <= SquaredDistance(p, g.nodes[i].at)
  }

  lemma NodeCandidates(g: Graph, p: Point, allowance: real, margin: real, i: int)
    requires Ready(g) && 0 <= i < |g.nodes| && g.nodes[i].radius >= 0.0 && 0.0 <= allowance <= margin
    requires NodeHit(g.nodes[i], p, allowance)
    ensures exists c :: Covers(Around(p, margin), g.nodeGrid.cellSize, c) && Holds(g.nodeGrid.buckets, c, i)
  {
    var n := g.nodes[i];
    HitNodeMeets(n, p, allowance, margin);
    var q := Point(Meet(n.at.x - n.radius, p.x - margin), Meet(n.at.y - n.radius, p.y - margin));
    SharedPointIsFound(g.nodeGrid, NodeBoxes(g.nodes), Around(p, margin), i, q);
  }

  /** preparedHitNode: null exactly when no node is hit, otherwise a hit node at least distance. */
  method PreparedHitNode(g: Graph, p: Point, scale: real) returns (best: Option<int>)
    requires Ready(g) && forall i | 0 <= i < |g.nodes| :: g.nodes[i].radius >= 0.0
    ensures best.None? ==> forall i | 0 <= i < |g.nodes| :: !NodeHit(g.nodes[i], p, Allowance(8.0, scale))
    ensures best.Some? ==>
              && 0 <= best.value < |g.nodes| && NodeHit(g.nodes[best.value], p, Allowance(8.0, scale))
              && forall i | 0 <= i < |g.nodes| && NodeHit(g.nodes[i], p, Allowance(8.0, scale)) ::
                   SquaredDistance(p, g.nodes[best.value].at) <= SquaredDistance(p, g.nodes[i].at)
  {
    var allowance := Allowance(8.0, scale);
    var candidates := QuerySpatialIndex(g.nodeGrid, Around(p, allowance + 18.0));
    best := None;
    var bestDistance := 0.0;
    for k := 0 to |candidates|
      invariant NearestNode(g, p, allowance, best, candidates[..k])
      invariant best.Some? ==> bestDistance == SquaredDistance(p, g.nodes[best.value].at)
    {
      var index := candidates[k];
      assert candidates[..k + 1] == candidates[..k] + [index];
      if 0 <= index < |g.nodes| {
        var distance := SquaredDistance(p, g.nodes[index].at);
        if NodeHit(g.nodes[index], p, allowance) && (best.None? || distance < bestDistance) {
          best := Some(index);
          bestDistance := distance;
        }
      }
    }
    assert candidates[..|candidates|] == candidates;
    forall i | 0 <= i < |g.nodes| && NodeHit(g.nodes[i], p, allowance) ensures i in candidates {
      NodeCandidates(g, p, allowance, allowance + 18.0, i);
    }
  }

  // ---------------------------------------------------------------------------
  // Edges
  // ---------------------------------------------------------------------------

  function EdgePoint(e: Edge, nodes: seq<Node>, step: int): Point
    requires Attached(e, nodes)
  {
    CurvePoint(nodes[e.sourceIndex].at, e.control, nodes[e.targetIndex].at, step as real / 10.0)
  }

  /** The drawn polyline starts at the source, ends at the target, and passes through the curve at
      each tenth. */
  lemma PolylineFollowsCurve(e: Edge, nodes: seq<Node>, step: int)
    requires Attached(e, nodes) && 0 <= step <= STEPS
    ensures EdgePoint(e, nodes, 0) == nodes[e.sourceIndex].at && EdgePoint(e, nodes, STEPS) == nodes[e.targetIndex].at
    ensures var s, c, t, u := nodes[e.sourceIndex].at, e.control, nodes[e.targetIndex].at, step as real / 10.0;
            EdgePoint(e, nodes, step) ==
            Point(Mix(Mix(s.x, c.x, u), Mix(c.x, t.x, u), u), Mix(Mix(s.y, c.y, u), Mix(c.y, t.y, u), u))
  {
    var s, c, t := nodes[e.sourceIndex].at, e.control, nodes[e.targetIndex].at;
    CurveEnds(s, c, t, 0.0);
    CurveEnds(s, c, t, 1.0);
    CurveBetween(s, c, t, step as real / 10.0);
  }

  /** The squared distance to the first steps of the drawn polyline. */
  function PolylineDistance(p: Point, e: Edge, nodes: seq<Node>, steps: int): real
    requires Attached(e, nodes) && 1 <= steps
  {
    var here := SegmentDistance(p, EdgePoint(e, nodes, steps - 1), EdgePoint(e, nodes, steps));
    if steps == 1 then here else Geometry.Min(PolylineDistance(p, e, nodes, steps - 1), here)
  }

  method DistanceToPreparedEdge(p: Point, e: Edge, nodes: seq<Node>) returns (best: real)
    requires Attached(e, nodes)
    ensures best == EdgeDistance(p, e, nodes)
  {
    var previous := EdgePoint(e, nodes, 1);
    best := SegmentDistance(p, EdgePoint(e, nodes, 0), previous);
    for step := 2 to STEPS + 1
      invariant previous == EdgePoint(e, nodes, step - 1) && best == PolylineDistance(p, e, nodes, step - 1)
    {
      var current := EdgePoint(e, nodes, step);
      best := Geometry.Min(best, SegmentDistance(p, previous, current));
      previous := current;
    }
  }

  /** The squared distance to the drawn edge. */
  function EdgeDistance(p: Point, e: Edge, nodes: seq<Node>): real
    requires Attached(e, nodes)
  {
    PolylineDistance(p, e, nodes, STEPS)
  }

  predicate EdgeWithin(e: Edge, nodes: seq<Node>, p: Point, squared: real) {
    Attached(e, nodes) && EdgeDistance(p, e, nodes) <= squared
  }

  predicate EdgeHit(e: Edge, nodes: seq<Node>, p: Point, threshold: real) {
    EdgeWithin(e, nodes, p, threshold * threshold)
  }

  /** The polyline's distance is attained on one of its segments, and is no more than any. */
  lemma {:induction false} PolylineAttains(p: Point, e: Edge, nodes: seq<Node>, steps: int) returns (k: int)
    requires Attached(e, nodes) && 1 <= steps
    ensures 1 <= k <= steps
    ensures PolylineDistance(p, e, nodes, steps) ==
            SegmentDistance(p, EdgePoint(e, nodes, k - 1), EdgePoint(e, nodes, k))
    ensures forall j | 1 <= j <= steps ::
      PolylineDistance(p, e, nodes, steps) <= SegmentDistance(p, EdgePoint(e, nodes, j - 1), EdgePoint(e, nodes, j))
  {
    k := steps;
    if steps > 1 {
      var m := PolylineAttains(p, e, nodes, steps - 1);
      if PolylineDistance(p, e, nodes, steps - 1) <
          SegmentDistance(p, EdgePoint(e, nodes, steps - 1), EdgePoint(e, nodes, steps)) {
        k := m;
      }
    }
  }

  /** The distance is that of the closest point of the whole drawn polyline. */
  lemma EdgeDistanceIsLeast(p: Point, e: Edge, nodes: seq<Node>, j: int, s: real)
    requires Attached(e, nodes) && 1 <= j <= STEPS && 0.0 <= s <= 1.0
    ensures EdgeDistance(p, e, nodes) <=
            SquaredDistance(p, OnSegment(EdgePoint(e, nodes, j - 1), EdgePoint(e, nodes, j), s))
  {
    var k := PolylineAttains(p, e, nodes, STEPS);
    SegmentDistanceIsLeast(p, EdgePoint(e, nodes, j - 1), EdgePoint(e, nodes, j), s);
  }

  lemma EdgeDistanceIsAttained(p: Point, e: Edge, nodes: seq<Node>) returns (j: int, s: real)
    requires Attached(e, nodes)
    ensures 1 <= j <= STEPS && 0.0 <= s <= 1.0
    ensures EdgeDistance(p, e, nodes) ==
            SquaredDistance(p, OnSegment(EdgePoint(e, nodes, j - 1), EdgePoint(e, nodes, j), s))
  {
    j := PolylineAttains(p, e, nodes, STEPS);
    s := ClosestAt(p, EdgePoint(e, nodes, j - 1), EdgePoint(e, nodes, j));
  }

  /** An edge is hit exactly when some point of the drawn polyline is within the threshold. */
  lemma EdgeHitIff(p: Point, e: Edge, nodes: seq<Node>, threshold: real)
    requires Attached(e, nodes)
    ensures EdgeHit(e, nodes, p, threshold) <==> exists j: int, s: real :: DrawnNear(p, e, nodes, j, s, threshold)
  {
    if EdgeHit(e, nodes, p, threshold) {
      var j, s := EdgeDistanceIsAttained(p, e, nodes);
      assert DrawnNear(p, e, nodes, j, s, threshold);
    }
    if j: int, s: real :| DrawnNear(p, e, nodes, j, s, threshold) { EdgeDistanceIsLeast(p, e, nodes, j, s); }
  }

  /** The point at s on segment j of the polyline is within the threshold. */
  predicate DrawnNear(p: Point, e: Edge, nodes: seq<Node>, j: int, s: real, threshold: real)
    requires Attached(e, nodes)
  {
    && 1 <= j <= STEPS && 0.0 <= s <= 1.0
    && SquaredDistance(p, OnSegment(EdgePoint(e, nodes, j - 1), EdgePoint(e, nodes, j), s)) <= threshold * threshold
  }

  lemma EdgePointInBox(e: Edge, nodes: seq<Node>, step: int)
    requires Attached(e, nodes) && Boxed(e, nodes)
    ensures Within(e.box, EdgePoint(e, nodes, step))
  {
    var s, t, u := nodes[e.sourceIndex].at, nodes[e.targetIndex].at, Clamp(step as real / 10.0);
    CurveWithin(s.x, e.control.x, t.x, u, e.box.minX, e.box.maxX);
    CurveWithin(s.y, e.control.y, t.y, u, e.box.minY, e.box.maxY);
  }

  lemma SegmentInBox(b: Bounds, p: Point, a: Point, c: Point)
    requires Within(b, a) && Within(b, c)
    ensures Within(b, OnSegment(a, c, ClosestAt(p, a, c)))
  {
    var t := ClosestAt(p, a, c);
    MixWithin(a.x, c.x, t, b.minX, b.maxX);
    MixWithin(a.y, c.y, t, b.minY, b.maxY);
  }

  /** A hit edge comes within the threshold at a point of its box. */
  lemma EdgeCandidates(g: Graph, p: Point, threshold: real, i: int)
    requires Ready(g) && 0 <= i < |g.edges| && threshold >= 0.0 && EdgeHit(g.edges[i], g.nodes, p, threshold)
    ensures exists c :: Covers(Around(p, threshold), g.edgeGrid.cellSize, c) && Holds(g.edgeGrid.buckets, c, i)
  {
    var e := g.edges[i];
    var k := PolylineAttains(p, e, g.nodes, STEPS);
    var a, b := EdgePoint(e, g.nodes, k - 1), EdgePoint(e, g.nodes, k);
    EdgePointInBox(e, g.nodes, k - 1);
    EdgePointInBox(e, g.nodes, k);
    SegmentInBox(e.box, p, a, b);
    var q := OnSegment(a, b, ClosestAt(p, a, b));
    NearAlongAxes(p, q, threshold);
    SharedPointIsFound(g.edgeGrid, EdgeBoxes(g.edges), Around(p, threshold), i, q);
  }

  ghost predicate NearestEdge(g: Graph, p: Point, squared: real, best: Option<int>, among: seq<int>) {
    match best
    case None => forall i | i in among && 0 <= i < |g.edges| :: !EdgeWithin(g.edges[i], g.nodes, p, squared)
    case Some(b) =>
      && 0 <= b < |g.edges| && EdgeWithin(g.edges[b], g.nodes, p, squared)
      && forall i | i in among && 0 <= i < |g.edges| && EdgeWithin(g.edges[i], g.nodes, p, squared) ::
           EdgeDistance(p, g.edges[b], g.nodes) <= EdgeDistance(p, g.edges[i], g.nodes)
  }

  method NearestCandidate(g: Graph, p: Point, squared: real, candidates: seq<int>) returns (best: Option<int>)
    ensures NearestEdge(g, p, squared, best, candidates)
  {
    best := None;
    var bestDistance := 0.0;
    for k := 0 to |candidates|
      invariant NearestEdge(g, p, squared, best, candidates[..k])
      invariant best.Some? ==> bestDistance == EdgeDistance(p, g.edges[best.value], g.nodes)
    {
      var index := candidates[k];
      assert candidates[..k + 1] == candidates[..k] + [index];
      if 0 <= index < |g.edges| && Attached(g.edges[index], g.nodes) {
        var distance := DistanceToPreparedEdge(p, g.edges[index], g.nodes);
        if distance <= squared && (best.None? || distance < bestDistance) {
          best := Some(index);
          bestDistance := distance;
        }
      }
    }
    assert candidates[..|candidates|] == candidates;
  }

  /** No edge is hit, or the one given is hit and no hit edge is closer. */
  ghost predicate NearestOfAll(g: Graph, p: Point, threshold: real, best: Option<int>) {
    match best
    case None => forall i | 0 <= i < |g.edges| :: !EdgeHit(g.edges[i], g.nodes, p, threshold)
    case Some(b) =>
      && 0 <= b < |g.edges| && EdgeHit(g.edges[b], g.nodes, p, threshold)
      && forall i | 0 <= i < |g.edges| && EdgeHit(g.edges[i], g.nodes, p, threshold) ::
           EdgeDistance(p, g.edges[b], g.nodes) <= EdgeDistance(p, g.edges[i], g.nodes)
  }

  lemma CandidatesSuffice(g: Graph, p: Point, threshold: real, squared: real, best: Option<int>, candidates: seq<int>)
    requires squared == threshold * threshold && NearestEdge(g, p, squared, best, candidates)
    requires forall i | 0 <= i < |g.edges| && EdgeHit(g.edges[i], g.nodes, p, threshold) :: i in candidates
    ensures NearestOfAll(g, p, threshold, best)
  {
  }

  /** preparedHitEdge, against looking at every edge. */
  method PreparedHitEdge(g: Graph, p: Point, scale: real) returns (best: Option<int>)
    requires Ready(g)
    ensures NearestOfAll(g, p, Allowance(14.0, scale), best)
  {
    var threshold := Allowance(14.0, scale);
    var candidates := QuerySpatialIndex(g.edgeGrid, Around(p, threshold));
    best := NearestCandidate(g, p, threshold * threshold, candidates);
    forall i | 0 <= i < |g.edges| && EdgeHit(g.edges[i], g.nodes, p, threshold) ensures i in candidates {
      EdgeCandidates(g, p, threshold, i);
    }
    CandidatesSuffice(g, p, threshold, threshold * threshold, best, candidates);
  }
}

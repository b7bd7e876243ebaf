/** The route search of the client (web/src/connectivity.ts): a label-correcting search that
    keeps one best path per node, re-sorts its queue after every improvement and never
    revisits a node of the path it extends. */
module RouteSearch {
  import opened Shared
  import opened Sorting
  import opened Connectivity

  datatype PathCandidate = PathCandidate(
    nodeID: string,
    hopCount: nat,
    routeIDs: seq<string>,
    nodeIDs: seq<string>,
    totalDistanceKm: real,
    strongestRoutePacketCount: int,
    totalRoutePackets: int,
    lastHeard: int,
    endpointLabels: seq<string>,
    pathHash3: seq<string>)

  /** comparePathCandidates: negative when left is the better path. */
  function Compare(text: Text, left: PathCandidate, right: PathCandidate): int {
    if left.hopCount != right.hopCount then left.hopCount - right.hopCount
    else if right.strongestRoutePacketCount != left.strongestRoutePacketCount then
        right.strongestRoutePacketCount - left.strongestRoutePacketCount
    else if right.lastHeard != left.lastHeard then right.lastHeard - left.lastHeard
    else if right.totalRoutePackets != left.totalRoutePackets then right.totalRoutePackets - left.totalRoutePackets
    else if left.totalDistanceKm < right.totalDistanceKm then -1
    else if left.totalDistanceKm > right.totalDistanceKm then 1
    else text.collate(left.nodeID, right.nodeID)
  }

  function BetterFirst(text: Text): (PathCandidate, PathCandidate) -> bool {
    (l, r) => Compare(text, l, r) < 0
  }

  /** What a path is compared by, the greater the better, most important first: fewest hops, strongest
      route, last heard, most packets, shortest way. */
  function Merits(c: PathCandidate): seq<real> {
    [-(c.hopCount as real), c.strongestRoutePacketCount as real, c.lastHeard as real, c.totalRoutePackets as real,
     -c.totalDistanceKm]
  }

  /** At the first merit in which they differ, the left one is greater. */
  ghost predicate Excels(left: seq<real>, right: seq<real>) { exists k :: ExcelsAt(left, right, k) }

  predicate ExcelsAt(left: seq<real>, right: seq<real>, k: int) {
    && 0 <= k < |left| && k < |right| && (forall j | 0 <= j < k :: left[j] == right[j])
    && left[k] > right[k]
  }

  lemma FirstDifference(left: seq<real>, right: seq<real>, k: nat)
    requires k < |left| == |right| && (forall j | 0 <= j < k :: left[j] == right[j]) && left[k] != right[k]
    ensures Excels(left, right) <==> left[k] > right[k]
  {
    if left[k] > right[k] { assert ExcelsAt(left, right, k); }
  }

  /** The comparator prefers the path that excels; equals go by the names of their ends. */
  lemma CompareIsByMerit(text: Text, left: PathCandidate, right: PathCandidate)
    ensures Compare(text, left, right) < 0 <==>
              || Excels(Merits(left), Merits(right))
              || (Merits(left) == Merits(right) && text.collate(left.nodeID, right.nodeID) < 0)
  {
    var l, r := Merits(left), Merits(right);
    if l != r {
      var k := if l[0] != r[0] then 0 else if l[1] != r[1] then 1 else if l[2] != r[2] then 2
               else if l[3] != r[3] then 3 else 4;
      FirstDifference(l, r, k);
    }
  }

  lemma CompareOrders(text: Text)
    requires OrdersNames(text)
    ensures StrictWeakOrder(BetterFirst(text))
  {
    forall x, y, z | Compare(text, x, y) < 0 && !(Compare(text, z, y) < 0) ensures Compare(text, x, z) < 0 {}
  }

  /** The queue is kept by merit: no candidate excels one before it. */
  lemma QueueIsByMerit(text: Text, queue: seq<PathCandidate>)
    requires OrdersNames(text)
    ensures var q := SortBy(BetterFirst(text), queue);
            forall i, j | 0 <= i < j < |q| :: !Excels(Merits(q[j]), Merits(q[i]))
  {
    CompareOrders(text);
    SortIsOrdered(BetterFirst(text), queue);
    var q := SortBy(BetterFirst(text), queue);
    forall i, j | 0 <= i < j < |q| ensures !Excels(Merits(q[j]), Merits(q[i])) {
      assert !BetterFirst(text)(q[j], q[i]);
      CompareIsByMerit(text, q[j], q[i]);
    }
  }

  /** Collation of a string with itself is zero; nothing else is assumed of it. */
  ghost predicate Collates(text: Text) {
    forall s :: text.collate(s, s) == 0
  }

  function Start(src: string): PathCandidate {
    PathCandidate(src, 0, [], [src], 0.0, 0, 0, 0, [], [])
  }

  function Extend(g: Graph, c: PathCandidate, e: GraphEdge): PathCandidate {
    PathCandidate(
      e.toNodeID,
      c.hopCount + 1,
      c.routeIDs + [e.route.id],
      c.nodeIDs + [e.toNodeID],
      c.totalDistanceKm + e.route.distanceKm,
      Max(c.strongestRoutePacketCount, e.route.packetCount),
      c.totalRoutePackets + e.route.packetCount,
      Max(c.lastHeard, e.route.lastHeard),
      c.endpointLabels + [if e.route.from.nodeId == e.fromNodeID then e.route.to.name else e.route.from.name],
      c.pathHash3 + [Hash3(g, e.toNodeID)])
  }

  // ---------------------------------------------------------------------------
  // What a path is, independently of the search
  // ---------------------------------------------------------------------------

  function SumKm(es: seq<GraphEdge>): real {
    if es == [] then 0.0 else SumKm(es[..|es| - 1]) + es[|es| - 1].route.distanceKm
  }

  function SumPackets(es: seq<GraphEdge>): int {
    if es == [] then 0 else SumPackets(es[..|es| - 1]) + es[|es| - 1].route.packetCount
  }

  /** m is the largest of zero and the values of f on the edges. */
  ghost predicate IsPeak(m: int, es: seq<GraphEdge>, f: GraphEdge -> int) {
    && m >= 0 && (forall i | 0 <= i < |es| :: f(es[i]) <= m)
    && (m == 0 || exists i :: 0 <= i < |es| && f(es[i]) == m)
  }

  function PacketsOf(): GraphEdge -> int { (e: GraphEdge) => e.route.packetCount }

  function HeardOf(): GraphEdge -> int { (e: GraphEdge) => e.route.lastHeard }

  /** label and hash given for hop e belong to the endpoint of its route that the hop reaches. */
  ghost predicate NamesFarEnd(g: Graph, e: GraphEdge, name: string, hash: string) {
    && ((name == e.route.to.name && e.route.to.nodeId == e.toNodeID)
        || (name == e.route.from.name && e.route.from.nodeId == e.toNodeID))
    && hash == Hash3(g, e.toNodeID)
  }

  /** c reports the path es from src: its lists line up hop by hop and its totals are those
      of the routes travelled. */
  ghost predicate Describes(g: Graph, src: string, es: seq<GraphEdge>, c: PathCandidate) {
    LinesUp(g, src, es, c) && Totals(es, c)
  }

  ghost predicate LinesUp(g: Graph, src: string, es: seq<GraphEdge>, c: PathCandidate) {
    && |es| == c.hopCount == |c.routeIDs| == |c.endpointLabels| == |c.pathHash3|
    && |c.nodeIDs| == |es| + 1 && c.nodeIDs[0] == src && c.nodeIDs[|es|] == c.nodeID
    && (forall i | 0 <= i < |es| ::
          && c.routeIDs[i] == es[i].route.id
          && c.nodeIDs[i] == es[i].fromNodeID && c.nodeIDs[i + 1] == es[i].toNodeID
          && NamesFarEnd(g, es[i], c.endpointLabels[i], c.pathHash3[i]))
  }

  ghost predicate Totals(es: seq<GraphEdge>, c: PathCandidate) {
    && c.totalDistanceKm == SumKm(es) && c.totalRoutePackets == SumPackets(es)
    && IsPeak(c.strongestRoutePacketCount, es, PacketsOf())
    && IsPeak(c.lastHeard, es, HeardOf())
  }

  ghost predicate IsRealPath(g: Graph, src: string, es: seq<GraphEdge>, c: PathCandidate) {
    Walk(g, src, es, c.nodeID) && Describes(g, src, es, c) && Distinct(c.nodeIDs)
  }

  // ---------------------------------------------------------------------------
  // The candidates the search can ever form
  // ---------------------------------------------------------------------------

  /** Every candidate of exactly k hops. */
  ghost function Level(g: Graph, src: string, k: nat): set<PathCandidate> {
    if k == 0 then {Start(src)} else Successors(g, Level(g, src, k - 1))
  }

  ghost function Successors(g: Graph, cs: set<PathCandidate>): set<PathCandidate> {
    set c, e | c in cs && e in Edges(g, c.nodeID) && e.toNodeID !in c.nodeIDs :: Extend(g, c, e)
  }

  lemma Predecessor(g: Graph, cs: set<PathCandidate>, c: PathCandidate) returns (p: PathCandidate, e: GraphEdge)
    requires c in Successors(g, cs)
    ensures p in cs && e in Edges(g, p.nodeID) && e.toNodeID !in p.nodeIDs && c == Extend(g, p, e)
  {
    p, e :| p in cs && e in Edges(g, p.nodeID) && e.toNodeID !in p.nodeIDs && c == Extend(g, p, e);
  }

  ghost predicate Formed(g: Graph, src: string, c: PathCandidate) {
    c in Level(g, src, c.hopCount)
  }

  lemma ExtendFormed(g: Graph, src: string, c: PathCandidate, e: GraphEdge)
    requires Formed(g, src, c) && e in Edges(g, c.nodeID) && e.toNodeID !in c.nodeIDs
    ensures Formed(g, src, Extend(g, c, e))
  {
    assert Extend(g, c, e) in Level(g, src, c.hopCount + 1);
  }

  lemma LinesUpStep(g: Graph, src: string, es: seq<GraphEdge>, c: PathCandidate, e: GraphEdge)
    requires e.fromNodeID == c.nodeID && (e == Forward(e.route) || e == Backward(e.route))
    requires LinesUp(g, src, es, c)
    ensures LinesUp(g, src, es + [e], Extend(g, c, e))
  {
  }

  lemma TotalsStep(g: Graph, es: seq<GraphEdge>, c: PathCandidate, e: GraphEdge)
    requires Totals(es, c)
    ensures Totals(es + [e], Extend(g, c, e))
  {
    assert (es + [e])[..|es|] == es;
  }

  lemma WalkStep(g: Graph, src: string, es: seq<GraphEdge>, v: string, e: GraphEdge)
    requires Walk(g, src, es, v) && e in Edges(g, v) && e.fromNodeID == v
    ensures Walk(g, src, es + [e], e.toNodeID)
  {
  }

  lemma RealPathStep(g: Graph, src: string, es: seq<GraphEdge>, c: PathCandidate, e: GraphEdge)
    requires WellFormed(g) && IsRealPath(g, src, es, c)
    requires e in Edges(g, c.nodeID) && e.toNodeID !in c.nodeIDs
    ensures IsRealPath(g, src, es + [e], Extend(g, c, e))
  {
    EdgeLeaves(g, c.nodeID, e);
    LinesUpStep(g, src, es, c, e);
    TotalsStep(g, es, c, e);
    WalkStep(g, src, es, c.nodeID, e);
    DistinctSnoc(c.nodeIDs, e.toNodeID);
  }

  lemma EdgeLeaves(g: Graph, n: string, e: GraphEdge)
    requires WellFormed(g) && e in Edges(g, n)
    ensures e.fromNodeID == n && (e == Forward(e.route) || e == Backward(e.route))
  {
  }

  lemma StartIsReal(g: Graph, src: string)
    ensures IsRealPath(g, src, [], Start(src))
  {
  }

  lemma {:induction false} PathOf(g: Graph, src: string, k: nat, c: PathCandidate) returns (es: seq<GraphEdge>)
    requires WellFormed(g) && c in Level(g, src, k)
    ensures IsRealPath(g, src, es, c)
  {
    if k == 0 {
      StartIsReal(g, src);
      es := [];
    } else {
      var p, e := Predecessor(g, Level(g, src, k - 1), c);
      var init := PathOf(g, src, k - 1, p);
      RealPathStep(g, src, init, p, e);
      es := init + [e];
    }
  }

  /** Every candidate reports a real simple path of the graph. */
  lemma FormedIsReal(g: Graph, src: string, k: nat, c: PathCandidate)
    requires WellFormed(g) && c in Level(g, src, k)
    ensures exists es :: IsRealPath(g, src, es, c)
  {
    var es := PathOf(g, src, k, c);
  }

  // ---------------------------------------------------------------------------
  // Termination: only finitely many candidates, each improvement uses one up
  // ---------------------------------------------------------------------------

  ghost function NodeSet(g: Graph, src: string): set<string> {
    {src} + set n, e | n in g.adjacency && e in g.adjacency[n] :: e.toNodeID
  }

  lemma {:induction false} LevelNodes(g: Graph, src: string, k: nat, c: PathCandidate)
    requires c in Level(g, src, k)
    ensures |c.nodeIDs| == k + 1 && Distinct(c.nodeIDs) && c.nodeIDs[0] == src
            && forall n | n in c.nodeIDs :: n in NodeSet(g, src)
  {
    if k > 0 {
      var p, e := Predecessor(g, Level(g, src, k - 1), c);
      LevelNodes(g, src, k - 1, p);
    }
  }

  ghost function AllCandidates(g: Graph, src: string): set<PathCandidate> {
    set k, c | 0 <= k < |NodeSet(g, src)| && c in Level(g, src, k) :: c
  }

  lemma FormedIsListed(g: Graph, src: string, c: PathCandidate)
    requires Formed(g, src, c)
    ensures c in AllCandidates(g, src)
  {
    LevelNodes(g, src, c.hopCount, c);
    DistinctFits(c.nodeIDs, NodeSet(g, src));
  }

  predicate Improves(text: Text, best: map<string, PathCandidate>, c: PathCandidate) {
    c.nodeID !in best || Compare(text, c, best[c.nodeID]) < 0
  }

  /** The candidates that would still replace an entry of the result. */
  ghost function Open(g: Graph, text: Text, src: string, best: map<string, PathCandidate>): set<PathCandidate> {
    set c | c in AllCandidates(g, src) && Improves(text, best, c)
  }

  lemma BetterTransitive(text: Text, a: PathCandidate, b: PathCandidate, c: PathCandidate)
    requires Collates(text) && a.nodeID == b.nodeID == c.nodeID
    requires Compare(text, a, b) < 0 && Compare(text, b, c) < 0
    ensures Compare(text, a, c) < 0
  {
  }

  ghost predicate Keyed(best: map<string, PathCandidate>) {
    forall v | v in best :: best[v].nodeID == v
  }

  lemma OpenShrinks(g: Graph, text: Text, src: string, best: map<string, PathCandidate>, next: PathCandidate)
    requires Collates(text) && Keyed(best) && Formed(g, src, next) && Improves(text, best, next)
    ensures |Open(g, text, src, best[next.nodeID := next])| < |Open(g, text, src, best)|
  {
    var best' := best[next.nodeID := next];
    FormedIsListed(g, src, next);
    forall c | c in Open(g, text, src, best') ensures c in Open(g, text, src, best) {
      if c.nodeID == next.nodeID && c.nodeID in best { BetterTransitive(text, c, next, best[c.nodeID]); }
    }
    assert next in Open(g, text, src, best) && next !in Open(g, text, src, best');
    SubsetSmaller(Open(g, text, src, best'), Open(g, text, src, best), next);
  }

  lemma SubsetSmaller<T>(small: set<T>, big: set<T>, x: T)
    requires small <= big && x in big && x !in small
    ensures |small| < |big|
  {
    SubsetFits(small, big - {x});
  }

  // ---------------------------------------------------------------------------
  // The search
  // ---------------------------------------------------------------------------

  /** Extending c along the first n edges of its node cannot improve best any more. */
  ghost predicate Relaxed(g: Graph, text: Text, best: map<string, PathCandidate>, c: PathCandidate, n: nat) {
    forall i | 0 <= i < n && i < |Edges(g, c.nodeID)| ::
      var e := Edges(g, c.nodeID)[i];
      e.toNodeID in c.nodeIDs || !Improves(text, best, Extend(g, c, e))
  }

  ghost predicate AllFormed(g: Graph, src: string, best: map<string, PathCandidate>, queue: seq<PathCandidate>) {
    && Keyed(best) && src in best && best[src] == Start(src)
    && (forall v | v in best :: Formed(g, src, best[v]))
    && (forall c | c in queue :: Formed(g, src, c))
  }

  /** Every entry of best but `current` is still queued or has been fully extended. */
  ghost predicate NothingForgotten(g: Graph, text: Text, best: map<string, PathCandidate>, queue: seq<PathCandidate>,
                                   current: PathCandidate)
  {
    forall v | v in best ::
      best[v] == current || best[v] in queue || Relaxed(g, text, best, best[v], |Edges(g, v)|)
  }

  /** The result no edge can improve. */
  ghost predicate Settled(g: Graph, text: Text, src: string, best: map<string, PathCandidate>) {
    AllFormed(g, src, best, []) && forall v | v in best :: Relaxed(g, text, best, best[v], |Edges(g, v)|)
  }

  lemma ImprovementKeepsRelaxed(g: Graph, text: Text, best: map<string, PathCandidate>, next: PathCandidate,
                                c: PathCandidate, n: nat)
    requires Collates(text) && Keyed(best) && Improves(text, best, next) && Relaxed(g, text, best, c, n)
    ensures Relaxed(g, text, best[next.nodeID := next], c, n)
  {
    var best' := best[next.nodeID := next];
    forall i | 0 <= i < n && i < |Edges(g, c.nodeID)|
      ensures var e := Edges(g, c.nodeID)[i]; e.toNodeID in c.nodeIDs || !Improves(text, best', Extend(g, c, e))
    {
      var e := Edges(g, c.nodeID)[i];
      var x := Extend(g, c, e);
      if e.toNodeID !in c.nodeIDs && x.nodeID == next.nodeID && Compare(text, x, next) < 0 {
        BetterTransitive(text, x, next, best[x.nodeID]);
      }
    }
  }

  lemma ImprovementForgetsNothing(g: Graph, text: Text, best: map<string, PathCandidate>, queue: seq<PathCandidate>,
                                  current: PathCandidate, next: PathCandidate)
    requires Collates(text) && Keyed(best) && Improves(text, best, next)
             && NothingForgotten(g, text, best, queue, current)
    ensures NothingForgotten(g, text, best[next.nodeID := next], SortBy(BetterFirst(text), queue + [next]), current)
  {
    var best' := best[next.nodeID := next];
    var queue' := SortBy(BetterFirst(text), queue + [next]);
    forall v | v in best'
      ensures best'[v] == current || best'[v] in queue' || Relaxed(g, text, best', best'[v], |Edges(g, v)|)
    {
      SortMembers(BetterFirst(text), queue + [next], best'[v]);
      if v != next.nodeID && best[v] != current && best[v] !in queue {
        ImprovementKeepsRelaxed(g, text, best, next, best[v], |Edges(g, v)|);
      }
    }
  }

  lemma ImprovementKeepsFormed(g: Graph, text: Text, src: string, best: map<string, PathCandidate>,
                               queue: seq<PathCandidate>,
                               current: PathCandidate, e: GraphEdge)
    requires AllFormed(g, src, best, queue) && Formed(g, src, current)
    requires e in Edges(g, current.nodeID) && e.toNodeID !in current.nodeIDs
    ensures AllFormed(g, src, best[e.toNodeID := Extend(g, current, e)],
                      SortBy(BetterFirst(text), queue + [Extend(g, current, e)]))
  {
    var next := Extend(g, current, e);
    LevelNodes(g, src, current.hopCount, current);
    assert e.toNodeID != src;
    ExtendFormed(g, src, current, e);
    forall c | c in SortBy(BetterFirst(text), queue + [next]) ensures Formed(g, src, c) {
      SortMembers(BetterFirst(text), queue + [next], c);
    }
  }

  /** What holds while current is being extended, its first n edges done. */
  ghost predicate Extending(g: Graph, text: Text, src: string, best: map<string, PathCandidate>,
                            queue: seq<PathCandidate>,
                            current: PathCandidate, n: nat) {
    && AllFormed(g, src, best, queue) && Formed(g, src, current)
    && NothingForgotten(g, text, best, queue, current)
    && Relaxed(g, text, best, current, n)
  }

  lemma ImprovementStep(g: Graph, text: Text, src: string, best: map<string, PathCandidate>, queue: seq<PathCandidate>,
                        current: PathCandidate, n: nat)
    requires Collates(text) && n < |Edges(g, current.nodeID)| && Extending(g, text, src, best, queue, current, n)
    requires Edges(g, current.nodeID)[n].toNodeID !in current.nodeIDs
    requires Improves(text, best, Extend(g, current, Edges(g, current.nodeID)[n]))
    ensures var next := Extend(g, current, Edges(g, current.nodeID)[n]);
            && Extending(g, text, src, best[next.nodeID := next], SortBy(BetterFirst(text), queue + [next]), current,
                         n + 1)
            && |Open(g, text, src, best[next.nodeID := next])| < |Open(g, text, src, best)|
  {
    var edge := Edges(g, current.nodeID)[n];
    var next := Extend(g, current, edge);
    ExtendFormed(g, src, current, edge);
    OpenShrinks(g, text, src, best, next);
    ImprovementKeepsFormed(g, text, src, best, queue, current, edge);
    ImprovementForgetsNothing(g, text, best, queue, current, next);
    ImprovementKeepsRelaxed(g, text, best, next, current, n);
  }

  /** The body of the outer loop: current, just taken off the queue, is extended along
      every edge of its node. */
  method ExtendCandidate(g: Graph, text: Text, src: string, current: PathCandidate,
                         best0: map<string, PathCandidate>, queue0: seq<PathCandidate>)
    returns (best: map<string, PathCandidate>, queue: seq<PathCandidate>)
    requires Collates(text) && Extending(g, text, src, best0, queue0, current, 0)
    ensures Extending(g, text, src, best, queue, current, |Edges(g, current.nodeID)|)
    ensures |Open(g, text, src, best)| < |Open(g, text, src, best0)| || (best == best0 && queue == queue0)
  {
    best, queue := best0, queue0;
    var edges := Edges(g, current.nodeID);
    for i := 0 to |edges|
      invariant Extending(g, text, src, best, queue, current, i)
      invariant |Open(g, text, src, best)| < |Open(g, text, src, best0)| || (best == best0 && queue == queue0)
    {
      var edge := edges[i];
      if edge.toNodeID in current.nodeIDs {
        continue;
      }
      var next := Extend(g, current, edge);
      if Improves(text, best, next) {
        ImprovementStep(g, text, src, best, queue, current, i);
        best := best[next.nodeID := next];
        queue := SortBy(BetterFirst(text), queue + [next]);
      }
    }
  }

  /** Between two rounds: every entry of best is queued or has been fully extended. */
  ghost predicate AllSeen(g: Graph, text: Text, src: string, best: map<string, PathCandidate>,
                          queue: seq<PathCandidate>)
  {
    && AllFormed(g, src, best, queue)
    && forall v | v in best :: best[v] in queue || Relaxed(g, text, best, best[v], |Edges(g, v)|)
  }

  lemma StartSeen(g: Graph, text: Text, src: string)
    ensures AllSeen(g, text, src, map[src := Start(src)], [Start(src)])
  {
  }

  method ReachablePaths(g: Graph, text: Text, src: string) returns (best: map<string, PathCandidate>)
    requires WellFormed(g) && Collates(text)
    ensures Settled(g, text, src, best)
    ensures ExactlyReachable(g, src, best)
    ensures EachReal(g, src, best)
    ensures EachOptimal(g, src, best)
  {
    best := map[src := Start(src)];
    var queue := [Start(src)];
    StartSeen(g, text, src);
    while |queue| > 0
      invariant AllSeen(g, text, src, best, queue)
      decreases |Open(g, text, src, best)|, |queue|
    {
      var current := queue[0];
      best, queue := ExtendCandidate(g, text, src, current, best, queue[1..]);
    }
    SettledResults(g, text, src, best);
  }

  // ---------------------------------------------------------------------------
  // What the result means
  // ---------------------------------------------------------------------------

  /** c is at least as good as the walk es on (fewest hops, then strongest route). */
  ghost predicate AtLeastAsGood(c: PathCandidate, es: seq<GraphEdge>) {
    && c.hopCount <= |es|
    && (c.hopCount == |es| ==> forall i | 0 <= i < |es| :: es[i].route.packetCount <= c.strongestRoutePacketCount)
  }

  /** The result lists exactly the nodes some walk reaches, */
  ghost predicate ExactlyReachable(g: Graph, src: string, best: map<string, PathCandidate>) {
    forall v :: v in best <==> exists es :: Walk(g, src, es, v)
  }

  /** each with a real simple path, reported field by field, */
  ghost predicate EachReal(g: Graph, src: string, best: map<string, PathCandidate>) {
    forall v | v in best :: best[v].nodeID == v && exists es :: IsRealPath(g, src, es, best[v])
  }

  /** of the fewest hops any walk takes and, among those, with the strongest route. */
  ghost predicate EachOptimal(g: Graph, src: string, best: map<string, PathCandidate>) {
    forall v, es | Walk(g, src, es, v) :: v in best && AtLeastAsGood(best[v], es)
  }

  lemma SettledResults(g: Graph, text: Text, src: string, best: map<string, PathCandidate>)
    requires WellFormed(g) && Settled(g, text, src, best)
    ensures ExactlyReachable(g, src, best) && EachReal(g, src, best) && EachOptimal(g, src, best)
  {
    forall v, es | Walk(g, src, es, v) ensures v in best && AtLeastAsGood(best[v], es) {
      SettledIsOptimal(g, text, src, best, es, v);
    }
    forall v | v in best ensures exists es :: IsRealPath(g, src, es, best[v]) {
      FormedIsReal(g, src, best[v].hopCount, best[v]);
    }
    forall v | v in best ensures exists es :: Walk(g, src, es, v) {
      var es :| IsRealPath(g, src, es, best[v]);
    }
  }

  lemma PrefixIsWalk(g: Graph, src: string, es: seq<GraphEdge>, dst: string, k: nat)
    requires Walk(g, src, es, dst) && k < |es|
    ensures Walk(g, src, es[..k], es[k].fromNodeID)
  {
  }

  /** A node already passed on the way of c is reached by a walk of fewer hops than c extended. */
  lemma PassedEarlier(g: Graph, src: string, c: PathCandidate, v: string) returns (ps: seq<GraphEdge>)
    requires WellFormed(g) && Formed(g, src, c) && v in c.nodeIDs
    ensures Walk(g, src, ps, v) && |ps| <= c.hopCount
  {
    var es := PathOf(g, src, c.hopCount, c);
    var i :| 0 <= i < |c.nodeIDs| && c.nodeIDs[i] == v;
    if i < |es| {
      PrefixIsWalk(g, src, es, c.nodeID, i);
      ps := es[..i];
    } else {
      ps := es;
    }
  }

  /** Along one more edge, an optimum stays one. */
  lemma ExtensionIsGood(g: Graph, c: PathCandidate, es: seq<GraphEdge>, e: GraphEdge)
    requires AtLeastAsGood(c, es)
    ensures AtLeastAsGood(Extend(g, c, e), es + [e])
  {
  }

  lemma UnimprovedIsGood(text: Text, b: PathCandidate, x: PathCandidate, es: seq<GraphEdge>)
    requires Compare(text, x, b) >= 0 && AtLeastAsGood(x, es)
    ensures AtLeastAsGood(b, es)
  {
  }

  /** An edge that no longer improves the result leads to an entry at least as good. */
  lemma RelaxedIsGood(g: Graph, text: Text, best: map<string, PathCandidate>, c: PathCandidate, es: seq<GraphEdge>,
                      e: GraphEdge)
    requires e in Edges(g, c.nodeID) && Relaxed(g, text, best, c, |Edges(g, c.nodeID)|)
    requires e.toNodeID !in c.nodeIDs && AtLeastAsGood(c, es)
    ensures e.toNodeID in best && AtLeastAsGood(best[e.toNodeID], es + [e])
  {
    var i :| 0 <= i < |Edges(g, c.nodeID)| && Edges(g, c.nodeID)[i] == e;
    ExtensionIsGood(g, c, es, e);
    UnimprovedIsGood(text, best[e.toNodeID], Extend(g, c, e), es + [e]);
  }

  /** The last edge of a walk, and the walk before it. */
  lemma LastEdge(g: Graph, src: string, es: seq<GraphEdge>, v: string)
    requires Walk(g, src, es, v) && es != []
    ensures var n := |es| - 1;
            && es == es[..n] + [es[n]] && Walk(g, src, es[..n], es[n].fromNodeID)
            && es[n].toNodeID == v && es[n] in Edges(g, es[n].fromNodeID)
  {
    PrefixIsWalk(g, src, es, v, |es| - 1);
  }

  /** A result that no edge can improve beats every walk, simple or not. */
  lemma {:induction false} SettledIsOptimal(g: Graph, text: Text, src: string, best: map<string, PathCandidate>,
                                            es: seq<GraphEdge>, v: string)
    requires WellFormed(g) && Settled(g, text, src, best) && Walk(g, src, es, v)
    ensures v in best && AtLeastAsGood(best[v], es)
    decreases |es|
  {
    if es == [] { return; }
    var n := |es| - 1;
    var u := es[n].fromNodeID;
    LastEdge(g, src, es, v);
    SettledIsOptimal(g, text, src, best, es[..n], u);
    var c := best[u];
    if v in c.nodeIDs {
      var ps := PassedEarlier(g, src, c, v);
      SettledIsOptimal(g, text, src, best, ps, v);
    } else {
      RelaxedIsGood(g, text, best, c, es[..n], es[n]);
    }
  }
}

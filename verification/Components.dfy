/** Connected components of the drawn graph (web/src/netgraphLayout.ts). */
module Components {
  import opened Shared
  import opened Sorting

  datatype Edge = Edge(source: string, target: string)

  type Adjacency = map<string, seq<string>>

  // ---------------------------------------------------------------------------
  // Links and paths
  // ---------------------------------------------------------------------------

  predicate Joins(e: Edge, a: string, b: string) {
    (e.source == a && e.target == b) || (e.source == b && e.target == a)
  }

  /** An edge joins the two, whether or not both are nodes of the graph. */
  ghost predicate Touching(edges: seq<Edge>, a: string, b: string) { exists e | e in edges :: Joins(e, a, b) }

  ghost predicate Linked(nodes: seq<string>, edges: seq<Edge>, a: string, b: string) {
    a in nodes && b in nodes && Touching(edges, a, b)
  }

  ghost predicate Path(nodes: seq<string>, edges: seq<Edge>, p: seq<string>) {
    && p != [] && (forall i | 0 <= i < |p| :: p[i] in nodes)
    && forall i | 0 <= i < |p| - 1 :: Linked(nodes, edges, p[i], p[i + 1])
  }

  ghost predicate Joined(nodes: seq<string>, edges: seq<Edge>, p: seq<string>, a: string, b: string) {
    Path(nodes, edges, p) && p[0] == a && p[|p| - 1] == b
  }

  /** Reachable over edges with both ends present. */
  ghost predicate Connected(nodes: seq<string>, edges: seq<Edge>, a: string, b: string) {
    exists p :: Joined(nodes, edges, p, a, b)
  }

  lemma ConnectedSelf(nodes: seq<string>, edges: seq<Edge>, a: string)
    requires a in nodes
    ensures Connected(nodes, edges, a, a)
  {
    assert Joined(nodes, edges, [a], a, a);
  }

  lemma PathSnoc(nodes: seq<string>, edges: seq<Edge>, p: seq<string>, a: string, b: string, c: string)
    requires Joined(nodes, edges, p, a, b) && Linked(nodes, edges, b, c)
    ensures Joined(nodes, edges, p + [c], a, c)
  {
    var q := p + [c];
    forall i | 0 <= i < |q| - 1 ensures Linked(nodes, edges, q[i], q[i + 1]) {
      if i < |p| - 1 { assert Linked(nodes, edges, p[i], p[i + 1]); }
    }
  }

  lemma ConnectedStep(nodes: seq<string>, edges: seq<Edge>, a: string, b: string, c: string)
    requires Connected(nodes, edges, a, b) && Linked(nodes, edges, b, c)
    ensures Connected(nodes, edges, a, c)
  {
    var p :| Joined(nodes, edges, p, a, b);
    PathSnoc(nodes, edges, p, a, b, c);
  }

  /** A path followed from a node already reached. */
  lemma {:induction false} ConnectedAlong(nodes: seq<string>, edges: seq<Edge>, a: string, p: seq<string>, k: nat)
    requires Path(nodes, edges, p) && k < |p| && Connected(nodes, edges, a, p[0])
    ensures Connected(nodes, edges, a, p[k])
  {
    if k > 0 {
      ConnectedAlong(nodes, edges, a, p, k - 1);
      assert Linked(nodes, edges, p[k - 1], p[k - 1 + 1]);
      ConnectedStep(nodes, edges, a, p[k - 1], p[k]);
    }
  }

  /** A path walked back. */
  lemma {:induction false} ConnectedBack(nodes: seq<string>, edges: seq<Edge>, p: seq<string>, k: nat)
    requires Path(nodes, edges, p) && k < |p|
    ensures Connected(nodes, edges, p[|p| - 1], p[|p| - 1 - k])
  {
    if k == 0 {
      ConnectedSelf(nodes, edges, p[|p| - 1]);
    } else {
      ConnectedBack(nodes, edges, p, k - 1);
      var i := |p| - 1 - k;
      assert Linked(nodes, edges, p[i], p[i + 1]);
      ConnectedStep(nodes, edges, p[|p| - 1], p[i + 1], p[i]);
    }
  }

  lemma ConnectedSymmetric(nodes: seq<string>, edges: seq<Edge>, a: string, b: string)
    requires Connected(nodes, edges, a, b)
    ensures Connected(nodes, edges, b, a)
  {
    var p :| Joined(nodes, edges, p, a, b);
    ConnectedBack(nodes, edges, p, |p| - 1);
  }

  lemma ConnectedTransitive(nodes: seq<string>, edges: seq<Edge>, a: string, b: string, c: string)
    requires Connected(nodes, edges, a, b) && Connected(nodes, edges, b, c)
    ensures Connected(nodes, edges, a, c)
  {
    var p :| Joined(nodes, edges, p, b, c);
    ConnectedAlong(nodes, edges, a, p, |p| - 1);
  }

  // ---------------------------------------------------------------------------
  // Components
  // ---------------------------------------------------------------------------

  /** Nothing outside is linked to the inside. */
  ghost predicate Closed(nodes: seq<string>, edges: seq<Edge>, inside: seq<string>) {
    forall a, b | a in inside && Linked(nodes, edges, a, b) :: b in inside
  }

  lemma {:induction false} ClosedAlong(nodes: seq<string>, edges: seq<Edge>, inside: seq<string>, p: seq<string>,
                                       k: nat)
    requires Closed(nodes, edges, inside) && Path(nodes, edges, p) && p[0] in inside && k < |p|
    ensures p[k] in inside
  {
    if k > 0 {
      ClosedAlong(nodes, edges, inside, p, k - 1);
      assert Linked(nodes, edges, p[k - 1], p[k - 1 + 1]);
    }
  }

  lemma ClosedKeeps(nodes: seq<string>, edges: seq<Edge>, inside: seq<string>, a: string, b: string)
    requires Closed(nodes, edges, inside) && a in inside && Connected(nodes, edges, a, b)
    ensures b in inside
  {
    var p :| Joined(nodes, edges, p, a, b);
    ClosedAlong(nodes, edges, inside, p, |p| - 1);
  }

  /** A class of mutual reachability: nodes only, each once, and with any node all it reaches. */
  ghost predicate IsClass(nodes: seq<string>, edges: seq<Edge>, c: seq<string>) {
    && c != [] && Distinct(c) && (forall a | a in c :: a in nodes) && Closed(nodes, edges, c)
    && forall a, b | a in c && b in c :: Connected(nodes, edges, a, b)
  }

  ghost predicate InSome(components: seq<seq<string>>, a: string) { exists c | c in components :: a in c }

  ghost predicate Disjoint(components: seq<seq<string>>) {
    forall i, j, a | 0 <= i < j < |components| && a in components[i] :: a !in components[j]
  }

  /** The components are the classes of reachability: each node in exactly one of them. */
  ghost predicate Partition(nodes: seq<string>, edges: seq<Edge>, components: seq<seq<string>>) {
    && (forall c | c in components :: IsClass(nodes, edges, c))
    && Disjoint(components) && Distinct(components)
    && forall a | a in nodes :: InSome(components, a)
  }

  /** In a partition two nodes share a component exactly when one reaches the other. */
  lemma SameComponentIff(nodes: seq<string>, edges: seq<Edge>, components: seq<seq<string>>, a: string, b: string)
    requires Partition(nodes, edges, components) && a in nodes && b in nodes
    ensures (exists c | c in components :: a in c && b in c) <==> Connected(nodes, edges, a, b)
  {
    assert InSome(components, a);
    var c :| c in components && a in c;
    if Connected(nodes, edges, a, b) { ClosedKeeps(nodes, edges, c, a, b); }
  }

  // ---------------------------------------------------------------------------
  // The adjacency lists
  // ---------------------------------------------------------------------------

  /** An ordered set: a name is added once. */
  function WithName(names: seq<string>, n: string): seq<string> { if n in names then names else names + [n] }

  ghost predicate Lists(nodes: seq<string>, edges: seq<Edge>, adjacency: Adjacency) {
    && (forall a :: a in adjacency <==> a in nodes)
    && forall a, b | a in adjacency :: b in adjacency[a] <==> Touching(edges, a, b)
  }

  method AddEdge(adjacency: Adjacency, e: Edge) returns (r: Adjacency)
    ensures r.Keys == adjacency.Keys
    ensures forall a, b | a in r :: b in r[a] <==> b in adjacency[a] || Joins(e, a, b)
  {
    r := adjacency;
    if e.source in r { r := r[e.source := WithName(r[e.source], e.target)]; }
    if e.target in r { r := r[e.target := WithName(r[e.target], e.source)]; }
  }

  method BuildAdjacency(nodes: seq<string>, edges: seq<Edge>) returns (adjacency: Adjacency)
    ensures Lists(nodes, edges, adjacency)
  {
    adjacency := map[];
    for i := 0 to |nodes|
      invariant forall a :: a in adjacency <==> a in nodes[..i]
      invariant forall a | a in adjacency :: adjacency[a] == []
    {
      assert nodes[..i + 1] == nodes[..i] + [nodes[i]];
      adjacency := adjacency[nodes[i] := []];
    }
    assert nodes[..|nodes|] == nodes;
    for i := 0 to |edges|
      invariant Lists(nodes, edges[..i], adjacency)
    {
      ghost var before := adjacency;
      adjacency := AddEdge(adjacency, edges[i]);
      assert edges[..i + 1] == edges[..i] + [edges[i]];
      forall a, b | a in adjacency ensures b in adjacency[a] <==> Touching(edges[..i + 1], a, b) {}
    }
    assert edges[..|edges|] == edges;
  }

  // ---------------------------------------------------------------------------
  // The search
  // ---------------------------------------------------------------------------

  function Ends(edges: seq<Edge>): set<string> { (set e | e in edges :: e.source) + (set e | e in edges :: e.target) }

  function Universe(nodes: seq<string>, edges: seq<Edge>): set<string> { (set n | n in nodes) + Ends(edges) }

  /** The queue of one search, up to the names read so far. Names that are no nodes may be queued,
      but lead nowhere. */
  ghost predicate Searching(nodes: seq<string>, edges: seq<Edge>, earlier: set<string>, visited: set<string>,
                            start: string, queue: seq<string>, read: nat) {
    && start in nodes && queue != [] && queue[0] == start && Distinct(queue) && read <= |queue|
    && (forall a | a in queue :: a !in earlier && a in Universe(nodes, edges))
    && (forall a :: a in visited <==> a in earlier || a in queue)
    && (forall a | a in queue && a in nodes :: Connected(nodes, edges, start, a))
    && (forall i, b | 0 <= i < read && Linked(nodes, edges, queue[i], b) :: b in queue)
  }

  /** Earlier searches left nothing half done. */
  ghost predicate Settled(nodes: seq<string>, edges: seq<Edge>, earlier: set<string>) {
    forall a, b | a in earlier && Linked(nodes, edges, a, b) :: b in earlier
  }

  lemma QueueOne(nodes: seq<string>, edges: seq<Edge>, earlier: set<string>, visited: set<string>, start: string,
                 queue: seq<string>, read: nat, next: string)
    requires Searching(nodes, edges, earlier, visited, start, queue, read) && read < |queue| && queue[read] in nodes
    requires next !in visited && Touching(edges, queue[read], next)
    ensures Searching(nodes, edges, earlier, visited + {next}, start, queue + [next], read)
  {
    var e :| e in edges && Joins(e, queue[read], next);
    if next in nodes { ConnectedStep(nodes, edges, start, queue[read], next); }
  }

  method VisitNeighbours(nodes: seq<string>, edges: seq<Edge>, ghost earlier: set<string>, visited: set<string>,
                         ghost start: string, queue: seq<string>, ghost read: nat, neighbours: seq<string>)
    returns (after: seq<string>, seen: set<string>)
    requires Searching(nodes, edges, earlier, visited, start, queue, read) && read < |queue|
    requires forall b | b in neighbours :: queue[read] in nodes && Touching(edges, queue[read], b)
    ensures Searching(nodes, edges, earlier, seen, start, after, read) && read < |after| && after[read] == queue[read]
    ensures forall b | b in neighbours :: b in seen
  {
    after, seen := queue, visited;
    for k := 0 to |neighbours|
      invariant Searching(nodes, edges, earlier, seen, start, after, read)
      invariant read < |after| && after[read] == queue[read] && forall j | 0 <= j < k :: neighbours[j] in seen
    {
      var next := neighbours[k];
      assert next in neighbours;
      if next in seen { continue; }
      QueueOne(nodes, edges, earlier, seen, start, after, read, next);
      seen := seen + {next};
      after := after + [next];
    }
  }

  method Explore(nodes: seq<string>, edges: seq<Edge>, adjacency: Adjacency, start: string, visitedBefore: set<string>)
    returns (queue: seq<string>, visited: set<string>)
    requires Lists(nodes, edges, adjacency) && start in nodes && start !in visitedBefore
    requires Settled(nodes, edges, visitedBefore)
    ensures Searching(nodes, edges, visitedBefore, visited, start, queue, |queue|)
  {
    queue := [start];
    visited := visitedBefore + {start};
    ConnectedSelf(nodes, edges, start);
    var index := 0;
    while index < |queue|
      invariant Searching(nodes, edges, visitedBefore, visited, start, queue, index)
      decreases |Universe(nodes, edges)| - index
    {
      DistinctFits(queue, Universe(nodes, edges));
      var current := queue[index];
      var neighbours := if current in adjacency then adjacency[current] else [];
      queue, visited := VisitNeighbours(nodes, edges, visitedBefore, visited, start, queue, index, neighbours);
      ReadOne(nodes, edges, adjacency, visitedBefore, visited, start, queue, index);
      index := index + 1;
    }
  }

  lemma LinkedBack(nodes: seq<string>, edges: seq<Edge>, a: string, b: string)
    requires Linked(nodes, edges, a, b)
    ensures Linked(nodes, edges, b, a)
  {
    var e :| e in edges && Joins(e, a, b);
    assert Joins(e, b, a);
  }

  /** What is linked to a name not met earlier was not met earlier. */
  lemma NotEarlier(nodes: seq<string>, edges: seq<Edge>, earlier: set<string>, a: string, b: string)
    requires Settled(nodes, edges, earlier) && a !in earlier && Linked(nodes, edges, a, b)
    ensures b !in earlier
  {
    LinkedBack(nodes, edges, a, b);
  }

  lemma ReadOne(nodes: seq<string>, edges: seq<Edge>, adjacency: Adjacency, earlier: set<string>, visited: set<string>,
                start: string, queue: seq<string>, read: nat)
    requires Lists(nodes, edges, adjacency) && Settled(nodes, edges, earlier)
    requires Searching(nodes, edges, earlier, visited, start, queue, read) && read < |queue|
    requires queue[read] in adjacency ==> forall b | b in adjacency[queue[read]] :: b in visited
    ensures Searching(nodes, edges, earlier, visited, start, queue, read + 1)
  {
    var a := queue[read];
    forall b | Linked(nodes, edges, a, b) ensures b in queue {
      assert a in adjacency && b in adjacency[a];
      assert a in queue && b in visited;
      NotEarlier(nodes, edges, earlier, a, b);
    }
  }

  /** The names of the queue that are nodes. */
  function Present(queue: seq<string>, nodes: seq<string>): seq<string> {
    if queue == [] then []
    else
      var init, last := Present(queue[..|queue| - 1], nodes), queue[|queue| - 1];
      if last in nodes then init + [last] else init
  }

  lemma {:induction false} PresentMembers(queue: seq<string>, nodes: seq<string>)
    ensures forall a :: a in Present(queue, nodes) <==> a in queue && a in nodes
    ensures Distinct(queue) ==> Distinct(Present(queue, nodes))
  {
    if queue != [] {
      var init, last := queue[..|queue| - 1], queue[|queue| - 1];
      PresentMembers(init, nodes);
      assert queue == init + [last];
      if Distinct(queue) { assert forall i | 0 <= i < |init| :: queue[i] != queue[|queue| - 1]; }
    }
  }

  /** A finished search has found a whole class. */
  lemma SearchIsClass(nodes: seq<string>, edges: seq<Edge>, earlier: set<string>, visited: set<string>, start: string,
                      queue: seq<string>)
    requires Searching(nodes, edges, earlier, visited, start, queue, |queue|)
    ensures IsClass(nodes, edges, Present(queue, nodes))
  {
    var c := Present(queue, nodes);
    PresentMembers(queue, nodes);
    assert start in queue && start in c;
    forall a, b | a in c && b in c ensures Connected(nodes, edges, a, b) {
      ConnectedSymmetric(nodes, edges, start, a);
      ConnectedTransitive(nodes, edges, a, start, b);
    }
  }

  ghost predicate Progress(nodes: seq<string>, edges: seq<Edge>, visited: set<string>, components: seq<seq<string>>,
                           k: nat)
  {
    && k <= |nodes| && (forall c | c in components :: IsClass(nodes, edges, c)) && Disjoint(components)
       && Distinct(components)
    && (forall a | a in nodes :: a in visited <==> InSome(components, a))
    && (forall i | 0 <= i < k :: nodes[i] in visited)
    && Settled(nodes, edges, visited)
  }

  lemma ComponentFound(nodes: seq<string>, edges: seq<Edge>, earlier: set<string>, visited: set<string>,
                       components: seq<seq<string>>, k: nat, queue: seq<string>)
    requires k < |nodes| && Progress(nodes, edges, earlier, components, k)
    requires Searching(nodes, edges, earlier, visited, nodes[k], queue, |queue|)
    ensures Progress(nodes, edges, visited, components + [Present(queue, nodes)], k + 1)
  {
    var c := Present(queue, nodes);
    SearchIsClass(nodes, edges, earlier, visited, nodes[k], queue);
    PresentMembers(queue, nodes);
    var next := components + [c];
    forall d, a | d in components && a in d ensures a !in c { assert InSome(components, a); }
    forall a ensures InSome(next, a) <==> InSome(components, a) || a in c {
      if InSome(components, a) { var d :| d in components && a in d; assert d in next; }
      assert c in next;
    }
    assert nodes[k] in c;
    forall d | d in components ensures d != c {}
  }

  /** Larger components first; equals as the node order says of their first nodes. */
  function Larger(before: (string, string) -> bool): (seq<string>, seq<string>) -> bool {
    (c: seq<string>, d: seq<string>) => |c| > |d| || (|c| == |d| && c != [] && d != [] && before(c[0], d[0]))
  }

  /** c is larger than d, or as large and its first node is not behind that of d. */
  predicate NotBehind(before: (string, string) -> bool, c: seq<string>, d: seq<string>) {
    |c| > |d| || (|c| == |d| && (c != [] ==> !before(d[0], c[0])))
  }

  ghost predicate LargestFirst(before: (string, string) -> bool, components: seq<seq<string>>) {
    forall i, j | 0 <= i < j < |components| :: NotBehind(before, components[i], components[j])
  }

  lemma PartitionPermuted(nodes: seq<string>, edges: seq<Edge>, components: seq<seq<string>>, sorted: seq<seq<string>>)
    requires Partition(nodes, edges, components) && multiset(components) == multiset(sorted)
    ensures Partition(nodes, edges, sorted)
  {
    forall c ensures c in components <==> c in sorted { PermutationMembers(components, sorted, c); }
    DistinctPermutation(components, sorted);
    forall i, j, a | 0 <= i < j < |sorted| && a in sorted[i] ensures a !in sorted[j] {
      ApartUnlessSame(components, sorted[i], sorted[j], a);
    }
    forall a | a in nodes ensures InSome(sorted, a) {
      assert InSome(components, a);
      var c :| c in components && a in c;
      assert c in sorted;
    }
  }

  lemma ApartUnlessSame(components: seq<seq<string>>, c: seq<string>, d: seq<string>, a: string)
    requires Disjoint(components) && c in components && d in components && c != d && a in c
    ensures a !in d
  {
    var i :| 0 <= i < |components| && components[i] == c;
    var j :| 0 <= j < |components| && components[j] == d;
    if i < j {
      assert a in components[i];
    }
  }

  /** connectedComponents: the classes of reachability, largest first. */
  method ConnectedComponents(nodes: seq<string>, edges: seq<Edge>, before: (string, string) -> bool)
    returns (components: seq<seq<string>>)
    requires StrictWeakOrder(before)
    ensures Partition(nodes, edges, components)
    ensures LargestFirst(before, components)
  {
    var adjacency := BuildAdjacency(nodes, edges);
    var visited: set<string> := {};
    var found: seq<seq<string>> := [];
    for k := 0 to |nodes|
      invariant Progress(nodes, edges, visited, found, k)
    {
      if nodes[k] in visited { continue; }
      var queue, seen := Explore(nodes, edges, adjacency, nodes[k], visited);
      ComponentFound(nodes, edges, visited, seen, found, k, queue);
      found := found + [Present(queue, nodes)];
      visited := seen;
    }
    forall a | a in nodes ensures InSome(found, a) {
      var i :| 0 <= i < |nodes| && nodes[i] == a;
      assert nodes[i] in visited;
    }
    components := SortBy(Larger(before), found);
    SortPermutes(Larger(before), found);
    PartitionPermuted(nodes, edges, found, components);
    SortIsOrdered(Larger(before), found);
    forall i, j | 0 <= i < j < |components| ensures NotBehind(before, components[i], components[j]) {
      assert !Larger(before)(components[j], components[i]);
    }
  }
}

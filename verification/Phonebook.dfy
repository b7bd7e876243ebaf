/** What the client shows from the route search (web/src/connectivity.ts): the shortest path
    between two nodes and the phone book, which groups the reachable nodes by hop count. */
module Phonebook {
  import opened Shared
  import opened Sorting
  import opened Connectivity
  import opened RouteSearch

  /** shortestPathBetween; the empty string stands for a missing selection. */
  method ShortestPathBetween(g: Graph, text: Text, source: string, target: string) returns (r: Option<PathCandidate>)
    requires WellFormed(g) && Collates(text)
    ensures r.Some? <==>
              && source != "" && target != "" && source != target
              && source in g.nodesByID && target in g.nodesByID
              && exists es :: Walk(g, source, es, target)
    ensures r.Some? ==> exists es :: IsRealPath(g, source, es, r.value) && r.value.nodeID == target
    ensures r.Some? ==> forall es | Walk(g, source, es, target) :: AtLeastAsGood(r.value, es)
  {
    if source == "" || target == "" || source == target || source !in g.nodesByID || target !in g.nodesByID {
      return None;
    }
    var paths := ReachablePaths(g, text, source);
    if target !in paths { return None; }
    return Some(paths[target]);
  }

  datatype Group = Group(hopCount: nat, nodes: seq<PathCandidate>)

  /** The entry the phone book owes to node v: a known reachable node other than the
      selected one that passes the filter. */
  predicate Wanted(g: Graph, selected: string, matches: PathCandidate -> bool, paths: map<string, PathCandidate>,
                   v: string)
  {
    v in paths && v != selected && v in g.nodesByID && matches(paths[v])
  }

  /** groups[h] lists each wanted node of `done` with h hops once. */
  ghost predicate Grouped(g: Graph, selected: string, matches: PathCandidate -> bool, paths: map<string, PathCandidate>,
                          done: set<string>, groups: map<nat, seq<PathCandidate>>) {
    && (forall h | h in groups ::
          groups[h] != []
          && forall i | 0 <= i < |groups[h]| :: Listed(g, selected, matches, paths, done, h, groups[h][i]))
    && (forall v | v in done && Wanted(g, selected, matches, paths, v) ::
          paths[v].hopCount in groups && paths[v] in groups[paths[v].hopCount])
    && (forall h | h in groups :: Distinct(groups[h]))
  }

  predicate Listed(g: Graph, selected: string, matches: PathCandidate -> bool, paths: map<string, PathCandidate>,
                   done: set<string>, h: nat, c: PathCandidate) {
    c.nodeID in done && Wanted(g, selected, matches, paths, c.nodeID) && c == paths[c.nodeID] && c.hopCount == h
  }

  lemma GroupOne(g: Graph, selected: string, matches: PathCandidate -> bool, paths: map<string, PathCandidate>,
                 done: set<string>, groups: map<nat, seq<PathCandidate>>, v: string)
    requires Keyed(paths) && Grouped(g, selected, matches, paths, done, groups) && v in paths && v !in done
    ensures var h := paths[v].hopCount;
            var groups' := if Wanted(g, selected, matches, paths, v) then
                groups[h := (if h in groups then groups[h] else []) + [paths[v]]]
              else groups;
            Grouped(g, selected, matches, paths, done + {v}, groups')
  {
    var h := paths[v].hopCount;
    if Wanted(g, selected, matches, paths, v) {
      var group := if h in groups then groups[h] else [];
      var groups' := groups[h := group + [paths[v]]];
      assert forall i | 0 <= i < |group| :: group[i].nodeID in done;
      assert Distinct(group + [paths[v]]);
      forall k | k in groups'
        ensures groups'[k] != []
        ensures forall i | 0 <= i < |groups'[k]| :: Listed(g, selected, matches, paths, done + {v}, k, groups'[k][i])
      {}
      assert (group + [paths[v]])[|group|] == paths[v];
    }
  }

  method GroupByHops(g: Graph, selected: string, matches: PathCandidate -> bool, found: map<string, PathCandidate>)
    returns (groups: map<nat, seq<PathCandidate>>, hops: seq<nat>)
    requires Keyed(found)
    ensures Grouped(g, selected, matches, found, found.Keys, groups)
    ensures Distinct(hops) && forall h :: h in hops <==> h in groups
  {
    groups, hops := map[], [];
    var todo := found.Keys;
    ghost var done: set<string> := {};
    while todo != {}
      invariant done !! todo && done + todo == found.Keys
      invariant Grouped(g, selected, matches, found, done, groups)
      invariant Distinct(hops) && forall h :: h in hops <==> h in groups
      decreases todo
    {
      var v :| v in todo;
      GroupOne(g, selected, matches, found, done, groups, v);
      todo := todo - {v};
      done := done + {v};
      if Wanted(g, selected, matches, found, v) {
        var h := found[v].hopCount;
        if h !in groups { hops := hops + [h]; }
        groups := groups[h := (if h in groups then groups[h] else []) + [found[v]]];
      }
    }
    assert done == found.Keys;
  }

  /** phonebookGroupsForNode: `matches` is the text and distance filter, `ahead` the order
      of the chosen sort mode. */
  method PhonebookGroups(g: Graph, text: Text, selected: string, matches: PathCandidate -> bool,
                         ahead: (PathCandidate, PathCandidate) -> bool)
    returns (out: seq<Group>, ghost paths: map<string, PathCandidate>)
    requires WellFormed(g) && Collates(text)
    ensures selected == "" || selected !in g.nodesByID ==> out == []
    ensures selected != "" && selected in g.nodesByID ==>
              && ExactlyReachable(g, selected, paths) && EachReal(g, selected, paths) && EachOptimal(g, selected, paths)
              && IsPhonebook(g, selected, matches, ahead, paths, out)
              && ListsMatches(g, selected, matches, paths, out)
  {
    paths := map[];
    if selected == "" || selected !in g.nodesByID { return [], paths; }
    var found := ReachablePaths(g, text, selected);
    paths := found;
    var groups, hops := GroupByHops(g, selected, matches, found);
    out := Listing(groups, hops, ahead);
    ListingIsPhonebook(g, selected, matches, found, groups, hops, ahead);
    PhonebookLists(g, selected, matches, ahead, found, out);
  }

  function Fewer(): (nat, nat) -> bool { (a, b) => a < b }

  function Listing(groups: map<nat, seq<PathCandidate>>, hops: seq<nat>,
                   ahead: (PathCandidate, PathCandidate) -> bool): (r: seq<Group>)
    requires forall h | h in hops :: h in groups
    ensures |r| == |hops|
  {
    var sorted := SortBy(Fewer(), hops);
    seq(|hops|, i requires 0 <= i < |hops| =>
      SortMembers(Fewer(), hops, sorted[i]);
      Group(sorted[i], SortBy(ahead, groups[sorted[i]])))
  }

  /** Groups come by increasing hop count; a group lists its nodes once each, in the order of the
      sort mode if that is one; a node is listed exactly when it is wanted, with its best path and
      in the group of that path's hop count. */
  ghost predicate IsPhonebook(g: Graph, selected: string, matches: PathCandidate -> bool,
                              ahead: (PathCandidate, PathCandidate) -> bool, paths: map<string, PathCandidate>,
                                  out: seq<Group>) {
    && (forall i, j | 0 <= i < j < |out| :: out[i].hopCount < out[j].hopCount)
    && (forall i | 0 <= i < |out| :: out[i].nodes != [] && Distinct(out[i].nodes))
    && (StrictWeakOrder(ahead) ==> forall i | 0 <= i < |out| :: Ordered(ahead, out[i].nodes))
    && (forall i, c | 0 <= i < |out| && c in out[i].nodes ::
        Listed(g, selected, matches, paths, paths.Keys, out[i].hopCount, c))
    && (forall v | Wanted(g, selected, matches, paths, v) :: exists i :: 0 <= i < |out| && paths[v] in out[i].nodes)
  }

  /** Listed are exactly the entries that the filter accepts of the reachable known nodes but the selected
      one, each under the number of its hops. */
  ghost predicate ListsMatches(g: Graph, selected: string, matches: PathCandidate -> bool,
                               paths: map<string, PathCandidate>, out: seq<Group>)
  {
    && (forall i, c | 0 <= i < |out| && c in out[i].nodes ::
          && c.nodeID in paths && c == paths[c.nodeID] && c.nodeID in g.nodesByID && c.nodeID != selected
          && matches(c) && c.hopCount == out[i].hopCount)
    && (forall v | v in paths && v in g.nodesByID && v != selected && matches(paths[v]) ::
          exists i :: 0 <= i < |out| && paths[v] in out[i].nodes)
  }

  lemma PhonebookLists(g: Graph, selected: string, matches: PathCandidate -> bool,
                       ahead: (PathCandidate, PathCandidate) -> bool, paths: map<string, PathCandidate>,
                       out: seq<Group>)
    requires IsPhonebook(g, selected, matches, ahead, paths, out)
    ensures ListsMatches(g, selected, matches, paths, out)
  {
  }

  lemma ListingAt(groups: map<nat, seq<PathCandidate>>, hops: seq<nat>, ahead: (PathCandidate, PathCandidate) -> bool,
                  i: nat)
    requires (forall h | h in hops :: h in groups) && i < |hops|
    ensures var out := Listing(groups, hops, ahead);
            && out[i].hopCount == SortBy(Fewer(), hops)[i] && out[i].hopCount in hops
            && (forall c :: c in out[i].nodes <==> c in groups[out[i].hopCount])
            && (Distinct(groups[out[i].hopCount]) ==> Distinct(out[i].nodes))
            && |out[i].nodes| == |groups[out[i].hopCount]|
  {
    var out := Listing(groups, hops, ahead);
    SortMembers(Fewer(), hops, SortBy(Fewer(), hops)[i]);
    var group := groups[out[i].hopCount];
    SortPermutes(ahead, group);
    if Distinct(group) { DistinctPermutation(group, out[i].nodes); }
    forall c ensures c in out[i].nodes <==> c in group { SortMembers(ahead, group, c); }
  }

  lemma ListingInOrder(groups: map<nat, seq<PathCandidate>>, hops: seq<nat>,
                       ahead: (PathCandidate, PathCandidate) -> bool, i: nat)
    requires (forall h | h in hops :: h in groups) && i < |hops| && StrictWeakOrder(ahead)
    ensures Ordered(ahead, Listing(groups, hops, ahead)[i].nodes)
  {
    ListingAt(groups, hops, ahead, i);
    SortIsOrdered(ahead, groups[Listing(groups, hops, ahead)[i].hopCount]);
  }

  lemma ListingAscends(groups: map<nat, seq<PathCandidate>>, hops: seq<nat>,
                       ahead: (PathCandidate, PathCandidate) -> bool)
    requires (forall h | h in hops :: h in groups) && Distinct(hops)
    ensures var out := Listing(groups, hops, ahead); forall i, j | 0 <= i < j < |out| ::
            out[i].hopCount < out[j].hopCount
  {
    var sorted := SortBy(Fewer(), hops);
    SortIsOrdered(Fewer(), hops);
    SortPermutes(Fewer(), hops);
    DistinctPermutation(hops, sorted);
    var out := Listing(groups, hops, ahead);
    forall i, j | 0 <= i < j < |out| ensures out[i].hopCount < out[j].hopCount {
      ListingAt(groups, hops, ahead, i);
      ListingAt(groups, hops, ahead, j);
      assert !Fewer()(sorted[j], sorted[i]) && sorted[i] != sorted[j];
    }
  }

  lemma ListingIsPhonebook(g: Graph, selected: string, matches: PathCandidate -> bool,
                           paths: map<string, PathCandidate>,
                           groups: map<nat, seq<PathCandidate>>, hops: seq<nat>,
                               ahead: (PathCandidate, PathCandidate) -> bool)
    requires Grouped(g, selected, matches, paths, paths.Keys, groups)
    requires Distinct(hops) && forall h :: h in hops <==> h in groups
    ensures IsPhonebook(g, selected, matches, ahead, paths, Listing(groups, hops, ahead))
  {
    var out := Listing(groups, hops, ahead);
    if StrictWeakOrder(ahead) {
      forall i | 0 <= i < |out| ensures Ordered(ahead, out[i].nodes) { ListingInOrder(groups, hops, ahead, i); }
    }
    ListingAscends(groups, hops, ahead);
    forall i | 0 <= i < |out| ensures out[i].nodes != [] && Distinct(out[i].nodes) {
      ListingAt(groups, hops, ahead, i);
    }
    forall i, c | 0 <= i < |out| && c in out[i].nodes
      ensures Listed(g, selected, matches, paths, paths.Keys, out[i].hopCount, c)
    {
      ListingAt(groups, hops, ahead, i);
    }
    forall v | Wanted(g, selected, matches, paths, v) ensures exists i :: 0 <= i < |out| && paths[v] in out[i].nodes {
      SortMembers(Fewer(), hops, paths[v].hopCount);
      var i :| 0 <= i < |hops| && SortBy(Fewer(), hops)[i] == paths[v].hopCount;
      ListingAt(groups, hops, ahead, i);
    }
  }
}

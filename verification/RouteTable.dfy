/** Route aggregates and their position index: the batched update of web/src/state.ts against
    the update one hit at a time. */
module RouteTable {
  import opened Shared

  /** A segment's two public endpoints and its length. */
  datatype Ends = Ends(from: string, to: string, distanceKm: real)

  datatype Route = Route(id: string, ends: Ends, packetCount: int, lastHeard: int, payloads: set<string>)

  /** One pulse passing over one route. */
  datatype Hit = Hit(routeId: string, ends: Ends, heardAt: int, payload: string)

  datatype Group = Group(ends: Ends, hits: nat, lastHeard: int, payloads: set<string>)

  datatype Table = Table(routes: seq<Route>, index: map<string, nat>, maxCount: int)

  // ---------------------------------------------------------------------------
  // One hit at a time
  // ---------------------------------------------------------------------------

  function One(h: Hit): Group { Group(h.ends, 1, h.heardAt, {h.payload}) }

  function Join(g: Group, k: Group): Group {
    Group(g.ends, g.hits + k.hits, Max(g.lastHeard, k.lastHeard), g.payloads + k.payloads)
  }

  function Absorb(r: Route, g: Group): Route {
    Route(r.id, r.ends, r.packetCount + g.hits, Max(r.lastHeard, g.lastHeard), r.payloads + g.payloads)
  }

  function Fresh(id: string, g: Group): Route { Route(id, g.ends, g.hits, g.lastHeard, g.payloads) }

  function Touch(t: Table, h: Hit): Table {
    if h.routeId in t.index && t.index[h.routeId] < |t.routes| then
      var i := t.index[h.routeId];
      var r := Absorb(t.routes[i], One(h));
      Table(t.routes[i := r], t.index, Max(t.maxCount, r.packetCount))
    else
      Table(t.routes + [Fresh(h.routeId, One(h))], t.index[h.routeId := |t.routes|], Max(t.maxCount, 1))
  }

  function TouchAll(t: Table, hits: seq<Hit>): Table {
    if hits == [] then t else Touch(TouchAll(t, hits[..|hits| - 1]), hits[|hits| - 1])
  }

  // ---------------------------------------------------------------------------
  // Hits grouped by route
  // ---------------------------------------------------------------------------

  function AddHit(groups: map<string, Group>, h: Hit): map<string, Group> {
    groups[h.routeId := if h.routeId in groups then Join(groups[h.routeId], One(h)) else One(h)]
  }

  function Groups(hits: seq<Hit>): map<string, Group> {
    if hits == [] then map[] else AddHit(Groups(hits[..|hits| - 1]), hits[|hits| - 1])
  }

  /** The touched ids in the order of their first hit. */
  function FirstOrder(hits: seq<Hit>): seq<string> {
    if hits == [] then []
    else
      var init, id := FirstOrder(hits[..|hits| - 1]), hits[|hits| - 1].routeId;
      if id in init then init else init + [id]
  }

  lemma {:induction false} OrderOfGroups(hits: seq<Hit>)
    ensures Distinct(FirstOrder(hits)) && forall id :: id in FirstOrder(hits) <==> id in Groups(hits)
  {
    if hits != [] {
      var init, id := hits[..|hits| - 1], hits[|hits| - 1].routeId;
      OrderOfGroups(init);
    }
  }

  /** The ids of the order that the index does not know. */
  function Unknown(order: seq<string>, index: map<string, nat>): seq<string> {
    if order == [] then []
    else
      var init, id := Unknown(order[..|order| - 1], index), order[|order| - 1];
      if id in index then init else init + [id]
  }

  lemma {:induction false} UnknownMembers(order: seq<string>, index: map<string, nat>)
    requires Distinct(order)
    ensures Distinct(Unknown(order, index)) && forall id :: id in Unknown(order, index) <==> id in order && id !in index
  {
    if order != [] {
      var init, id := order[..|order| - 1], order[|order| - 1];
      assert order == init + [id];
      UnknownMembers(init, index);
    }
  }

  // ---------------------------------------------------------------------------
  // What a table keeps
  // ---------------------------------------------------------------------------

  /** The index is exactly the inverse of the route array. */
  ghost predicate Indexed(routes: seq<Route>, index: map<string, nat>) {
    && (forall i | 0 <= i < |routes| :: routes[i].id in index && index[routes[i].id] == i)
    && (forall id | id in index :: index[id] < |routes| && routes[index[id]].id == id)
  }

  /** m is the highest count, or the floor it started from. */
  ghost predicate Tops(m: int, floor: int, routes: seq<Route>) {
    && floor <= m && (forall i | 0 <= i < |routes| :: routes[i].packetCount <= m)
    && (m == floor || exists i | 0 <= i < |routes| :: routes[i].packetCount == m)
  }

  ghost predicate Valid(t: Table) {
    && Indexed(t.routes, t.index)
    && t.maxCount >= 1 && forall i | 0 <= i < |t.routes| :: t.routes[i].packetCount <= t.maxCount
  }

  /** The inverse of a route array is unique. */
  lemma IndexIsUnique(routes: seq<Route>, a: map<string, nat>, b: map<string, nat>)
    requires Indexed(routes, a) && Indexed(routes, b)
    ensures a == b
  {
    forall id ensures id in a <==> id in b {
      if id in a { assert routes[a[id]].id == id; }
      if id in b { assert routes[b[id]].id == id; }
    }
    forall id | id in a ensures a[id] == b[id] { assert routes[a[id]].id == id; }
  }

  lemma IndexedAppend(routes: seq<Route>, index: map<string, nat>, r: Route)
    requires Indexed(routes, index) && r.id !in index
    ensures Indexed(routes + [r], index[r.id := |routes|])
  {
  }

  lemma TopsUpdate(m: int, floor: int, routes: seq<Route>, i: nat, r: Route)
    requires Tops(m, floor, routes) && i < |routes| && r.packetCount > routes[i].packetCount
    ensures Tops(Max(m, r.packetCount), floor, routes[i := r])
  {
    var next := routes[i := r];
    assert next[i] == r;
    if m > floor && m >= r.packetCount {
      var k :| 0 <= k < |routes| && routes[k].packetCount == m;
      assert next[k] == routes[k];
    }
  }

  lemma TopsAppend(m: int, floor: int, routes: seq<Route>, r: Route)
    requires Tops(m, floor, routes)
    ensures Tops(Max(m, r.packetCount), floor, routes + [r])
  {
    var next := routes + [r];
    assert next[|routes|] == r;
    if m > floor && m >= r.packetCount {
      var k :| 0 <= k < |routes| && routes[k].packetCount == m;
      assert next[k] == routes[k];
    }
  }

  lemma TouchKeeps(t: Table, h: Hit, floor: int)
    requires Valid(t) && Tops(t.maxCount, floor, t.routes) && floor >= 1
    ensures Valid(Touch(t, h)) && Tops(Touch(t, h).maxCount, floor, Touch(t, h).routes)
  {
    if h.routeId in t.index {
      var i := t.index[h.routeId];
      var r := Absorb(t.routes[i], One(h));
      TopsUpdate(t.maxCount, floor, t.routes, i, r);
    } else {
      var r := Fresh(h.routeId, One(h));
      IndexedAppend(t.routes, t.index, r);
      TopsAppend(t.maxCount, floor, t.routes, r);
    }
  }

  /** All counts together. */
  function TotalCount(routes: seq<Route>): int {
    if routes == [] then 0 else TotalCount(routes[..|routes| - 1]) + routes[|routes| - 1].packetCount
  }

  lemma {:induction false} TotalUpdate(routes: seq<Route>, i: nat, r: Route)
    requires i < |routes|
    ensures TotalCount(routes[i := r]) == TotalCount(routes) - routes[i].packetCount + r.packetCount
  {
    var n := |routes| - 1;
    if i < n {
      assert routes[i := r][..n] == routes[..n][i := r];
      TotalUpdate(routes[..n], i, r);
    } else {
      assert routes[i := r][..n] == routes[..n];
    }
  }

  lemma TouchCountsOne(t: Table, h: Hit)
    requires Valid(t)
    ensures TotalCount(Touch(t, h).routes) == TotalCount(t.routes) + 1
  {
    if h.routeId in t.index {
      var i := t.index[h.routeId];
      TotalUpdate(t.routes, i, Absorb(t.routes[i], One(h)));
    } else {
      assert (t.routes + [Fresh(h.routeId, One(h))])[..|t.routes|] == t.routes;
    }
  }

  /** Every hit counts once. */
  lemma {:induction false} TouchAllCounts(t: Table, hits: seq<Hit>)
    requires Valid(t)
    ensures Valid(TouchAll(t, hits)) && TotalCount(TouchAll(t, hits).routes) == TotalCount(t.routes) + |hits|
  {
    if hits != [] {
      var before, h := TouchAll(t, hits[..|hits| - 1]), hits[|hits| - 1];
      TouchAllCounts(t, hits[..|hits| - 1]);
      TouchCountsOne(before, h);
      TouchKeepsValid(before, h);
    }
  }

  lemma TouchKeepsValid(t: Table, h: Hit)
    requires Valid(t)
    ensures Valid(Touch(t, h))
  {
    TouchKeeps(t, h, t.maxCount);
  }

  // ---------------------------------------------------------------------------
  // A batch, described
  // ---------------------------------------------------------------------------

  function AbsorbFrom(r: Route, groups: map<string, Group>): Route {
    if r.id in groups then Absorb(r, groups[r.id]) else r
  }

  /** The old routes, each with its group absorbed, then the unknown ids as fresh routes. */
  ghost predicate Batched(routes: seq<Route>, before: seq<Route>, unknown: seq<string>, groups: map<string, Group>) {
    && |routes| == |before| + |unknown|
    && (forall i | 0 <= i < |before| :: routes[i] == AbsorbFrom(before[i], groups))
    && (forall k | 0 <= k < |unknown| ::
          unknown[k] in groups && routes[|before| + k] == Fresh(unknown[k], groups[unknown[k]]))
  }

  lemma BatchedIsUnique(a: seq<Route>, b: seq<Route>, before: seq<Route>, unknown: seq<string>,
                        groups: map<string, Group>)
    requires Batched(a, before, unknown, groups) && Batched(b, before, unknown, groups)
    ensures a == b
  {
    forall i | 0 <= i < |a| ensures a[i] == b[i] {
      if i >= |before| {
        var k := i - |before|;
        assert a[|before| + k] == Fresh(unknown[k], groups[unknown[k]]);
        assert b[|before| + k] == Fresh(unknown[k], groups[unknown[k]]);
      }
    }
  }

  /** One more hit on a known id. */
  lemma BatchedKnown(f: Table, t: Table, order: seq<string>, unknown: seq<string>, groups: map<string, Group>, h: Hit)
    requires Valid(t) && Valid(f) && Batched(f.routes, t.routes, unknown, groups) && h.routeId in t.index
             && h.routeId !in unknown
    ensures Batched(Touch(f, h).routes, t.routes, unknown, AddHit(groups, h))
  {
    var i := t.index[h.routeId];
    assert f.routes[i].id == h.routeId && f.index[h.routeId] == i;
  }

  /** One more hit on an id new in this batch. */
  lemma BatchedAgain(f: Table, t: Table, unknown: seq<string>, groups: map<string, Group>, h: Hit)
    requires Valid(t) && Valid(f) && Batched(f.routes, t.routes, unknown, groups) && Distinct(unknown)
    requires h.routeId !in t.index && h.routeId in unknown
    ensures Batched(Touch(f, h).routes, t.routes, unknown, AddHit(groups, h))
  {
    var k :| 0 <= k < |unknown| && unknown[k] == h.routeId;
    assert f.routes[|t.routes| + k].id == h.routeId && f.index[h.routeId] == |t.routes| + k;
    forall i | 0 <= i < |t.routes| ensures t.routes[i].id != h.routeId {}
  }

  lemma NotYetThere(f: Table, t: Table, unknown: seq<string>, groups: map<string, Group>, id: string)
    requires Valid(t) && Valid(f) && Batched(f.routes, t.routes, unknown, groups) && id !in t.index && id !in unknown
    ensures id !in f.index
  {
    forall i | 0 <= i < |f.routes| ensures f.routes[i].id != id {
      if i < |t.routes| {
        assert t.routes[i].id in t.index;
      } else {
        var k := i - |t.routes|;
        assert f.routes[|t.routes| + k].id == unknown[k] && unknown[k] in unknown;
      }
    }
  }

  /** The first hit on an id the table does not know. */
  lemma BatchedFirst(f: Table, t: Table, unknown: seq<string>, groups: map<string, Group>, h: Hit)
    requires Valid(t) && Valid(f) && Batched(f.routes, t.routes, unknown, groups)
    requires h.routeId !in t.index && h.routeId !in unknown && h.routeId !in groups
    ensures Batched(Touch(f, h).routes, t.routes, unknown + [h.routeId], AddHit(groups, h))
  {
    NotYetThere(f, t, unknown, groups, h.routeId);
    var next := Touch(f, h).routes;
    forall k | 0 <= k < |unknown + [h.routeId]|
      ensures (unknown + [h.routeId])[k] in AddHit(groups, h)
           && next[|t.routes| + k] == Fresh((unknown + [h.routeId])[k], AddHit(groups, h)[(unknown + [h.routeId])[k]])
    {
      if k < |unknown| { assert next[|t.routes| + k] == f.routes[|t.routes| + k]; }
    }
    forall i | 0 <= i < |t.routes| ensures t.routes[i].id != h.routeId {}
  }

  /** Touching hit by hit amounts to absorbing each route's group once, in first-hit order. */
  lemma {:induction false} TouchAllBatches(t: Table, hits: seq<Hit>)
    requires Valid(t)
    ensures var f := TouchAll(t, hits);
            && Valid(f) && Tops(f.maxCount, t.maxCount, f.routes)
            && Batched(f.routes, t.routes, Unknown(FirstOrder(hits), t.index), Groups(hits))
  {
    if hits != [] {
      var init, h := hits[..|hits| - 1], hits[|hits| - 1];
      var f := TouchAll(t, init);
      var order := FirstOrder(init);
      TouchAllBatches(t, init);
      TouchKeeps(f, h, t.maxCount);
      OrderOfGroups(init);
      UnknownMembers(order, t.index);
      var unknown := Unknown(order, t.index);
      if h.routeId in t.index {
        BatchedKnown(f, t, order, unknown, Groups(init), h);
      } else if h.routeId in order {
        BatchedAgain(f, t, unknown, Groups(init), h);
      } else {
        BatchedFirst(f, t, unknown, Groups(init), h);
      }
    }
  }

  // ---------------------------------------------------------------------------
  // The batch as the reducer computes it
  // ---------------------------------------------------------------------------

  datatype Segment = Segment(routeId: string, ends: Ends)

  datatype Pulse = Pulse(id: string, heardAt: int, payload: string, segments: seq<Segment>)

  function HitOf(p: Pulse, s: Segment): Hit { Hit(s.routeId, s.ends, p.heardAt, p.payload) }

  function HitsOf(p: Pulse, segments: seq<Segment>): seq<Hit> {
    if segments == [] then []
    else HitsOf(p, segments[..|segments| - 1]) + [HitOf(p, segments[|segments| - 1])]
  }

  function AllHits(pulses: seq<Pulse>): seq<Hit> {
    if pulses == [] then []
    else
      var last := pulses[|pulses| - 1];
      AllHits(pulses[..|pulses| - 1]) + HitsOf(last, last.segments)
  }

  lemma HitsSnoc(p: Pulse, k: nat, done: seq<Hit>)
    requires k < |p.segments|
    ensures var part, h := HitsOf(p, p.segments[..k]), HitOf(p, p.segments[k]);
            done + HitsOf(p, p.segments[..k + 1]) == (done + part) + [h]
  {
    assert p.segments[..k + 1][..k] == p.segments[..k];
  }

  /** One more segment in the touched map, whose keys keep their insertion order. */
  method GroupSegment(order: seq<string>, touched: map<string, Group>, pulse: Pulse, segment: Segment,
                      ghost hits: seq<Hit>)
    returns (nextOrder: seq<string>, next: map<string, Group>)
    requires order == FirstOrder(hits) && touched == Groups(hits)
    ensures nextOrder == FirstOrder(hits + [HitOf(pulse, segment)]) && next == Groups(hits + [HitOf(pulse, segment)])
  {
    OrderOfGroups(hits);
    if segment.routeId in touched {
      var existing := touched[segment.routeId];
      nextOrder := order;
      next := touched[segment.routeId :=
        existing.(hits := existing.hits + 1, lastHeard := Max(existing.lastHeard, pulse.heardAt),
                  payloads := existing.payloads + {pulse.payload})];
    } else {
      nextOrder := order + [segment.routeId];
      next := touched[segment.routeId := Group(segment.ends, 1, pulse.heardAt, {pulse.payload})];
    }
  }

  method GroupPulse(order: seq<string>, touched: map<string, Group>, pulse: Pulse, ghost done: seq<Hit>)
    returns (nextOrder: seq<string>, next: map<string, Group>)
    requires order == FirstOrder(done) && touched == Groups(done)
    ensures nextOrder == FirstOrder(done + HitsOf(pulse, pulse.segments))
            && next == Groups(done + HitsOf(pulse, pulse.segments))
  {
    nextOrder, next := order, touched;
    assert done + HitsOf(pulse, pulse.segments[..0]) == done;
    for k := 0 to |pulse.segments|
      invariant nextOrder == FirstOrder(done + HitsOf(pulse, pulse.segments[..k]))
      invariant next == Groups(done + HitsOf(pulse, pulse.segments[..k]))
    {
      HitsSnoc(pulse, k, done);
      nextOrder, next := GroupSegment(nextOrder, next, pulse, pulse.segments[k],
                                      done + HitsOf(pulse, pulse.segments[..k]));
    }
    assert pulse.segments[..|pulse.segments|] == pulse.segments;
  }

  method GroupTouched(pulses: seq<Pulse>) returns (order: seq<string>, touched: map<string, Group>)
    ensures order == FirstOrder(AllHits(pulses)) && touched == Groups(AllHits(pulses))
  {
    order, touched := [], map[];
    for p := 0 to |pulses|
      invariant order == FirstOrder(AllHits(pulses[..p])) && touched == Groups(AllHits(pulses[..p]))
    {
      assert pulses[..p + 1][..p] == pulses[..p];
      order, touched := GroupPulse(order, touched, pulses[p], AllHits(pulses[..p]));
    }
    assert pulses[..|pulses|] == pulses;
  }

  /** The routes after the known ids order[..k] have been absorbed. */
  ghost predicate AbsorbedSoFar(next: seq<Route>, routes: seq<Route>, seen: seq<string>, groups: map<string, Group>) {
    && |next| == |routes|
    && forall i | 0 <= i < |routes| ::
         next[i] == if routes[i].id in seen then AbsorbFrom(routes[i], groups) else routes[i]
  }

  lemma {:induction false} HitsPositive(hits: seq<Hit>)
    ensures forall id | id in Groups(hits) :: Groups(hits)[id].hits > 0
  {
    if hits != [] { HitsPositive(hits[..|hits| - 1]); }
  }

  lemma SomeTouched(hits: seq<Hit>)
    ensures hits != [] ==> FirstOrder(hits) != []
  {
    if hits != [] { assert hits[|hits| - 1].routeId in FirstOrder(hits); }
  }

  lemma OrderStep(order: seq<string>, k: nat, index: map<string, nat>)
    requires Distinct(order) && k < |order|
    ensures order[..k + 1] == order[..k] + [order[k]] && order[k] !in order[..k]
    ensures Unknown(order[..k + 1], index) ==
            if order[k] in index then Unknown(order[..k], index) else Unknown(order[..k], index) + [order[k]]
  {
    assert order[..k + 1] == order[..k] + [order[k]];
  }

  method AbsorbOne(next: seq<Route>, index: nat, update: Group, maxSoFar: int, ghost floor: int)
    returns (after: seq<Route>, maxAfter: int)
    requires index < |next| && update.hits > 0 && Tops(maxSoFar, floor, next)
    ensures after == next[index := Absorb(next[index], update)] && Tops(maxAfter, floor, after)
  {
    var route := next[index];
    var packetCount := route.packetCount + update.hits;
    var updated := Route(route.id, route.ends, packetCount, Max(route.lastHeard, update.lastHeard),
                         route.payloads + update.payloads);
    TopsUpdate(maxSoFar, floor, next, index, updated);
    after := next[index := updated];
    maxAfter := Max(maxSoFar, packetCount);
  }

  /** Absorbing the group of order[k], if its route is known, carries the list one id further. */
  lemma AbsorbStep(t: Table, next: seq<Route>, order: seq<string>, k: nat, groups: map<string, Group>)
    requires Valid(t) && Distinct(order) && k < |order| && order[k] in groups
    requires AbsorbedSoFar(next, t.routes, order[..k], groups)
    ensures order[k] !in t.index ==> AbsorbedSoFar(next, t.routes, order[..k + 1], groups)
    ensures order[k] in t.index ==>
              && t.index[order[k]] < |next| == |t.routes|
              && var i := t.index[order[k]];
                 AbsorbedSoFar(next[i := Absorb(next[i], groups[order[k]])], t.routes, order[..k + 1], groups)
  {
    OrderStep(order, k, t.index);
    forall i | 0 <= i < |t.routes|
      ensures t.routes[i].id in order[..k + 1] <==> t.routes[i].id in order[..k] || t.routes[i].id == order[k]
    {}
    if order[k] in t.index {
      var i := t.index[order[k]];
      assert t.routes[i].id == order[k] && next[i] == t.routes[i];
    }
  }

  method AbsorbKnown(t: Table, order: seq<string>, touched: map<string, Group>)
    returns (next: seq<Route>, maxAfter: int, rest: seq<string>)
    requires Valid(t) && Distinct(order) && (forall id :: id in order <==> id in touched)
    requires forall id | id in touched :: touched[id].hits > 0
    ensures AbsorbedSoFar(next, t.routes, order, touched) && rest == Unknown(order, t.index)
    ensures Tops(maxAfter, t.maxCount, next)
  {
    next, maxAfter, rest := t.routes, Max(1, t.maxCount), [];
    for k := 0 to |order|
      invariant AbsorbedSoFar(next, t.routes, order[..k], touched) && rest == Unknown(order[..k], t.index)
      invariant Tops(maxAfter, t.maxCount, next)
    {
      var routeID := order[k];
      OrderStep(order, k, t.index);
      AbsorbStep(t, next, order, k, touched);
      if routeID in t.index && t.index[routeID] < |t.routes| {
        next, maxAfter := AbsorbOne(next, t.index[routeID], touched[routeID], maxAfter, t.maxCount);
      } else {
        rest := rest + [routeID];
      }
    }
    assert order[..|order|] == order;
  }

  lemma AllAbsorbed(next: seq<Route>, t: Table, order: seq<string>, groups: map<string, Group>)
    requires AbsorbedSoFar(next, t.routes, order, groups) && forall id :: id in order <==> id in groups
    ensures Batched(next, t.routes, [], groups)
  {
  }

  lemma BatchedSnoc(routes: seq<Route>, before: seq<Route>, unknown: seq<string>, groups: map<string, Group>,
                    id: string)
    requires Batched(routes, before, unknown, groups) && id in groups
    ensures Batched(routes + [Fresh(id, groups[id])], before, unknown + [id], groups)
  {
  }

  method AppendUnknown(routes: seq<Route>, routeIndex: map<string, nat>, maxSoFar: int, rest: seq<string>,
                       touched: map<string, Group>, ghost before: seq<Route>, ghost floor: int)
    returns (next: seq<Route>, nextIndex: map<string, nat>, maxAfter: int)
    requires Indexed(routes, routeIndex) && Tops(maxSoFar, floor, routes) && Batched(routes, before, [], touched)
    requires Distinct(rest) && forall k | 0 <= k < |rest| :: rest[k] in touched && rest[k] !in routeIndex
    ensures Indexed(next, nextIndex) && Tops(maxAfter, floor, next) && Batched(next, before, rest, touched)
  {
    next, nextIndex, maxAfter := routes, routeIndex, maxSoFar;
    for k := 0 to |rest|
      invariant Indexed(next, nextIndex) && Tops(maxAfter, floor, next) && Batched(next, before, rest[..k], touched)
      invariant forall j | k <= j < |rest| :: rest[j] !in nextIndex
    {
      var g := touched[rest[k]];
      var route := Route(rest[k], g.ends, g.hits, g.lastHeard, g.payloads);
      assert rest[..k + 1] == rest[..k] + [rest[k]];
      BatchedSnoc(next, before, rest[..k], touched, rest[k]);
      IndexedAppend(next, nextIndex, route);
      TopsAppend(maxAfter, floor, next, route);
      nextIndex := nextIndex[route.id := |next|];
      next := next + [route];
      maxAfter := Max(maxAfter, g.hits);
    }
    assert rest[..|rest|] == rest;
  }

  lemma AbsorbedIsIndexed(next: seq<Route>, t: Table, seen: seq<string>, groups: map<string, Group>)
    requires Valid(t) && AbsorbedSoFar(next, t.routes, seen, groups)
    ensures Indexed(next, t.index)
  {
    forall i | 0 <= i < |next| ensures next[i].id == t.routes[i].id {}
  }

  /** upsertPulseRoutesBatch: a whole batch at once, the same as hit by hit. */
  method UpsertPulseRoutesBatch(t: Table, pulses: seq<Pulse>) returns (r: Table)
    requires Valid(t)
    ensures r == TouchAll(t, AllHits(pulses))
  {
    ghost var hits := AllHits(pulses);
    ghost var f := TouchAll(t, hits);
    TouchAllBatches(t, hits);
    OrderOfGroups(hits);
    HitsPositive(hits);
    UnknownMembers(FirstOrder(hits), t.index);
    var order, touched := GroupTouched(pulses);
    if |order| == 0 {
      SomeTouched(hits);
      return t;
    }
    var next, maxAfter, rest := AbsorbKnown(t, order, touched);
    AllAbsorbed(next, t, order, touched);
    AbsorbedIsIndexed(next, t, order, touched);
    assert forall k | 0 <= k < |rest| :: rest[k] in rest;
    var nextIndex;
    next, nextIndex, maxAfter := AppendUnknown(next, t.index, maxAfter, rest, touched, t.routes, t.maxCount);
    BatchedIsUnique(next, f.routes, t.routes, rest, touched);
    IndexIsUnique(next, nextIndex, f.index);
    r := Table(next, nextIndex, maxAfter);
  }
}

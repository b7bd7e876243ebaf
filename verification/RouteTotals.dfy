/** What a batch of hits makes of a route table, hit for hit: counts, times, payloads and order. */
module RouteTotals {
  import opened Shared
  import opened RouteTable

  /** The hits on one route, in order. */
  function HitsOn(hits: seq<Hit>, id: string): seq<Hit> {
    if hits == [] then []
    else
      var init, last := HitsOn(hits[..|hits| - 1], id), hits[|hits| - 1];
      if last.routeId == id then init + [last] else init
  }

  /** g sums up these hits: how many, where the first one passed, when the latest was heard, and all
      payloads. */
  ghost predicate SumsUp(own: seq<Hit>, g: Group) {
    && g.hits == |own| > 0 && g.ends == own[0].ends
    && (forall h | h in own :: h.heardAt <= g.lastHeard && h.payload in g.payloads)
    && (exists h :: h in own && h.heardAt == g.lastHeard)
    && (forall p | p in g.payloads :: exists h :: h in own && h.payload == p)
  }

  lemma SumsUpOne(own: seq<Hit>, g: Group, h: Hit)
    requires SumsUp(own, g)
    ensures SumsUp(own + [h], Group(g.ends, g.hits + 1, Max(g.lastHeard, h.heardAt), g.payloads + {h.payload}))
  {
    var all := own + [h];
    assert h in all && all[0] == own[0] && forall k | k in own :: k in all;
  }

  /** Each group sums up the hits on its route; a route without a group was not hit. */
  lemma {:induction false} GroupsSumUp(hits: seq<Hit>, id: string)
    ensures if id in Groups(hits) then SumsUp(HitsOn(hits, id), Groups(hits)[id]) else HitsOn(hits, id) == []
  {
    if hits != [] {
      var init, h := hits[..|hits| - 1], hits[|hits| - 1];
      GroupsSumUp(init, id);
      if h.routeId == id {
        if id in Groups(init) { SumsUpOne(HitsOn(init, id), Groups(init)[id], h); } else { assert h in [h]; }
      }
    }
  }

  /** after is before with these hits added. */
  ghost predicate Added(before: Route, own: seq<Hit>, after: Route) {
    && after.id == before.id && after.ends == before.ends && after.packetCount == before.packetCount + |own|
    && before.lastHeard <= after.lastHeard && (forall h | h in own :: h.heardAt <= after.lastHeard)
    && (after.lastHeard == before.lastHeard || exists h :: h in own && h.heardAt == after.lastHeard)
    && forall p :: p in after.payloads <==> p in before.payloads || exists h :: h in own && h.payload == p
  }

  /** The route is what these hits alone make of it. */
  ghost predicate Made(own: seq<Hit>, r: Route) {
    SumsUp(own, Group(r.ends, if r.packetCount > 0 then r.packetCount else 0, r.lastHeard, r.payloads))
  }

  /** x is hit before y is. */
  ghost predicate HitBefore(hits: seq<Hit>, x: string, y: string) {
    exists i :: HitAt(hits, i, x) && forall j | 0 <= j <= i :: hits[j].routeId != y
  }

  predicate HitAt(hits: seq<Hit>, i: int, id: string) { 0 <= i < |hits| && hits[i].routeId == id }

  ghost predicate InHitOrder(hits: seq<Hit>, ids: seq<string>) {
    forall a, b | 0 <= a < b < |ids| :: HitBefore(hits, ids[a], ids[b])
  }

  lemma HitBeforeStays(hits: seq<Hit>, h: Hit, x: string, y: string)
    requires HitBefore(hits, x, y)
    ensures HitBefore(hits + [h], x, y)
  {
    var i :| HitAt(hits, i, x) && forall j | 0 <= j <= i :: hits[j].routeId != y;
    assert HitAt(hits + [h], i, x);
  }

  ghost predicate IsHit(hits: seq<Hit>, id: string) { exists i :: HitAt(hits, i, id) }

  lemma IsHitOne(hits: seq<Hit>, h: Hit, id: string)
    ensures IsHit(hits + [h], id) <==> IsHit(hits, id) || id == h.routeId
  {
    var all := hits + [h];
    assert all[|hits|] == h;
    if i :| HitAt(hits, i, id) { assert HitAt(all, i, id); }
    if id == h.routeId { assert HitAt(all, |hits|, id); }
    if i :| HitAt(all, i, id) { assert i == |hits| || HitAt(hits, i, id); }
  }

  lemma HitBeforeNew(hits: seq<Hit>, h: Hit, x: string)
    requires IsHit(hits, x) && !IsHit(hits, h.routeId)
    ensures HitBefore(hits + [h], x, h.routeId)
  {
    var i :| HitAt(hits, i, x);
    assert HitAt(hits + [h], i, x);
    forall j | 0 <= j <= i ensures (hits + [h])[j].routeId != h.routeId { assert !HitAt(hits, j, h.routeId); }
  }

  lemma {:induction false} OrderIsByFirstHit(hits: seq<Hit>)
    ensures InHitOrder(hits, FirstOrder(hits)) && forall id :: id in FirstOrder(hits) <==> IsHit(hits, id)
  {
    if hits != [] {
      var init, h := hits[..|hits| - 1], hits[|hits| - 1];
      var order := FirstOrder(init);
      assert hits == init + [h];
      OrderIsByFirstHit(init);
      forall id ensures id in FirstOrder(hits) <==> IsHit(hits, id) { IsHitOne(init, h, id); }
      forall a, b | 0 <= a < b < |FirstOrder(hits)| ensures HitBefore(hits, FirstOrder(hits)[a], FirstOrder(hits)[b]) {
        if b < |order| { HitBeforeStays(init, h, order[a], order[b]); } else { HitBeforeNew(init, h, order[a]); }
      }
    }
  }

  lemma {:induction false} UnknownInOrder(hits: seq<Hit>, order: seq<string>, index: map<string, nat>)
    requires InHitOrder(hits, order) && Distinct(order)
    ensures InHitOrder(hits, Unknown(order, index))
  {
    if order != [] {
      var init, id := order[..|order| - 1], order[|order| - 1];
      UnknownInOrder(hits, init, index);
      UnknownMembers(init, index);
      var ids := Unknown(init, index);
      forall a | 0 <= a < |ids| ensures HitBefore(hits, ids[a], id) {
        assert ids[a] in init;
        var k :| 0 <= k < |init| && init[k] == ids[a];
        assert order[k] == ids[a];
      }
    }
  }

  /** after is the table with the hits added: every known route has its own, every other one is made
      of them and stands behind, in the order of the first hits; the index and the maximum are exact. */
  ghost predicate HitsAdded(t: Table, hits: seq<Hit>, after: Table) {
    && Indexed(after.routes, after.index) && Tops(after.maxCount, t.maxCount, after.routes)
    && |t.routes| <= |after.routes|
    && (forall i | 0 <= i < |t.routes| :: Added(t.routes[i], HitsOn(hits, t.routes[i].id), after.routes[i]))
    && (forall i | |t.routes| <= i < |after.routes| ::
          Made(HitsOn(hits, after.routes[i].id), after.routes[i]) && after.routes[i].id !in t.index)
    && (forall i, j | |t.routes| <= i < j < |after.routes| :: HitBefore(hits, after.routes[i].id, after.routes[j].id))
    && forall i | 0 <= i < |hits| :: hits[i].routeId in after.index
  }

  lemma AbsorbedIsAdded(r: Route, hits: seq<Hit>)
    ensures Added(r, HitsOn(hits, r.id), AbsorbFrom(r, Groups(hits)))
  {
    GroupsSumUp(hits, r.id);
  }

  lemma FreshIsMade(id: string, hits: seq<Hit>)
    requires id in Groups(hits)
    ensures Made(HitsOn(hits, id), Fresh(id, Groups(hits)[id]))
  {
    GroupsSumUp(hits, id);
  }

  /** The ids of a batched table. */
  lemma {:induction false} HitIsIndexed(t: Table, hits: seq<Hit>, f: Table, i: nat)
    requires Valid(t) && Valid(f) && Batched(f.routes, t.routes, Unknown(FirstOrder(hits), t.index), Groups(hits))
    requires i < |hits|
    ensures hits[i].routeId in f.index
  {
    var id, unknown := hits[i].routeId, Unknown(FirstOrder(hits), t.index);
    OrderIsByFirstHit(hits);
    OrderOfGroups(hits);
    UnknownMembers(FirstOrder(hits), t.index);
    assert HitAt(hits, i, id) && IsHit(hits, id);
    if id in t.index {
      assert f.routes[t.index[id]].id == id;
    } else {
      var k :| 0 <= k < |unknown| && unknown[k] == id;
      assert f.routes[|t.routes| + k].id == id;
    }
  }

  /** Adding hits one at a time, and so in a batch, adds each hit to its own route. */
  lemma TouchAllAdds(t: Table, hits: seq<Hit>)
    requires Valid(t)
    ensures HitsAdded(t, hits, TouchAll(t, hits))
  {
    var f, unknown := TouchAll(t, hits), Unknown(FirstOrder(hits), t.index);
    TouchAllBatches(t, hits);
    OrderOfGroups(hits);
    OrderIsByFirstHit(hits);
    UnknownMembers(FirstOrder(hits), t.index);
    UnknownInOrder(hits, FirstOrder(hits), t.index);
    forall i | 0 <= i < |t.routes| ensures Added(t.routes[i], HitsOn(hits, t.routes[i].id), f.routes[i]) {
      AbsorbedIsAdded(t.routes[i], hits);
    }
    forall i | |t.routes| <= i < |f.routes|
      ensures f.routes[i].id == unknown[i - |t.routes|] && Made(HitsOn(hits, f.routes[i].id), f.routes[i])
    {
      assert f.routes[|t.routes| + (i - |t.routes|)] == f.routes[i];
      FreshIsMade(unknown[i - |t.routes|], hits);
    }
    forall i | 0 <= i < |hits| ensures hits[i].routeId in f.index { HitIsIndexed(t, hits, f, i); }
  }

  // ---------------------------------------------------------------------------
  // The hits of pulses
  // ---------------------------------------------------------------------------

  /** A pulse hits the route of each of its segments, in order. */
  lemma {:induction false} SegmentHits(p: Pulse, segments: seq<Segment>)
    ensures |HitsOf(p, segments)| == |segments|
    ensures forall k | 0 <= k < |segments| ::
      HitsOf(p, segments)[k] == Hit(segments[k].routeId, segments[k].ends, p.heardAt, p.payload)
  {
    if segments != [] { SegmentHits(p, segments[..|segments| - 1]); }
  }

  /** Pulses hit one after another. */
  lemma PulseHits(pulses: seq<Pulse>, p: Pulse)
    ensures AllHits(pulses + [p]) == AllHits(pulses) + HitsOf(p, p.segments) && AllHits([]) == []
  {
    assert (pulses + [p])[..|pulses|] == pulses;
  }
}

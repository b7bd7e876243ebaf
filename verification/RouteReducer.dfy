/** The client reducer (web/src/state.ts): snapshots, hydration and batches of live envelopes over
    a route table. */
module RouteReducer {
  import opened Shared
  import opened RouteTable
  import RouteTotals

  // ---------------------------------------------------------------------------
  // Snapshots
  // ---------------------------------------------------------------------------

  /** A position per id; of equal ids the last one wins, as in a map built from pairs. */
  function IndexRoutes(routes: seq<Route>): map<string, nat> {
    if routes == [] then map[]
    else IndexRoutes(routes[..|routes| - 1])[routes[|routes| - 1].id := |routes| - 1]
  }

  function MaxRoutePacketCount(routes: seq<Route>): int {
    if routes == [] then 1
    else Max(MaxRoutePacketCount(routes[..|routes| - 1]), routes[|routes| - 1].packetCount)
  }

  function Snapshot(routes: seq<Route>): Table {
    Table(routes, IndexRoutes(routes), MaxRoutePacketCount(routes))
  }

  ghost predicate UniqueIds(routes: seq<Route>) {
    forall i, j | 0 <= i < j < |routes| :: routes[i].id != routes[j].id
  }

  lemma {:induction false} HighestCounts(routes: seq<Route>)
    ensures Tops(MaxRoutePacketCount(routes), 1, routes)
  {
    if routes != [] {
      var init, last := routes[..|routes| - 1], routes[|routes| - 1];
      HighestCounts(init);
      TopsAppend(MaxRoutePacketCount(init), 1, init, last);
      assert init + [last] == routes;
    }
  }

  lemma {:induction false} UniqueIsIndexed(routes: seq<Route>)
    requires UniqueIds(routes)
    ensures Indexed(routes, IndexRoutes(routes))
  {
    if routes != [] {
      var init, last := routes[..|routes| - 1], routes[|routes| - 1];
      UniqueIsIndexed(init);
      assert forall id | id in IndexRoutes(init) :: init[IndexRoutes(init)[id]].id == id;
      IndexedAppend(init, IndexRoutes(init), last);
      assert init + [last] == routes;
    }
  }

  /** A snapshot gives a consistent table exactly when its route ids are unique. */
  lemma SnapshotValidIff(routes: seq<Route>)
    ensures Valid(Snapshot(routes)) <==> UniqueIds(routes)
  {
    HighestCounts(routes);
    if UniqueIds(routes) { UniqueIsIndexed(routes); }
  }

  // ---------------------------------------------------------------------------
  // Hydration
  // ---------------------------------------------------------------------------

  predicate Has(routes: seq<Route>, id: string) { exists i | 0 <= i < |routes| :: routes[i].id == id }

  /** The first route of each id. */
  function KeepFirst(routes: seq<Route>): seq<Route> {
    if routes == [] then []
    else
      var init, last := KeepFirst(routes[..|routes| - 1]), routes[|routes| - 1];
      if Has(init, last.id) then init else init + [last]
  }

  method MergeCurrentEntities(current: seq<Route>, snapshot: seq<Route>) returns (merged: seq<Route>)
    ensures merged == KeepFirst(current + snapshot) && Firsts(current + snapshot, merged)
  {
    var all := current + snapshot;
    KeepFirstKeepsFirsts(all);
    var seen: set<string> := {};
    merged := [];
    for i := 0 to |all|
      invariant merged == KeepFirst(all[..i]) && forall id :: id in seen <==> Has(merged, id)
    {
      var item := all[i];
      assert all[..i + 1][..i] == all[..i];
      if item.id !in seen {
        HasSnoc(merged, item);
        seen := seen + {item.id};
        merged := merged + [item];
      }
    }
    assert all[..|all|] == all;
  }

  lemma HasSnoc(routes: seq<Route>, r: Route)
    ensures forall id :: Has(routes + [r], id) <==> Has(routes, id) || id == r.id
  {
    forall id ensures Has(routes + [r], id) <==> Has(routes, id) || id == r.id {
      if Has(routes, id) {
        var i :| 0 <= i < |routes| && routes[i].id == id;
        assert (routes + [r])[i].id == id;
      }
      assert (routes + [r])[|routes|].id == r.id;
    }
  }

  /** Route i is the first of its id. */
  predicate FirstAt(routes: seq<Route>, i: int, r: Route) {
    0 <= i < |routes| && routes[i] == r && forall j | 0 <= j < i :: routes[j].id != r.id
  }

  /** a stands before b, each as the first of its id. */
  ghost predicate FirstBefore(routes: seq<Route>, a: Route, b: Route) {
    exists i, j :: i < j && FirstAt(routes, i, a) && FirstAt(routes, j, b)
  }

  /** kept are the routes that are the first of their id, in order. */
  ghost predicate Firsts(routes: seq<Route>, kept: seq<Route>) {
    && (forall r :: r in kept <==> exists i :: FirstAt(routes, i, r))
    && (forall a, b | 0 <= a < b < |kept| :: FirstBefore(routes, kept[a], kept[b]))
  }

  lemma FirstAtOne(routes: seq<Route>, r: Route, i: int, x: Route)
    ensures FirstAt(routes + [r], i, x) <==>
              FirstAt(routes, i, x) || (i == |routes| && x == r && forall j | 0 <= j < |routes| :: routes[j].id != r.id)
  {
    var all := routes + [r];
    assert all[|routes|] == r && forall j | 0 <= j < |routes| :: all[j] == routes[j];
  }

  lemma FirstBeforeStays(routes: seq<Route>, r: Route, a: Route, b: Route)
    requires FirstBefore(routes, a, b)
    ensures FirstBefore(routes + [r], a, b)
  {
    var i, j :| i < j && FirstAt(routes, i, a) && FirstAt(routes, j, b);
    FirstAtOne(routes, r, i, a);
    FirstAtOne(routes, r, j, b);
  }

  lemma FirstBeforeLast(routes: seq<Route>, r: Route, i: int, a: Route)
    requires FirstAt(routes, i, a) && forall j | 0 <= j < |routes| :: routes[j].id != r.id
    ensures FirstBefore(routes + [r], a, r)
  {
    FirstAtOne(routes, r, i, a);
    FirstAtOne(routes, r, |routes|, r);
  }

  lemma FirstsOne(routes: seq<Route>, kept: seq<Route>, r: Route)
    requires Firsts(routes, kept) && (Has(kept, r.id) <==> Has(routes, r.id))
    ensures Firsts(routes + [r], if Has(kept, r.id) then kept else kept + [r])
  {
    var all, next := routes + [r], if Has(kept, r.id) then kept else kept + [r];
    forall x ensures x in next <==> exists i :: FirstAt(all, i, x) {
      if i :| FirstAt(all, i, x) { FirstAtOne(routes, r, i, x); }
      if i :| FirstAt(routes, i, x) { FirstAtOne(routes, r, i, x); }
      if x == r { FirstAtOne(routes, r, |routes|, r); }
    }
    forall a, b | 0 <= a < b < |next| ensures FirstBefore(all, next[a], next[b]) {
      if b < |kept| {
        FirstBeforeStays(routes, r, kept[a], kept[b]);
      } else {
        assert kept[a] in kept;
        var i :| FirstAt(routes, i, kept[a]);
        FirstBeforeLast(routes, r, i, kept[a]);
      }
    }
  }

  lemma {:induction false} KeepFirstKeepsFirsts(routes: seq<Route>)
    ensures Firsts(routes, KeepFirst(routes)) && forall id :: Has(KeepFirst(routes), id) <==> Has(routes, id)
  {
    if routes != [] {
      var init, r := routes[..|routes| - 1], routes[|routes| - 1];
      assert routes == init + [r];
      KeepFirstKeepsFirsts(init);
      FirstsOne(init, KeepFirst(init), r);
      HasSnoc(init, r);
      HasSnoc(KeepFirst(init), r);
    }
  }

  /** Merging keeps every current route in place and every id once. */
  lemma {:induction false} MergeKeepsCurrent(current: seq<Route>, snapshot: seq<Route>)
    requires UniqueIds(current)
    ensures var merged := KeepFirst(current + snapshot);
            && |merged| >= |current| && merged[..|current|] == current && UniqueIds(merged)
            && forall id :: Has(merged, id) <==> Has(current, id) || Has(snapshot, id)
  {
    if snapshot != [] {
      var n := |snapshot| - 1;
      assert (current + snapshot)[..|current + snapshot| - 1] == current + snapshot[..n];
      MergeKeepsCurrent(current, snapshot[..n]);
      HasSnoc(KeepFirst(current + snapshot[..n]), snapshot[n]);
      HasSnoc(snapshot[..n], snapshot[n]);
      assert snapshot[..n] + [snapshot[n]] == snapshot;
    } else {
      assert current + snapshot == current;
      KeepsAll(current);
    }
  }

  lemma {:induction false} KeepsAll(routes: seq<Route>)
    requires UniqueIds(routes)
    ensures KeepFirst(routes) == routes
  {
    if routes != [] {
      KeepsAll(routes[..|routes| - 1]);
      assert routes == routes[..|routes| - 1] + [routes[|routes| - 1]];
    }
  }

  function Hydrated(t: Table, snapshot: seq<Route>): Table {
    var routes := KeepFirst(t.routes + snapshot);
    var topologyChanged := |routes| != |t.routes|;
    Table(routes, if topologyChanged then IndexRoutes(routes) else t.index,
          Max(t.maxCount, MaxRoutePacketCount(routes)))
  }

  method HydrateSnapshotTopology(t: Table, snapshot: seq<Route>) returns (r: Table)
    ensures r == Hydrated(t, snapshot)
  {
    var routes := MergeCurrentEntities(t.routes, snapshot);
    var topologyChanged := |routes| != |t.routes|;
    var index := t.index;
    if topologyChanged { index := IndexRoutes(routes); }
    r := Table(routes, index, Max(t.maxCount, MaxRoutePacketCount(routes)));
  }

  /** Hydration may keep the old index, because merging leaves current positions alone. */
  lemma HydrationKeepsValid(t: Table, snapshot: seq<Route>)
    requires Valid(t)
    ensures Valid(Hydrated(t, snapshot)) && t.routes <= Hydrated(t, snapshot).routes
    ensures Tops(Hydrated(t, snapshot).maxCount, t.maxCount, Hydrated(t, snapshot).routes)
    ensures forall id :: Has(Hydrated(t, snapshot).routes, id) <==> Has(t.routes, id) || Has(snapshot, id)
  {
    MergeKeepsCurrent(t.routes, snapshot);
    var routes := KeepFirst(t.routes + snapshot);
    HighestCounts(routes);
    UniqueIsIndexed(routes);
    if |routes| == |t.routes| { assert routes == routes[..|t.routes|]; }
  }

  // ---------------------------------------------------------------------------
  // Live envelopes
  // ---------------------------------------------------------------------------

  datatype Message<O> =
    | PulseMessage(pulse: Pulse, seqNo: int, latestSeq: Option<int>)
    | OtherEvent(body: O, seqNo: int, latestSeq: Option<int>)
    | Control(seqNo: int, latestSeq: Option<int>)

  /** rest stands for the nodes, activities, traces and statistics. */
  datatype App<R> = App(table: Table, pulses: seq<Pulse>, seen: seq<int>, latestSeq: int, rest: R)

  /** What the reducer does with the rest of the state, and whether pulses are animated. */
  datatype Env<!R, !O> = Env(animate: bool, onPulse: (R, Pulse) -> R, onOther: (R, O) -> R)

  datatype Loop<R> = Loop(app: App<R>, ids: set<string>, accepted: seq<Pulse>)

  function Last<T>(s: seq<T>, n: nat): seq<T> { if |s| > n then s[|s| - n..] else s }

  function FirstOf<T>(s: seq<T>, n: nat): seq<T> { if |s| > n then s[..n] else s }

  function WithLatestSeq<R>(a: App<R>, n: int): App<R> { if n == 0 || n <= a.latestSeq then a else a.(latestSeq := n) }

  function RememberSeq<R>(a: App<R>, n: int): App<R> {
    if n <= 0 || n in a.seen then a else a.(seen := Last(a.seen + [n], 1000))
  }

  function Target<O>(m: Message<O>): int { if m.latestSeq.Some? then m.latestSeq.value else m.seqNo }

  function Mark<R, O>(a: App<R>, m: Message<O>): App<R> { RememberSeq(WithLatestSeq(a, Target(m)), m.seqNo) }

  function PulseIds(pulses: seq<Pulse>): set<string> { set i | 0 <= i < |pulses| :: pulses[i].id }

  /** The reducer's loop over one message: everything but the routes. */
  function Take<R, O>(env: Env<R, O>, l: Loop<R>, m: Message<O>): Loop<R> {
    match m
    case Control(_, _) => l.(app := WithLatestSeq(l.app, Target(m)))
    case OtherEvent(body, n, _) =>
      if n != 0 && n in l.app.seen then l.(app := WithLatestSeq(l.app, Target(m)))
      else l.(app := Mark(l.app.(rest := env.onOther(l.app.rest, body)), m))
    case PulseMessage(pulse, n, _) =>
      if n != 0 && n in l.app.seen then l.(app := WithLatestSeq(l.app, Target(m)))
      else if pulse.id in l.ids then l.(app := Mark(l.app, m))
      else
        var pulses := if env.animate then FirstOf([pulse] + l.app.pulses, 2000) else l.app.pulses;
        Loop(Mark(l.app.(pulses := pulses, rest := env.onPulse(l.app.rest, pulse)), m),
             l.ids + {pulse.id}, l.accepted + [pulse])
  }

  function TakeAll<R, O>(env: Env<R, O>, app: App<R>, messages: seq<Message<O>>): Loop<R> {
    if messages == [] then Loop(app, PulseIds(app.pulses), [])
    else Take(env, TakeAll(env, app, messages[..|messages| - 1]), messages[|messages| - 1])
  }

  /** A batch: the loop, then all accepted pulses into the routes at once. */
  function Batch<R, O>(env: Env<R, O>, app: App<R>, messages: seq<Message<O>>): App<R> {
    var l := TakeAll(env, app, messages);
    l.app.(table := TouchAll(l.app.table, AllHits(l.accepted)))
  }

  // ---------------------------------------------------------------------------
  // What a batch applies
  // ---------------------------------------------------------------------------

  /** The numbers remembered after the first n messages: every new positive number of an event goes
      to the end, beyond a thousand the oldest go. */
  function Remembered<O>(seen: seq<int>, messages: seq<Message<O>>, n: nat): seq<int>
    requires n <= |messages|
  {
    if n == 0 then seen
    else
      var before, m := Remembered(seen, messages, n - 1), messages[n - 1];
      if m.Control? || m.seqNo <= 0 || m.seqNo in before then before
      else if |before| < 1000 then before + [m.seqNo]
      else before[|before| - 999..] + [m.seqNo]
  }

  /** Message i is an event whose number, if it has one, is not remembered when its turn comes. */
  predicate IsNews<O>(seen: seq<int>, messages: seq<Message<O>>, i: nat)
    requires i < |messages|
  {
    !messages[i].Control? && (messages[i].seqNo == 0 || messages[i].seqNo !in Remembered(seen, messages, i))
  }

  predicate NewsOf<O>(seen: seq<int>, messages: seq<Message<O>>, i: nat, id: string)
    requires i < |messages|
  {
    messages[i].PulseMessage? && messages[i].pulse.id == id && IsNews(seen, messages, i)
  }

  /** ... and brings a pulse that neither the state nor an earlier one had. */
  predicate Brings<R, O>(app: App<R>, messages: seq<Message<O>>, i: nat)
    requires i < |messages|
  {
    && messages[i].PulseMessage? && IsNews(app.seen, messages, i)
    && (forall k | 0 <= k < |app.pulses| :: app.pulses[k].id != messages[i].pulse.id)
    && (forall j: nat | j < i :: !NewsOf(app.seen, messages, j, messages[i].pulse.id))
  }

  /** The pulses the first n messages bring. */
  function Brought<R, O>(app: App<R>, messages: seq<Message<O>>, n: nat): seq<Pulse>
    requires n <= |messages|
  {
    if n == 0 then []
    else
      var before := Brought(app, messages, n - 1);
      if Brings(app, messages, n - 1) then before + [messages[n - 1].pulse] else before
  }

  /** The effects of the first n messages on the rest of the state: those of new pulses and of other
      events with news, in order. */
  function Applied<R, O>(env: Env<R, O>, app: App<R>, messages: seq<Message<O>>, n: nat): R
    requires n <= |messages|
  {
    if n == 0 then app.rest
    else
      var before, m := Applied(env, app, messages, n - 1), messages[n - 1];
      if Brings(app, messages, n - 1) then env.onPulse(before, m.pulse)
      else if m.OtherEvent? && IsNews(app.seen, messages, n - 1) then env.onOther(before, m.body)
      else before
  }

  /** The newest pulses come first, at most two thousand once one is added. */
  predicate Animated(before: seq<Pulse>, brought: seq<Pulse>, after: seq<Pulse>) {
    if brought == [] then after == before
    else
      && |after| == Min(|brought| + |before|, 2000)
      && forall i | 0 <= i < |after| ::
           after[i] == if i < |brought| then brought[|brought| - 1 - i] else before[i - |brought|]
  }

  /** What a message says is the latest number. */
  predicate Announces<O>(m: Message<O>, n: int) {
    n == (match m.latestSeq case Some(latest) => latest case None => m.seqNo)
  }

  /** The latest number is the highest announced by the first n messages, or the old one. */
  ghost predicate Raised<O>(before: int, messages: seq<Message<O>>, n: nat, after: int)
    requires n <= |messages|
  {
    && before <= after && (forall i, k | 0 <= i < n && Announces(messages[i], k) && k != 0 :: k <= after)
    && (after == before || exists i :: 0 <= i < n && Announces(messages[i], after))
  }

  /** after is what the first n messages make of app, but for the table. */
  ghost predicate Applies<R, O>(env: Env<R, O>, app: App<R>, messages: seq<Message<O>>, n: nat, after: App<R>)
    requires n <= |messages|
  {
    && after.seen == Remembered(app.seen, messages, n) && after.rest == Applied(env, app, messages, n)
    && Raised(app.latestSeq, messages, n, after.latestSeq)
    && if env.animate then Animated(app.pulses, Brought(app, messages, n), after.pulses) else after.pulses == app.pulses
  }

  /** The ids the loop knows are those of the state and of the pulses that were news. */
  ghost predicate Knows<R, O>(app: App<R>, messages: seq<Message<O>>, n: nat, ids: set<string>)
    requires n <= |messages|
  {
    forall id :: id in ids <==>
      id in PulseIds(app.pulses) || exists j: nat :: j < n && NewsOf(app.seen, messages, j, id)
  }

  ghost predicate LoopAt<R, O>(env: Env<R, O>, app: App<R>, messages: seq<Message<O>>, n: nat, l: Loop<R>)
    requires n <= |messages|
  {
    && Applies(env, app, messages, n, l.app) && Knows(app, messages, n, l.ids)
    && l.accepted == Brought(app, messages, n) && l.app.table == app.table
  }

  lemma KnownBrings<R, O>(app: App<R>, messages: seq<Message<O>>, n: nat, ids: set<string>)
    requires n < |messages| && messages[n].PulseMessage? && Knows(app, messages, n, ids)
    requires IsNews(app.seen, messages, n)
    ensures Brings(app, messages, n) <==> messages[n].pulse.id !in ids
  {
    var id := messages[n].pulse.id;
    assert id in PulseIds(app.pulses) <==> exists k :: 0 <= k < |app.pulses| && app.pulses[k].id == id;
  }

  lemma KnowsOne<R, O>(app: App<R>, messages: seq<Message<O>>, n: nat, ids: set<string>)
    requires n < |messages| && Knows(app, messages, n, ids)
    ensures Knows(app, messages, n + 1, if messages[n].PulseMessage? && IsNews(app.seen, messages, n)
                                        then ids + {messages[n].pulse.id} else ids)
  {
    var m := messages[n];
    var next := if m.PulseMessage? && IsNews(app.seen, messages, n) then ids + {m.pulse.id} else ids;
    forall id
      ensures id in next <==>
              id in PulseIds(app.pulses) || exists j: nat :: j < n + 1 && NewsOf(app.seen, messages, j, id)
    {
      assert NewsOf(app.seen, messages, n, id) <==>
             m.PulseMessage? && IsNews(app.seen, messages, n) && id == m.pulse.id;
    }
  }

  lemma RaisedOne<R, O>(a: App<R>, before: int, messages: seq<Message<O>>, n: nat)
    requires n < |messages| && Raised(before, messages, n, a.latestSeq)
    ensures Raised(before, messages, n + 1, WithLatestSeq(a, Target(messages[n])).latestSeq)
  {
    var t := Target(messages[n]);
    assert Announces(messages[n], t);
  }

  lemma RememberedOne<R, O>(a: App<R>, seen: seq<int>, messages: seq<Message<O>>, n: nat)
    requires n < |messages| && a.seen == Remembered(seen, messages, n) && !messages[n].Control?
    ensures RememberSeq(a, messages[n].seqNo).seen == Remembered(seen, messages, n + 1)
  {
    var all := a.seen + [messages[n].seqNo];
    if |a.seen| >= 1000 { assert all[|all| - 1000..] == a.seen[|a.seen| - 999..] + [messages[n].seqNo]; }
  }

  lemma AnimatedOne(before: seq<Pulse>, brought: seq<Pulse>, after: seq<Pulse>, p: Pulse)
    requires Animated(before, brought, after)
    ensures Animated(before, brought + [p], FirstOf([p] + after, 2000))
  {
  }

  lemma LoopOne<R, O>(env: Env<R, O>, app: App<R>, messages: seq<Message<O>>, n: nat, l: Loop<R>)
    requires n < |messages| && LoopAt(env, app, messages, n, l)
    ensures LoopAt(env, app, messages, n + 1, Take(env, l, messages[n]))
  {
    var m := messages[n];
    KnowsOne(app, messages, n, l.ids);
    RaisedOne(l.app, app.latestSeq, messages, n);
    if !m.Control? { RememberedOne(l.app, app.seen, messages, n); }
    if m.PulseMessage? && IsNews(app.seen, messages, n) {
      KnownBrings(app, messages, n, l.ids);
      if m.pulse.id in l.ids {
        assert l.ids + {m.pulse.id} == l.ids;
      } else if env.animate {
        AnimatedOne(app.pulses, l.accepted, l.app.pulses, m.pulse);
      }
    }
  }

  lemma {:induction false} LoopMeans<R, O>(env: Env<R, O>, app: App<R>, messages: seq<Message<O>>, n: nat)
    requires n <= |messages|
    ensures LoopAt(env, app, messages, n, TakeAll(env, app, messages[..n]))
  {
    if n > 0 {
      LoopMeans(env, app, messages, n - 1);
      LoopOne(env, app, messages, n - 1, TakeAll(env, app, messages[..n - 1]));
      assert messages[..n][..n - 1] == messages[..n - 1];
    }
  }

  /** What a batch does, told from the messages alone. */
  ghost predicate Effects<R, O>(env: Env<R, O>, app: App<R>, messages: seq<Message<O>>, after: App<R>) {
    && Applies(env, app, messages, |messages|, after)
    && RouteTotals.HitsAdded(app.table, AllHits(Brought(app, messages, |messages|)), after.table)
  }

  lemma BatchEffects<R, O>(env: Env<R, O>, app: App<R>, messages: seq<Message<O>>)
    requires Valid(app.table)
    ensures Effects(env, app, messages, Batch(env, app, messages))
  {
    LoopMeans(env, app, messages, |messages|);
    assert messages[..|messages|] == messages;
    RouteTotals.TouchAllAdds(app.table, AllHits(Brought(app, messages, |messages|)));
  }

  method ApplyPublicEnvelopes<R, O>(env: Env<R, O>, app: App<R>, messages: seq<Message<O>>) returns (r: App<R>)
    requires Valid(app.table)
    ensures r == Batch(env, app, messages)
  {
    var l := Loop(app, PulseIds(app.pulses), []);
    for i := 0 to |messages|
      invariant l == TakeAll(env, app, messages[..i]) && l.app.table == app.table
    {
      assert messages[..i + 1][..i] == messages[..i];
      l := Take(env, l, messages[i]);
    }
    assert messages[..|messages|] == messages;
    if |l.accepted| == 0 { return l.app; }
    var table := UpsertPulseRoutesBatch(l.app.table, l.accepted);
    r := l.app.(table := table);
  }

  /** A numbered event under a number already remembered changes nothing but the latest number. */
  lemma RepeatsAreIgnored<R, O>(env: Env<R, O>, app: App<R>, m: Message<O>)
    requires !m.Control? && m.seqNo != 0 && m.seqNo in app.seen
    ensures var after := Batch(env, app, [m]);
            after == app.(latestSeq := after.latestSeq) && app.latestSeq <= after.latestSeq
  {
    LoopMeans(env, app, [m], 1);
    assert [m][..1] == [m] && Remembered(app.seen, [m], 0) == app.seen;
    assert !IsNews(app.seen, [m], 0) && !Brings(app, [m], 0);
    assert Brought(app, [m], 1) == Brought(app, [m], 0) == [] && AllHits([]) == [];
    assert Applied(env, app, [m], 1) == Applied(env, app, [m], 0) == app.rest;
    assert TakeAll(env, app, [m]).accepted == [] && TouchAll(app.table, []) == app.table;
  }

  /** A number that was news is remembered while at most a thousand messages follow. */
  lemma {:induction false} StaysRemembered<O>(seen: seq<int>, messages: seq<Message<O>>, i: nat, n: nat)
    returns (k: nat)
    requires i < n <= |messages| && n - i <= 1000 && messages[i].seqNo > 0 && IsNews(seen, messages, i)
    ensures var after := Remembered(seen, messages, n);
            k < |after| && after[k] == messages[i].seqNo && |after| - k <= n - i
  {
    var after := Remembered(seen, messages, n);
    if n == i + 1 {
      k := |after| - 1;
    } else {
      var before := Remembered(seen, messages, n - 1);
      k := StaysRemembered(seen, messages, i, n - 1);
      if after != before && |before| >= 1000 { k := k - (|before| - 999); }
    }
  }

  /** So no number is applied twice within a thousand messages. */
  lemma NumbersApplyOnce<O>(seen: seq<int>, messages: seq<Message<O>>, i: nat, j: nat)
    requires i < j < |messages| && messages[i].seqNo == messages[j].seqNo > 0
    requires IsNews(seen, messages, i) && IsNews(seen, messages, j)
    ensures j - i > 1000
  {
    if j - i <= 1000 { var k := StaysRemembered(seen, messages, i, j); }
  }

  function OneByOne<R, O>(env: Env<R, O>, app: App<R>, messages: seq<Message<O>>): App<R> {
    if messages == [] then app
    else Batch(env, OneByOne(env, app, messages[..|messages| - 1]), [messages[|messages| - 1]])
  }

  // ---------------------------------------------------------------------------
  // A batch is the same as one at a time
  // ---------------------------------------------------------------------------

  lemma {:induction false} TouchAllConcat(t: Table, a: seq<Hit>, b: seq<Hit>)
    ensures TouchAll(t, a + b) == TouchAll(TouchAll(t, a), b)
  {
    if b == [] {
      assert a + b == a;
    } else {
      var n := |b| - 1;
      assert (a + b)[..|a + b| - 1] == a + b[..n];
      TouchAllConcat(t, a, b[..n]);
    }
  }

  lemma {:induction false} AllHitsConcat(a: seq<Pulse>, b: seq<Pulse>)
    ensures AllHits(a + b) == AllHits(a) + AllHits(b)
  {
    if b == [] {
      assert a + b == a;
    } else {
      var init, p := b[..|b| - 1], b[|b| - 1];
      assert a + b == (a + init) + [p] && b == init + [p];
      AllHitsConcat(a, init);
    }
  }

  /** The ids of the pulses a batch carries. */
  function Carried<O>(messages: seq<Message<O>>): seq<string> {
    if messages == [] then []
    else
      var init, last := Carried(messages[..|messages| - 1]), messages[|messages| - 1];
      if last.PulseMessage? then init + [last.pulse.id] else init
  }

  ghost predicate NewPulses<R, O>(app: App<R>, messages: seq<Message<O>>) {
    && Distinct(Carried(messages))
    && forall id | id in Carried(messages) :: id !in PulseIds(app.pulses)
  }

  /** The loop looks at the table nowhere, and at the ids only for the message's own pulse. */
  lemma TakeIgnores<R, O>(env: Env<R, O>, l: Loop<R>, k: Loop<R>, m: Message<O>)
    requires k.app == l.app.(table := k.app.table)
    requires m.PulseMessage? ==> (m.pulse.id in l.ids <==> m.pulse.id in k.ids)
    ensures var a, b := Take(env, l, m), Take(env, k, m);
            && b.app == a.app.(table := k.app.table) && a.app.table == l.app.table
            && exists more :: a.accepted == l.accepted + more && b.accepted == k.accepted + more
  {
    var a, b := Take(env, l, m), Take(env, k, m);
    if a.accepted == l.accepted {
      assert a.accepted == l.accepted + [] && b.accepted == k.accepted + [];
    } else {
      assert a.accepted == l.accepted + [m.pulse] && b.accepted == k.accepted + [m.pulse];
    }
  }

  lemma TakeKnows<R, O>(env: Env<R, O>, l: Loop<R>, m: Message<O>, id: string)
    requires id !in l.ids && id !in PulseIds(l.app.pulses) && (m.PulseMessage? ==> m.pulse.id != id)
    ensures id !in Take(env, l, m).ids && id !in PulseIds(Take(env, l, m).app.pulses)
  {
    match m
    case PulseMessage(pulse, _, _) => NotFirstOf(pulse, l.app.pulses, id);
    case _ =>
  }

  lemma NotFirstOf(pulse: Pulse, pulses: seq<Pulse>, id: string)
    requires pulse.id != id && id !in PulseIds(pulses)
    ensures id !in PulseIds(FirstOf([pulse] + pulses, 2000))
  {
    var next := FirstOf([pulse] + pulses, 2000);
    forall i | 0 <= i < |next| ensures next[i].id != id {
      if i > 0 { assert next[i] == pulses[i - 1] && pulses[i - 1].id in PulseIds(pulses); }
    }
  }

  /** The ids known after some messages are those of the state and of the messages. */
  lemma {:induction false} KnownIds<R, O>(env: Env<R, O>, app: App<R>, messages: seq<Message<O>>, id: string)
    requires id !in Carried(messages) && id !in PulseIds(app.pulses)
    ensures var l := TakeAll(env, app, messages); id !in l.ids && id !in PulseIds(l.app.pulses)
  {
    if messages != [] {
      var init, m := messages[..|messages| - 1], messages[|messages| - 1];
      assert m.PulseMessage? ==> Carried(messages)[|Carried(init)|] == m.pulse.id;
      assert forall x | x in Carried(init) :: x in Carried(messages);
      KnownIds(env, app, init, id);
      TakeKnows(env, TakeAll(env, app, init), m, id);
    }
  }

  lemma JoinBatches<R, O>(env: Env<R, O>, app: App<R>, init: seq<Message<O>>, m: Message<O>)
    requires m.PulseMessage? ==> m.pulse.id !in Carried(init) && m.pulse.id !in PulseIds(app.pulses)
    ensures Batch(env, app, init + [m]) == Batch(env, Batch(env, app, init), [m])
  {
    var l := TakeAll(env, app, init);
    var mid := Batch(env, app, init);
    var k := Loop(mid, PulseIds(mid.pulses), []);
    if m.PulseMessage? { KnownIds(env, app, init, m.pulse.id); }
    TakeIgnores(env, l, k, m);
    var a, b := Take(env, l, m), Take(env, k, m);
    var more :| a.accepted == l.accepted + more && b.accepted == k.accepted + more;
    assert b.accepted == more;
    AllHitsConcat(l.accepted, more);
    TouchAllConcat(l.app.table, AllHits(l.accepted), AllHits(more));
    assert (init + [m])[..|init|] == init && [m][..0] == [];
    assert TakeAll(env, mid, [m]) == b;
    assert TakeAll(env, app, init + [m]) == a;
  }

  lemma CarriedSnoc<O>(init: seq<Message<O>>, m: Message<O>)
    requires Distinct(Carried(init + [m]))
    ensures Distinct(Carried(init)) && (forall id | id in Carried(init) :: id in Carried(init + [m]))
    ensures m.PulseMessage? ==> m.pulse.id !in Carried(init) && m.pulse.id in Carried(init + [m])
  {
    assert (init + [m])[..|init|] == init;
    if m.PulseMessage? {
      var all := Carried(init + [m]);
      assert all[|all| - 1] == m.pulse.id;
      forall i | 0 <= i < |Carried(init)| ensures Carried(init)[i] != m.pulse.id { assert all[i] != all[|all| - 1]; }
      forall i, j | 0 <= i < j < |Carried(init)|
        ensures Carried(init)[i] != Carried(init)[j]
      {
        assert all[i] != all[j];
      }
    }
  }

  /** Applying a batch of envelopes is applying them one at a time, when the pulses are new. */
  lemma {:induction false} BatchIsOneByOne<R, O>(env: Env<R, O>, app: App<R>, messages: seq<Message<O>>)
    requires NewPulses(app, messages)
    ensures Batch(env, app, messages) == OneByOne(env, app, messages)
  {
    if messages != [] {
      var init, m := messages[..|messages| - 1], messages[|messages| - 1];
      assert init + [m] == messages;
      CarriedSnoc(init, m);
      BatchIsOneByOne(env, app, init);
      JoinBatches(env, app, init, m);
    }
  }

  /** A message whose pulse the state has not met, by id or by number. */
  ghost predicate FreshStream<R, O>(app: App<R>, messages: seq<Message<O>>) {
    && NewPulses(app, messages)
    && (forall i | 0 <= i < |messages| ::
          messages[i].PulseMessage? && 0 < messages[i].seqNo && messages[i].seqNo !in app.seen)
    && (forall i, j | 0 <= i < j < |messages| :: messages[i].seqNo != messages[j].seqNo)
  }

  function PulsesIn<O>(messages: seq<Message<O>>): seq<Pulse> {
    if messages == [] then []
    else
      var init, last := PulsesIn(messages[..|messages| - 1]), messages[|messages| - 1];
      if last.PulseMessage? then init + [last.pulse] else init
  }

  lemma LastMembers<T>(s: seq<T>, n: nat, x: T)
    requires x in Last(s, n)
    ensures x in s
  {
  }

  lemma MarkSeen<R, O>(a: App<R>, m: Message<O>, n: int)
    requires n !in a.seen && m.seqNo != n
    ensures n !in Mark(a, m).seen
  {
    var all := a.seen + [m.seqNo];
    if n in Last(all, 1000) { LastMembers(all, 1000, n); }
  }

  lemma TakeSeen<R, O>(env: Env<R, O>, l: Loop<R>, m: Message<O>, n: int)
    requires n !in l.app.seen && m.seqNo != n
    ensures n !in Take(env, l, m).app.seen
  {
    match m
    case Control(_, _) =>
    case OtherEvent(body, _, _) => MarkSeen(l.app.(rest := env.onOther(l.app.rest, body)), m, n);
    case PulseMessage(pulse, _, _) =>
      var pulses := if env.animate then FirstOf([pulse] + l.app.pulses, 2000) else l.app.pulses;
      MarkSeen(l.app, m, n);
      MarkSeen(l.app.(pulses := pulses, rest := env.onPulse(l.app.rest, pulse)), m, n);
  }

  lemma {:induction false} SeenSoFar<R, O>(env: Env<R, O>, app: App<R>, messages: seq<Message<O>>, n: int)
    requires n !in app.seen && forall i | 0 <= i < |messages| :: messages[i].seqNo != n
    ensures n !in TakeAll(env, app, messages).app.seen
  {
    if messages != [] {
      var init, m := messages[..|messages| - 1], messages[|messages| - 1];
      SeenSoFar(env, app, init, n);
      TakeSeen(env, TakeAll(env, app, init), m, n);
    }
  }

  /** Of a fresh stream every pulse is accepted, in order. */
  lemma {:induction false} AcceptsAll<R, O>(env: Env<R, O>, app: App<R>, messages: seq<Message<O>>)
    requires FreshStream(app, messages)
    ensures TakeAll(env, app, messages).accepted == PulsesIn(messages)
  {
    if messages != [] {
      var init, m := messages[..|messages| - 1], messages[|messages| - 1];
      assert init + [m] == messages;
      CarriedSnoc(init, m);
      AcceptsAll(env, app, init);
      SeenSoFar(env, app, init, m.seqNo);
      KnownIds(env, app, init, m.pulse.id);
    }
  }

  // Without animation the state remembers no pulse, so the exact condition can be told.

  /** Applied alone, the message's pulse is new to the state. */
  predicate AcceptedAlone<O>(seen: seq<int>, ids: set<string>, m: Message<O>) {
    m.PulseMessage? && !(m.seqNo != 0 && m.seqNo in seen) && m.pulse.id !in ids
  }

  /** The pulses accepted one message at a time. */
  function Singles<R, O>(env: Env<R, O>, app: App<R>, messages: seq<Message<O>>): seq<Pulse> {
    if messages == [] then []
    else
      var init, m := messages[..|messages| - 1], messages[|messages| - 1];
      var before := Singles(env, app, init);
      if AcceptedAlone(TakeAll(env, app, init).app.seen, PulseIds(app.pulses), m) then before + [m.pulse] else before
  }

  /** The pulses that come again in the batch, under a number not seen before. */
  function Again<R, O>(env: Env<R, O>, app: App<R>, messages: seq<Message<O>>): seq<Pulse> {
    if messages == [] then []
    else
      var init, m := messages[..|messages| - 1], messages[|messages| - 1];
      var before, l := Again(env, app, init), TakeAll(env, app, init);
      if AcceptedAlone(l.app.seen, PulseIds(app.pulses), m) && m.pulse.id in l.ids then before + [m.pulse] else before
  }

  lemma StillTake<R, O>(env: Env<R, O>, l: Loop<R>, k: Loop<R>, m: Message<O>)
    requires !env.animate && k.app.seen == l.app.seen
    ensures Take(env, l, m).app.pulses == l.app.pulses && Take(env, l, m).app.table == l.app.table
    ensures Take(env, k, m).app.seen == Take(env, l, m).app.seen && l.ids <= Take(env, l, m).ids
    ensures Take(env, l, m).accepted ==
            if AcceptedAlone(l.app.seen, l.ids, m) then l.accepted + [m.pulse] else l.accepted
  {
  }

  lemma {:induction false} StillTakeAll<R, O>(env: Env<R, O>, app: App<R>, messages: seq<Message<O>>)
    requires !env.animate
    ensures var l := TakeAll(env, app, messages); l.app.table == app.table && PulseIds(app.pulses) <= l.ids
  {
    if messages != [] {
      var init := messages[..|messages| - 1];
      StillTakeAll(env, app, init);
      var l := TakeAll(env, app, init);
      StillTake(env, l, l, messages[|messages| - 1]);
    }
  }

  lemma OneMessage<R, O>(env: Env<R, O>, app: App<R>, m: Message<O>)
    requires !env.animate
    ensures var after, l := Batch(env, app, [m]), Loop(app, PulseIds(app.pulses), []);
            && after.pulses == app.pulses && after.seen == Take(env, l, m).app.seen
            && after.table == TouchAll(app.table, if AcceptedAlone(app.seen, l.ids, m) then AllHits([m.pulse]) else [])
  {
    var l := Loop(app, PulseIds(app.pulses), []);
    StillTake(env, l, l, m);
    assert [m][..0] == [] && TakeAll(env, app, [m]) == Take(env, l, m);
    if AcceptedAlone(app.seen, l.ids, m) { assert l.accepted + [m.pulse] == [m.pulse]; }
  }

  lemma AllHitsSnoc(pulses: seq<Pulse>, p: Pulse)
    ensures AllHits(pulses + [p]) == AllHits(pulses) + AllHits([p])
  {
    AllHitsConcat(pulses, [p]);
  }

  /** One message at a time comes to the hits of the pulses accepted alone. */
  lemma {:induction false} OneByOneTouches<R, O>(env: Env<R, O>, app: App<R>, messages: seq<Message<O>>)
    requires !env.animate
    ensures var after := OneByOne(env, app, messages);
            && after.pulses == app.pulses && after.seen == TakeAll(env, app, messages).app.seen
            && after.table == TouchAll(app.table, AllHits(Singles(env, app, messages)))
  {
    if messages != [] {
      var init, m := messages[..|messages| - 1], messages[|messages| - 1];
      OneByOneTouches(env, app, init);
      var before, l := OneByOne(env, app, init), TakeAll(env, app, init);
      OneMessage(env, before, m);
      StillTake(env, l, Loop(before, PulseIds(before.pulses), []), m);
      if AcceptedAlone(l.app.seen, PulseIds(app.pulses), m) {
        AllHitsSnoc(Singles(env, app, init), m.pulse);
        TouchAllConcat(app.table, AllHits(Singles(env, app, init)), AllHits([m.pulse]));
      }
    }
  }

  /** The pulses accepted alone are those the batch accepts and those that come again. */
  lemma {:induction false} SinglesSplit<R, O>(env: Env<R, O>, app: App<R>, messages: seq<Message<O>>)
    requires !env.animate
    ensures var all, once, again :=
              AllHits(Singles(env, app, messages)), AllHits(TakeAll(env, app, messages).accepted),
              AllHits(Again(env, app, messages));
            |all| == |once| + |again| && (again == [] ==> all == once)
  {
    if messages != [] {
      var init, m := messages[..|messages| - 1], messages[|messages| - 1];
      SinglesSplit(env, app, init);
      StillTakeAll(env, app, init);
      var l := TakeAll(env, app, init);
      StillTake(env, l, l, m);
      if AcceptedAlone(l.app.seen, PulseIds(app.pulses), m) {
        AllHitsSnoc(Singles(env, app, init), m.pulse);
        AllHitsSnoc(l.accepted, m.pulse);
        AllHitsSnoc(Again(env, app, init), m.pulse);
      }
    }
  }

  lemma {:induction false} NoHitsIff(pulses: seq<Pulse>)
    ensures AllHits(pulses) == [] <==> forall p | p in pulses :: p.segments == []
  {
    if pulses != [] {
      var init, last := pulses[..|pulses| - 1], pulses[|pulses| - 1];
      assert pulses == init + [last];
      NoHitsIff(init);
      HitsLength(last, last.segments);
    }
  }

  /** Without animation, a batch leaves the table that one message at a time leaves if and only if
      every pulse that comes again in it, under a number not seen before, passes over no route. */
  lemma BatchIsOneByOneIff<R, O>(env: Env<R, O>, app: App<R>, messages: seq<Message<O>>)
    requires !env.animate && Valid(app.table)
    ensures Batch(env, app, messages).table == OneByOne(env, app, messages).table <==>
            forall p | p in Again(env, app, messages) :: p.segments == []
  {
    var all, once := AllHits(Singles(env, app, messages)), AllHits(TakeAll(env, app, messages).accepted);
    StillTakeAll(env, app, messages);
    OneByOneTouches(env, app, messages);
    SinglesSplit(env, app, messages);
    NoHitsIff(Again(env, app, messages));
    TouchAllCounts(app.table, all);
    TouchAllCounts(app.table, once);
  }

  function Numbered<O>(p: Pulse, n: int): Message<O> { PulseMessage(p, n, None) }

  lemma OnePulse<R, O>(env: Env<R, O>, app: App<R>, p: Pulse, n: int)
    requires !env.animate && p.id !in PulseIds(app.pulses) && 0 < n && n !in app.seen
    ensures var l := TakeAll(env, app, [Numbered<O>(p, n)]);
            l.app.table == app.table && l.app.pulses == app.pulses && l.app.seen == Last(app.seen + [n], 1000)
            && l.accepted == [p] && p.id in l.ids
  {
    assert [Numbered<O>(p, n)][..0] == [];
    assert TakeAll(env, app, [Numbered<O>(p, n)]) == Take(env, TakeAll(env, app, []), Numbered(p, n));
  }

  /** Newness is needed: recovery does not remember pulses, so a pulse that comes twice under two
      sequence numbers counts once within a batch and twice one at a time. */
  lemma RepeatedPulse<R, O>(env: Env<R, O>, app: App<R>, p: Pulse, a: int, b: int)
    requires !env.animate && p.id !in PulseIds(app.pulses) && 0 < a < b && a !in app.seen && b !in app.seen
    ensures var messages := [Numbered<O>(p, a), Numbered<O>(p, b)];
            && Batch(env, app, messages).table == TouchAll(app.table, AllHits([p]))
            && OneByOne(env, app, messages).table == TouchAll(app.table, AllHits([p]) + AllHits([p]))
  {
    OnePulse(env, app, p, a);
    BothInOneBatch(env, app, p, a, b);
    BothOneByOne(env, app, p, a, b);
  }

  /** For such a pulse the two agree exactly when it passes over no route. */
  lemma RepeatedPulseIff<R, O>(env: Env<R, O>, app: App<R>, p: Pulse, a: int, b: int)
    requires !env.animate && p.id !in PulseIds(app.pulses) && 0 < a < b && a !in app.seen && b !in app.seen
    requires Valid(app.table)
    ensures var messages := [Numbered<O>(p, a), Numbered<O>(p, b)];
            Batch(env, app, messages).table == OneByOne(env, app, messages).table <==> p.segments == []
  {
    var hits := AllHits([p]);
    RepeatedPulse(env, app, p, a, b);
    HitCount(p);
    TouchAllCounts(app.table, hits);
    TouchAllCounts(app.table, hits + hits);
    if hits == [] { assert hits + hits == hits; }
  }

  lemma HitCount(p: Pulse)
    ensures |AllHits([p])| == |p.segments|
  {
    assert [p][..0] == [];
    HitsLength(p, p.segments);
  }

  lemma {:induction false} HitsLength(p: Pulse, segments: seq<Segment>)
    ensures |HitsOf(p, segments)| == |segments|
  {
    if segments != [] { HitsLength(p, segments[..|segments| - 1]); }
  }

  lemma BothInOneBatch<R, O>(env: Env<R, O>, app: App<R>, p: Pulse, a: int, b: int)
    requires var l := TakeAll(env, app, [Numbered<O>(p, a)]);
             l.app.table == app.table && l.accepted == [p] && p.id in l.ids && b !in l.app.seen
    ensures Batch(env, app, [Numbered<O>(p, a), Numbered<O>(p, b)]).table == TouchAll(app.table, AllHits([p]))
  {
    var m, n := Numbered<O>(p, a), Numbered<O>(p, b);
    assert [m, n][..1] == [m];
    assert TakeAll(env, app, [m, n]) == Take(env, TakeAll(env, app, [m]), n);
  }

  lemma BothOneByOne<R, O>(env: Env<R, O>, app: App<R>, p: Pulse, a: int, b: int)
    requires !env.animate && p.id !in PulseIds(app.pulses) && 0 < a < b
    requires var l := TakeAll(env, app, [Numbered<O>(p, a)]);
             l.app.table == app.table && l.app.pulses == app.pulses && l.accepted == [p] && b !in l.app.seen
    ensures OneByOne(env, app, [Numbered<O>(p, a), Numbered<O>(p, b)]).table ==
            TouchAll(app.table, AllHits([p]) + AllHits([p]))
  {
    var m, n := Numbered<O>(p, a), Numbered<O>(p, b);
    var once := Batch(env, app, [m]);
    assert [m, n][..1] == [m] && [m][..0] == [];
    assert OneByOne(env, app, [m]) == Batch(env, OneByOne(env, app, []), [m]) == once;
    assert OneByOne(env, app, [m, n]) == Batch(env, once, [n]);
    OnePulse(env, once, p, b);
    TouchAllConcat(app.table, AllHits([p]), AllHits([p]));
  }

  // ---------------------------------------------------------------------------
  // Every reachable table
  // ---------------------------------------------------------------------------

  datatype Step<O> =
    | Load(routes: seq<Route>, latestSeq: int)
    | Hydrate(routes: seq<Route>, latestSeq: int)
    | Live(animate: bool, messages: seq<Message<O>>)

  function Do<R, O>(env: Env<R, O>, app: App<R>, step: Step<O>, rest: R): App<R> {
    match step
    case Load(routes, n) => App(Snapshot(routes), [], [], n, rest)
    case Hydrate(routes, n) =>
      app.(table := Hydrated(app.table, routes), latestSeq := Max(app.latestSeq, n), rest := rest)
    case Live(animate, messages) => Batch(env.(animate := animate), app, messages)
  }

  ghost predicate Run<R, O>(env: Env<R, O>, states: seq<App<R>>, steps: seq<Step<O>>) {
    && |states| == |steps| + 1
    && forall i | 0 <= i < |steps| ::
         && states[i + 1] == Do(env, states[i], steps[i], states[i + 1].rest)
         && (steps[i].Load? ==> UniqueIds(steps[i].routes))
  }

  lemma {:induction false} TakeAllKeepsTable<R, O>(env: Env<R, O>, app: App<R>, messages: seq<Message<O>>)
    ensures TakeAll(env, app, messages).app.table == app.table
  {
    if messages != [] { TakeAllKeepsTable(env, app, messages[..|messages| - 1]); }
  }

  lemma StepKeepsValid<R, O>(env: Env<R, O>, s: App<R>, step: Step<O>, rest: R)
    requires Valid(s.table) && (step.Load? ==> UniqueIds(step.routes))
    ensures Valid(Do(env, s, step, rest).table)
  {
    match step
    case Load(routes, _) => SnapshotValidIff(routes);
    case Hydrate(routes, _) => HydrationKeepsValid(s.table, routes);
    case Live(animate, messages) =>
      var l := TakeAll(env.(animate := animate), s, messages);
      TakeAllKeepsTable(env.(animate := animate), s, messages);
      TouchAllCounts(s.table, AllHits(l.accepted));
  }

  /** Through snapshots with unique ids, hydration, live batches and recovery, the index is the
      exact inverse of the routes, ids are unique and the stored maximum bounds every count. */
  lemma {:induction false} RunKeepsValid<R, O>(env: Env<R, O>, states: seq<App<R>>, steps: seq<Step<O>>, k: nat)
    requires Run(env, states, steps) && Valid(states[0].table) && k < |states|
    ensures Valid(states[k].table) && UniqueIds(states[k].table.routes)
  {
    if k > 0 {
      RunKeepsValid(env, states, steps, k - 1);
      var s, step := states[k - 1], steps[k - 1];
      assert states[k - 1 + 1] == Do(env, s, step, states[k].rest);
      StepKeepsValid(env, s, step, states[k].rest);
    }
  }

  /** A snapshot's routes and number replace what was there; hydration adds the routes that are missing
      behind those that are there and raises the number; a live batch has its effects. */
  ghost predicate Stepped<R, O>(env: Env<R, O>, s: App<R>, step: Step<O>, t: App<R>) {
    match step
    case Load(routes, n) => t.table.routes == routes && t.latestSeq == n && t.seen == [] && t.pulses == []
    case Hydrate(routes, n) =>
      && s.table.routes <= t.table.routes
      && (forall id :: Has(t.table.routes, id) <==> Has(s.table.routes, id) || Has(routes, id))
      && s.latestSeq <= t.latestSeq && n <= t.latestSeq && (t.latestSeq == s.latestSeq || t.latestSeq == n)
      && t.seen == s.seen && t.pulses == s.pulses
    case Live(animate, messages) => Effects(env.(animate := animate), s, messages, t)
  }

  lemma RunSteps<R, O>(env: Env<R, O>, states: seq<App<R>>, steps: seq<Step<O>>, i: nat)
    requires Run(env, states, steps) && Valid(states[0].table) && i < |steps|
    ensures Stepped(env, states[i], steps[i], states[i + 1])
    ensures !steps[i].Load? ==> states[i].latestSeq <= states[i + 1].latestSeq
  {
    RunKeepsValid(env, states, steps, i);
    assert states[i + 1] == Do(env, states[i], steps[i], states[i + 1].rest);
    match steps[i]
    case Load(_, _) =>
    case Hydrate(routes, _) => HydrationKeepsValid(states[i].table, routes);
    case Live(animate, messages) => BatchEffects(env.(animate := animate), states[i], messages);
  }

  lemma {:induction false} Climbs(numbers: seq<int>, i: nat, j: nat)
    requires i <= j < |numbers| && forall k | i <= k < j :: numbers[k] <= numbers[k + 1]
    ensures numbers[i] <= numbers[j]
  {
    if i < j { Climbs(numbers, i, j - 1); }
  }

  /** No step between two snapshots lowers the latest number. */
  lemma RunKeepsNumber<R, O>(env: Env<R, O>, states: seq<App<R>>, steps: seq<Step<O>>, i: nat, j: nat)
    requires Run(env, states, steps) && Valid(states[0].table) && i <= j < |states|
    requires forall k | i <= k < j :: !steps[k].Load?
    ensures states[i].latestSeq <= states[j].latestSeq
  {
    var numbers := seq(|states|, k requires 0 <= k < |states| => states[k].latestSeq);
    forall k | i <= k < j ensures numbers[k] <= numbers[k + 1] { RunSteps(env, states, steps, k); }
    Climbs(numbers, i, j);
  }
}

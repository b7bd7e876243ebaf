/** The server's public state cache (backend/internal/live/public_cache.go): live mutations
    with a journal of their generations, and full replacement that overlays the mutations
    which raced the database read. */
module PublicCache {
  import opened Shared
  import opened Sorting

  const MAX_NODES: nat := 2500
  const MAX_ROUTES: nat := 2500
  const MAX_PULSES: nat := 240
  const MAX_ACTIVITY: nat := 240

  /** A node, activity or route pulse: its id, the time it is ranked by (last seen or heard
      at), its event sequence (0 when it has none), and its kind. */
  datatype Entry = Entry(id: string, at: int, seqNo: int, kind: string)

  datatype LiveState = LiveState(
    nodes: seq<Entry>, routes: seq<string>, activity: seq<Entry>, pulses: seq<Entry>,
    packets: int, serverTime: int, statsServerTime: int, latestSeq: int, activeNodes: int, activeRoutes: int)

  type Journal = map<string, nat>

  datatype Cache = Cache(
    live: LiveState, ready: bool, generation: nat,
    nodeJournal: Journal, activityJournal: Journal, pulseJournal: Journal, packetMutation: nat)

  function IdsOf(items: seq<Entry>): set<string> { set x | x in items :: x.id }

  function Limit<T>(items: seq<T>, limit: nat): seq<T> { items[..Min(|items|, limit)] }

  /** Generation of the last live mutation of an id, 0 when the journal has none. */
  function GenerationOf(journal: Journal, id: string): nat { if id in journal then journal[id] else 0 }

  function Without(items: seq<Entry>, id: string): seq<Entry> {
    if items == [] then [] else (if items[0].id != id then [items[0]] else []) + Without(items[1..], id)
  }

  // ---------------------------------------------------------------------------
  // Live mutations
  // ---------------------------------------------------------------------------

  /** A list with its journal. */
  datatype Lane = Lane(items: seq<Entry>, journal: Journal)

  /** Put `next` (newest first) in place of the list, forget the journal entries of what
      the limit evicts, and note `id` as mutated at `generation`. */
  function Install(next: seq<Entry>, journal: Journal, limit: nat, id: string, generation: nat): Lane {
    Lane(Limit(next, limit), (journal - IdsOf(next[Min(|next|, limit)..]))[id := generation])
  }

  function Counted(e: Entry): bool { e.kind == "packet" || e.kind == "route" }

  function ApplyNodeSpec(c: Cache, node: Entry): Cache {
    if !c.ready then c
    else
      var lane := Install([node] + Without(c.live.nodes, node.id), c.nodeJournal, MAX_NODES, node.id, c.generation + 1);
      c.(live := c.live.(nodes := lane.items, activeNodes := |lane.items|,
                         latestSeq := Max(c.live.latestSeq, node.seqNo)),
         nodeJournal := lane.journal, generation := c.generation + 1)
  }

  function HearAt(live: LiveState, at: int): LiveState {
    if at > live.serverTime then live.(serverTime := at, statsServerTime := at) else live
  }

  function ApplyActivitySpec(c: Cache, e: Entry): Cache {
    if !c.ready then c
    else
      var lane := Install([e] + c.live.activity, c.activityJournal, MAX_ACTIVITY, e.id, c.generation + 1);
      var live := c.live.(activity := lane.items, packets := c.live.packets + (if Counted(e) then 1 else 0));
      c.(live := HearAt(live, e.at).(latestSeq := Max(c.live.latestSeq, e.seqNo)),
         activityJournal := lane.journal, generation := c.generation + 1)
  }

  function ApplyPulseSpec(c: Cache, e: Entry): Cache {
    if !c.ready then c
    else
      var lane := Install([e] + c.live.pulses, c.pulseJournal, MAX_PULSES, e.id, c.generation + 1);
      c.(live := HearAt(c.live.(pulses := lane.items), e.at).(latestSeq := Max(c.live.latestSeq, e.seqNo)),
         pulseJournal := lane.journal, generation := c.generation + 1)
  }

  function SetPacketCountSpec(c: Cache, count: int): Cache {
    if count < 0 || !c.ready then c
    else c.(live := c.live.(packets := count), packetMutation := c.generation + 1, generation := c.generation + 1)
  }

  // ---------------------------------------------------------------------------
  // What the mutations do
  // ---------------------------------------------------------------------------

  /** after is e and then before, as far as the limit allows. */
  ghost predicate PushedOnto(before: seq<Entry>, e: Entry, after: seq<Entry>, limit: nat) {
    && |after| == Min(|before| + 1, limit)
    && (forall i | 0 <= i < |after| :: after[i] == if i == 0 then e else before[i - 1])
  }

  /** A mutation under an id, numbered seqNo: it is counted, noted in a journal, and the label does
      not fall below its number. */
  ghost predicate Mutated(c: Cache, c': Cache, journal: Journal, id: string, seqNo: int) {
    && c'.ready && c'.generation == c.generation + 1 && id in journal && journal[id] == c'.generation
    && c'.live.latestSeq == (if seqNo > c.live.latestSeq then seqNo else c.live.latestSeq)
    && c'.packetMutation == c.packetMutation && c'.live.routes == c.live.routes
  }

  /** The server time never goes back, and reaches `at`. */
  ghost predicate Heard(live: LiveState, after: LiveState, at: int) {
    || (at <= live.serverTime == after.serverTime && after.statsServerTime == live.statsServerTime)
    || (live.serverTime < after.serverTime == after.statsServerTime == at)
  }

  ghost predicate ActivityPushed(c: Cache, e: Entry, c': Cache) {
    && PushedOnto(c.live.activity, e, c'.live.activity, MAX_ACTIVITY)
    && Mutated(c, c', c'.activityJournal, e.id, e.seqNo) && Heard(c.live, c'.live, e.at)
    && c'.live.packets == c.live.packets + (if e.kind in {"packet", "route"} then 1 else 0)
    && c'.live.nodes == c.live.nodes && c'.live.pulses == c.live.pulses
    && c'.nodeJournal == c.nodeJournal && c'.pulseJournal == c.pulseJournal
  }

  ghost predicate PulsePushed(c: Cache, e: Entry, c': Cache) {
    && PushedOnto(c.live.pulses, e, c'.live.pulses, MAX_PULSES)
    && Mutated(c, c', c'.pulseJournal, e.id, e.seqNo) && Heard(c.live, c'.live, e.at)
    && c'.live.packets == c.live.packets
    && c'.live.nodes == c.live.nodes && c'.live.activity == c.live.activity
    && c'.nodeJournal == c.nodeJournal && c'.activityJournal == c.activityJournal
  }

  /** e is first and the others keep their order. */
  ghost predicate MovedFirst(before: seq<Entry>, e: Entry, after: seq<Entry>) {
    exists others :: Selects(others, before, NotUnder(e.id)) && PushedOnto(others, e, after, MAX_NODES)
  }

  ghost predicate NodeFirst(c: Cache, e: Entry, c': Cache) {
    && MovedFirst(c.live.nodes, e, c'.live.nodes)
    && Mutated(c, c', c'.nodeJournal, e.id, e.seqNo) && c'.live.activeNodes == |c'.live.nodes|
    && c'.live.packets == c.live.packets && c'.live.serverTime == c.live.serverTime
    && c'.live.activity == c.live.activity && c'.live.pulses == c.live.pulses
    && c'.activityJournal == c.activityJournal && c'.pulseJournal == c.pulseJournal
  }

  lemma ActivityIsPushed(c: Cache, e: Entry)
    requires c.ready
    ensures ActivityPushed(c, e, ApplyActivitySpec(c, e))
  {
  }

  lemma PulseIsPushed(c: Cache, e: Entry)
    requires c.ready
    ensures PulsePushed(c, e, ApplyPulseSpec(c, e))
  {
  }

  function NotUnder(id: string): Entry -> bool { (x: Entry) => x.id != id }

  lemma {:induction false} WithoutSelects(items: seq<Entry>, id: string)
    ensures Selects(Without(items, id), items, NotUnder(id))
  {
    if items != [] {
      var rest := Without(items[1..], id);
      WithoutSelects(items[1..], id);
      assert ([items[0]] + rest)[1..] == rest && [] + rest == rest;
    }
  }

  lemma MovedBy(before: seq<Entry>, e: Entry, others: seq<Entry>, after: seq<Entry>)
    requires Selects(others, before, NotUnder(e.id)) && PushedOnto(others, e, after, MAX_NODES)
    ensures MovedFirst(before, e, after)
  {
  }

  lemma NodeIsFirst(c: Cache, e: Entry)
    requires c.ready
    ensures NodeFirst(c, e, ApplyNodeSpec(c, e))
  {
    assert MovedFirst(c.live.nodes, e, ApplyNodeSpec(c, e).live.nodes) by {
      WithoutSelects(c.live.nodes, e.id);
      MovedBy(c.live.nodes, e, Without(c.live.nodes, e.id), ApplyNodeSpec(c, e).live.nodes);
    }
  }

  // ---------------------------------------------------------------------------
  // Replacement
  // ---------------------------------------------------------------------------

  /** x takes the place of y under the same id. */
  predicate Supersedes(x: Entry, y: Entry) {
    x.at > y.at || (x.at == y.at && x.seqNo >= y.seqNo)
  }

  /** The loaded entries by id, the last one listed winning. */
  function LoadedMap(loaded: seq<Entry>): map<string, Entry> {
    if loaded == [] then map[]
    else var n := |loaded| - 1; LoadedMap(loaded[..n])[loaded[n].id := loaded[n]]
  }

  function MergeOne(m: map<string, Entry>, x: Entry): map<string, Entry> {
    if x.id !in m || Supersedes(x, m[x.id]) then m[x.id := x] else m
  }

  function MergeMap(loaded: seq<Entry>, current: seq<Entry>): map<string, Entry> {
    if current == [] then LoadedMap(loaded)
    else var n := |current| - 1; MergeOne(MergeMap(loaded, current[..n]), current[n])
  }

  ghost predicate UniqueIds(items: seq<Entry>) {
    forall i, j | 0 <= i < j < |items| :: items[i].id != items[j].id
  }

  /** out lists the values of m, each once. */
  ghost predicate Lists(m: map<string, Entry>, out: seq<Entry>) {
    && UniqueIds(out)
    && (forall x | x in out :: x.id in m && m[x.id] == x)
    && (forall id | id in m :: m[id] in out)
  }

  predicate LexLess(a: string, b: string) {
    b != [] && (a == [] || a[0] < b[0] || (a[0] == b[0] && LexLess(a[1..], b[1..])))
  }

  predicate NodeAhead(x: Entry, y: Entry) {
    if x.at == y.at then LexLess(x.id, y.id) else x.at > y.at
  }

  predicate HeardAhead(x: Entry, y: Entry) {
    if x.at == y.at then (if x.seqNo == y.seqNo then LexLess(x.id, y.id) else x.seqNo > y.seqNo) else x.at > y.at
  }

  function NodesFirst(): (Entry, Entry) -> bool { (x, y) => NodeAhead(x, y) }

  function HeardFirst(): (Entry, Entry) -> bool { (x, y) => HeardAhead(x, y) }

  /** a comes first in the dictionary: it is a proper beginning of b, or smaller where they first differ. */
  ghost predicate Precedes(a: string, b: string) { exists k: nat :: FirstDiffer(a, b, k) }

  predicate FirstDiffer(a: string, b: string, k: nat) {
    k <= |a| && k < |b| && a[..k] == b[..k] && (k == |a| || a[k] < b[k])
  }

  /** Last seen first, then by id. */
  ghost predicate RankedNodes(nodes: seq<Entry>) {
    forall i, j | 0 <= i < j < |nodes| ::
      nodes[i].at > nodes[j].at || (nodes[i].at == nodes[j].at && Precedes(nodes[i].id, nodes[j].id))
  }

  /** Last heard first, then by falling number, then by id. */
  ghost predicate RankedHeard(items: seq<Entry>) {
    forall i, j | 0 <= i < j < |items| ::
      || items[i].at > items[j].at
      || (items[i].at == items[j].at && items[i].seqNo > items[j].seqNo)
      || (items[i].at == items[j].at && items[i].seqNo == items[j].seqNo && Precedes(items[i].id, items[j].id))
  }

  ghost predicate AllRanked(live: LiveState) {
    RankedNodes(live.nodes) && RankedHeard(live.activity) && RankedHeard(live.pulses)
  }

  /** kept is as much of the list as the limit allows, and nothing it leaves out is later than
      anything it keeps. */
  ghost predicate KeepsLatest(items: seq<Entry>, kept: seq<Entry>, limit: nat) {
    && |kept| == Min(|items|, limit) && (forall x | x in kept :: x in items)
    && forall x, y | x in items && x !in kept && y in kept :: x.at <= y.at
  }

  /** The lists are cut at their limits and the rest is as it was. */
  ghost predicate AllCut(merged: LiveState, live: LiveState) {
    && CutTo(merged.nodes, live.nodes, MAX_NODES) && CutTo(merged.activity, live.activity, MAX_ACTIVITY)
    && CutTo(merged.pulses, live.pulses, MAX_PULSES) && CutTo(merged.routes, live.routes, MAX_ROUTES)
    && live == merged.(nodes := live.nodes, activity := live.activity, pulses := live.pulses, routes := live.routes)
  }

  ghost predicate CutTo<T>(items: seq<T>, kept: seq<T>, limit: nat) {
    kept <= items && |kept| <= limit && (|kept| < limit ==> kept == items)
  }

  ghost predicate AllKeepLatest(merged: LiveState, live: LiveState) {
    && KeepsLatest(merged.nodes, live.nodes, MAX_NODES) && KeepsLatest(merged.activity, live.activity, MAX_ACTIVITY)
    && KeepsLatest(merged.pulses, live.pulses, MAX_PULSES)
  }

  /** The held entries mutated after `generation`. */
  function RacedItems(items: seq<Entry>, journal: Journal, generation: nat): seq<Entry> {
    if items == [] then []
    else
      var n := |items| - 1;
      RacedItems(items[..n], journal, generation) +
          (if GenerationOf(journal, items[n].id) > generation then [items[n]] else [])
  }

  function MaxSeqNo(items: seq<Entry>, floor: int): int {
    if items == [] then floor else Max(MaxSeqNo(items[..|items| - 1], floor), items[|items| - 1].seqNo)
  }

  function MaxAt(items: seq<Entry>, floor: int): int {
    if items == [] then floor else Max(MaxAt(items[..|items| - 1], floor), items[|items| - 1].at)
  }

  /** merged is the loaded state overlaid with what changed in c after `generation`. */
  ghost predicate Overlaid(c: Cache, loaded: LiveState, generation: nat, merged: LiveState) {
    var nodes := RacedItems(c.live.nodes, c.nodeJournal, generation);
    var activity := RacedItems(c.live.activity, c.activityJournal, generation);
    var pulses := RacedItems(c.live.pulses, c.pulseJournal, generation);
    && Lists(MergeMap(loaded.nodes, nodes), merged.nodes) && Ordered(NodesFirst(), merged.nodes)
    && Lists(MergeMap(loaded.activity, activity), merged.activity) && Ordered(HeardFirst(), merged.activity)
    && Lists(MergeMap(loaded.pulses, pulses), merged.pulses) && Ordered(HeardFirst(), merged.pulses)
    && merged.routes == loaded.routes
    && merged.latestSeq == MaxSeqNo(pulses, MaxSeqNo(activity, MaxSeqNo(nodes, loaded.latestSeq)))
    && merged.serverTime == MaxAt(pulses, MaxAt(activity, loaded.serverTime))
    && merged.statsServerTime == MaxAt(pulses, MaxAt(activity, loaded.statsServerTime))
    && merged.packets == (if c.packetMutation > generation then c.live.packets
                          else if |activity| > 0 then Max(loaded.packets, c.live.packets) else loaded.packets)
    && merged.activeNodes == |merged.nodes| && merged.activeRoutes == |loaded.routes|
  }

  function Trimmed(live: LiveState): LiveState {
    live.(nodes := Limit(live.nodes, MAX_NODES), routes := Limit(live.routes, MAX_ROUTES),
          pulses := Limit(live.pulses, MAX_PULSES), activity := Limit(live.activity, MAX_ACTIVITY))
  }

  lemma TrimmedCuts(live: LiveState)
    ensures AllCut(live, Trimmed(live))
  {
  }

  /** What a replacement makes of the cache once the state to install is known. */
  function Installed(c: Cache, merged: LiveState): Cache {
    Cache(Trimmed(merged), true, c.generation + 1, map[], map[], map[], 0)
  }

  /** replace: c' is c with `loaded` installed, overlaid when a captured generation is given
      and the ready cache has moved on since. */
  ghost predicate Replaced(c: Cache, loaded: LiveState, expected: Option<nat>, merged: LiveState, c': Cache,
                           preserved: bool)
  {
    && preserved == (expected.Some? && c.ready && c.generation != expected.value)
    && (preserved ==> Overlaid(c, loaded, expected.value, merged))
    && (!preserved ==> merged == loaded)
    && c' == Installed(c, merged)
  }

  // ---------------------------------------------------------------------------
  // Facts about the merge
  // ---------------------------------------------------------------------------

  lemma {:induction false} LoadedMapFacts(loaded: seq<Entry>)
    ensures LoadedMap(loaded).Keys == IdsOf(loaded)
    ensures forall id | id in LoadedMap(loaded) :: LoadedMap(loaded)[id].id == id && LoadedMap(loaded)[id] in loaded
  {
    if loaded != [] {
      var n := |loaded| - 1;
      LoadedMapFacts(loaded[..n]);
      assert loaded == loaded[..n] + [loaded[n]];
    }
  }

  /** x is newer than y: later, or numbered higher at the same time. */
  predicate Newer(x: Entry, y: Entry) { x.at > y.at || (x.at == y.at && x.seqNo > y.seqNo) }

  /** x is the last loaded entry of its id. */
  ghost predicate LastLoaded(loaded: seq<Entry>, x: Entry) { exists i :: LastAt(loaded, i, x) }

  predicate LastAt(loaded: seq<Entry>, i: int, x: Entry) {
    0 <= i < |loaded| && loaded[i] == x && forall j | i < j < |loaded| :: loaded[j].id != x.id
  }

  /** No entry under x's id is newer than x. */
  predicate NoneNewer(items: seq<Entry>, x: Entry) { forall y | y in items && y.id == x.id :: !Newer(y, x) }

  predicate AllOlder(items: seq<Entry>, x: Entry) { forall y | y in items && y.id == x.id :: Newer(x, y) }

  /** x is what a merge keeps for its id: the base entry, if every current one is older; or a current
      one, if nothing is newer and the current ones after it are older. */
  ghost predicate Keeps(base: map<string, Entry>, current: seq<Entry>, x: Entry) {
    || (x.id in base && base[x.id] == x && AllOlder(current, x))
    || ((x.id in base ==> !Newer(base[x.id], x)) && exists i :: KeptAt(current, i, x))
  }

  predicate KeptAt(current: seq<Entry>, i: int, x: Entry) {
    0 <= i < |current| && current[i] == x && NoneNewer(current[..i], x) && AllOlder(current[i + 1..], x)
  }

  lemma KeptNoneNewer(current: seq<Entry>, i: int, x: Entry)
    requires KeptAt(current, i, x)
    ensures NoneNewer(current, x)
  {
    assert current == current[..i] + [x] + current[i + 1..];
  }

  lemma KeptAtOne(current: seq<Entry>, i: int, x: Entry, y: Entry)
    requires KeptAt(current, i, x) && (y.id == x.id ==> Newer(x, y))
    ensures KeptAt(current + [y], i, x)
  {
    assert (current + [y])[..i] == current[..i] && (current + [y])[i + 1..] == current[i + 1..] + [y];
  }

  lemma LoadedOne(loaded: seq<Entry>, x: Entry, y: Entry)
    ensures LastLoaded(loaded + [y], x) <==> x == y || (LastLoaded(loaded, x) && x.id != y.id)
  {
    var all := loaded + [y];
    assert all[|loaded|] == y && forall j | 0 <= j < |loaded| :: all[j] == loaded[j];
    if i :| LastAt(all, i, x) {
      if i < |loaded| { assert LastAt(loaded, i, x); }
    }
    if x == y { assert LastAt(all, |loaded|, y); }
    if i :| LastAt(loaded, i, x) && x.id != y.id { assert LastAt(all, i, x); }
  }

  /** Of equal ids the last loaded entry wins. */
  lemma {:induction false} LoadedMapIsLast(loaded: seq<Entry>)
    ensures forall x :: LastLoaded(loaded, x) <==> x.id in LoadedMap(loaded) && LoadedMap(loaded)[x.id] == x
  {
    if loaded != [] {
      var init, y := loaded[..|loaded| - 1], loaded[|loaded| - 1];
      assert loaded == init + [y];
      LoadedMapIsLast(init);
      forall x ensures LastLoaded(loaded, x) <==> x.id in LoadedMap(loaded) && LoadedMap(loaded)[x.id] == x {
        LoadedOne(init, x, y);
      }
    }
  }

  /** Another current entry that does not take over. */
  lemma KeepsOn(base: map<string, Entry>, current: seq<Entry>, x: Entry, y: Entry)
    requires Keeps(base, current, x) && (y.id == x.id ==> Newer(x, y))
    ensures Keeps(base, current + [y], x)
  {
    if i :| KeptAt(current, i, x) { KeptAtOne(current, i, x, y); }
  }

  /** One that does. */
  lemma KeepsLast(base: map<string, Entry>, current: seq<Entry>, x: Entry, y: Entry)
    requires Keeps(base, current, x) && y.id == x.id && !Newer(x, y)
    ensures Keeps(base, current + [y], y)
  {
    if i :| KeptAt(current, i, x) { KeptNoneNewer(current, i, x); }
    AddedIsKept(current, y);
  }

  lemma AddedIsKept(current: seq<Entry>, y: Entry)
    requires NoneNewer(current, y)
    ensures KeptAt(current + [y], |current|, y)
  {
    assert (current + [y])[..|current|] == current && (current + [y])[|current| + 1..] == [];
  }

  lemma KeepsFirst(base: map<string, Entry>, current: seq<Entry>, y: Entry)
    requires y.id !in base && y.id !in IdsOf(current)
    ensures Keeps(base, current + [y], y)
  {
    AddedIsKept(current, y);
  }

  ghost predicate AllKept(base: map<string, Entry>, current: seq<Entry>, m: map<string, Entry>) {
    forall id | id in m :: Keeps(base, current, m[id])
  }

  lemma MergeOneKeeps(loaded: seq<Entry>, current: seq<Entry>, m: map<string, Entry>, y: Entry)
    requires MergedFrom(loaded, current, m) && AllKept(LoadedMap(loaded), current, m)
    ensures AllKept(LoadedMap(loaded), current + [y], MergeOne(m, y))
  {
    var base := LoadedMap(loaded);
    LoadedMapFacts(loaded);
    forall id | id in MergeOne(m, y) ensures Keeps(base, current + [y], MergeOne(m, y)[id]) {
      if id != y.id {
        KeepsOn(base, current, m[id], y);
      } else if id !in m {
        KeepsFirst(base, current, y);
      } else if Newer(m[id], y) {
        KeepsOn(base, current, m[id], y);
      } else {
        KeepsLast(base, current, m[id], y);
      }
    }
  }

  /** What the merge keeps. */
  lemma {:induction false} MergeKeeps(loaded: seq<Entry>, current: seq<Entry>)
    ensures AllKept(LoadedMap(loaded), current, MergeMap(loaded, current))
  {
    LoadedMapFacts(loaded);
    if current != [] {
      var init, y := current[..|current| - 1], current[|current| - 1];
      assert current == init + [y];
      MergeKeeps(loaded, init);
      MergeFacts(loaded, init);
      MergeOneKeeps(loaded, init, MergeMap(loaded, init), y);
    }
  }

  /** m keeps every id, in a version at least as new as every loaded and every current
      one, and makes nothing up. */
  ghost predicate MergedFrom(loaded: seq<Entry>, current: seq<Entry>, m: map<string, Entry>) {
    && m.Keys == IdsOf(loaded) + IdsOf(current)
    && (forall id | id in m :: m[id].id == id && (m[id] in loaded || m[id] in current))
    && (forall x | x in current :: x.id in m && Supersedes(m[x.id], x))
    && (forall id | id in LoadedMap(loaded) :: id in m && Supersedes(m[id], LoadedMap(loaded)[id]))
  }

  lemma MergeStep(loaded: seq<Entry>, current: seq<Entry>, m: map<string, Entry>, x: Entry)
    requires MergedFrom(loaded, current, m)
    ensures MergedFrom(loaded, current + [x], MergeOne(m, x))
  {
    var m' := MergeOne(m, x);
    assert IdsOf(current + [x]) == IdsOf(current) + {x.id};
    assert x.id in m' && Supersedes(m'[x.id], x);
    forall y | y in current + [x] ensures y.id in m' && Supersedes(m'[y.id], y) {}
  }

  lemma {:induction false} MergeFacts(loaded: seq<Entry>, current: seq<Entry>)
    ensures MergedFrom(loaded, current, MergeMap(loaded, current))
  {
    LoadedMapFacts(loaded);
    if current != [] {
      var n := |current| - 1;
      MergeFacts(loaded, current[..n]);
      MergeStep(loaded, current[..n], MergeMap(loaded, current[..n]), current[n]);
      assert current == current[..n] + [current[n]];
    }
  }

  /** out lists each id of either side once, under the entry to keep: the last loaded one if every
      current one is older, else the newest current one, the later of two as new. */
  ghost predicate Merges(loaded: seq<Entry>, current: seq<Entry>, out: seq<Entry>) {
    && UniqueIds(out) && IdsOf(out) == IdsOf(loaded) + IdsOf(current)
    && forall x | x in out :: KeptOf(loaded, current, x)
  }

  ghost predicate KeptOf(loaded: seq<Entry>, current: seq<Entry>, x: Entry) {
    || (LastLoaded(loaded, x) && AllOlder(current, x))
    || ((forall y | LastLoaded(loaded, y) && y.id == x.id :: !Newer(y, x)) && exists i :: KeptAt(current, i, x))
  }

  lemma ListedMerges(loaded: seq<Entry>, current: seq<Entry>, out: seq<Entry>)
    requires Lists(MergeMap(loaded, current), out)
    ensures Merges(loaded, current, out)
  {
    var m := MergeMap(loaded, current);
    MergeFacts(loaded, current);
    MergeKeeps(loaded, current);
    LoadedMapIsLast(loaded);
    forall id ensures id in IdsOf(out) <==> id in m {
      if id in m { assert m[id] in out && m[id].id == id; }
    }
  }

  function Raced(journal: Journal, generation: nat): Entry -> bool {
    (x: Entry) => x.id in journal && journal[x.id] > generation
  }

  lemma RacedSnoc(init: seq<Entry>, x: Entry, journal: Journal, generation: nat)
    ensures RacedItems(init + [x], journal, generation) ==
            if Raced(journal, generation)(x) then RacedItems(init, journal, generation) + [x]
            else RacedItems(init, journal, generation)
  {
    assert (init + [x])[..|init|] == init;
  }

  /** The raced entries are the held ones the journal has after the generation, in order. */
  lemma {:induction false} RacedItemsSelect(items: seq<Entry>, journal: Journal, generation: nat)
    ensures Selects(RacedItems(items, journal, generation), items, Raced(journal, generation))
  {
    if items != [] {
      var init, x := items[..|items| - 1], items[|items| - 1];
      RacedItemsSelect(init, journal, generation);
      assert items == init + [x];
      RacedSnoc(init, x, journal, generation);
      SelectsOne(RacedItems(init, journal, generation), init, Raced(journal, generation), x, items,
                 RacedItems(items, journal, generation));
    }
  }

  /** high is the floor or one of the values, and nothing is above it. */
  ghost predicate Tops(values: seq<int>, floor: int, high: int) {
    floor <= high && (forall v | v in values :: v <= high) && (high == floor || high in values)
  }

  function SeqNos(items: seq<Entry>): seq<int> { seq(|items|, i requires 0 <= i < |items| => items[i].seqNo) }

  function Ats(items: seq<Entry>): seq<int> { seq(|items|, i requires 0 <= i < |items| => items[i].at) }

  lemma TopsSnoc(values: seq<int>, floor: int, high: int, v: int)
    requires Tops(values, floor, high)
    ensures Tops(values + [v], floor, if v > high then v else high)
  {
  }

  lemma {:induction false} MaxSeqNoTops(items: seq<Entry>, floor: int)
    ensures Tops(SeqNos(items), floor, MaxSeqNo(items, floor))
  {
    if items != [] {
      var init, x := items[..|items| - 1], items[|items| - 1];
      MaxSeqNoTops(init, floor);
      TopsSnoc(SeqNos(init), floor, MaxSeqNo(init, floor), x.seqNo);
      assert SeqNos(items) == SeqNos(init) + [x.seqNo];
    }
  }

  lemma {:induction false} MaxAtTops(items: seq<Entry>, floor: int)
    ensures Tops(Ats(items), floor, MaxAt(items, floor))
  {
    if items != [] {
      var init, x := items[..|items| - 1], items[|items| - 1];
      MaxAtTops(init, floor);
      TopsSnoc(Ats(init), floor, MaxAt(init, floor), x.at);
      assert Ats(items) == Ats(init) + [x.at];
    }
  }

  lemma TopsJoin(a: seq<int>, b: seq<int>, floor: int, mid: int, high: int)
    requires Tops(a, floor, mid) && Tops(b, mid, high)
    ensures Tops(a + b, floor, high)
  {
  }

  /** The label and the times of an overlay rise to the highest of the raced entries, and no further;
      a packet count set since the capture stays, another is not lowered below the loaded one; what is
      active is counted anew. */
  ghost predicate Totals(c: Cache, loaded: LiveState, generation: nat, merged: LiveState) {
    var nodes := RacedItems(c.live.nodes, c.nodeJournal, generation);
    var activity := RacedItems(c.live.activity, c.activityJournal, generation);
    var pulses := RacedItems(c.live.pulses, c.pulseJournal, generation);
    && Tops(SeqNos(nodes) + SeqNos(activity) + SeqNos(pulses), loaded.latestSeq, merged.latestSeq)
    && Tops(Ats(activity) + Ats(pulses), loaded.serverTime, merged.serverTime)
    && Tops(Ats(activity) + Ats(pulses), loaded.statsServerTime, merged.statsServerTime)
    && (c.packetMutation > generation ==> merged.packets == c.live.packets)
    && (c.packetMutation <= generation ==>
          merged.packets == loaded.packets || (activity != [] && merged.packets == c.live.packets > loaded.packets))
    && (c.packetMutation <= generation && activity != [] ==> merged.packets >= c.live.packets)
    && merged.activeNodes == |merged.nodes| && merged.activeRoutes == |merged.routes|
  }

  lemma OverlaidTotals(c: Cache, loaded: LiveState, generation: nat, merged: LiveState)
    requires Overlaid(c, loaded, generation, merged)
    ensures Totals(c, loaded, generation, merged)
  {
    var nodes := RacedItems(c.live.nodes, c.nodeJournal, generation);
    var activity := RacedItems(c.live.activity, c.activityJournal, generation);
    var pulses := RacedItems(c.live.pulses, c.pulseJournal, generation);
    HighestOfThree(nodes, activity, pulses, loaded.latestSeq);
    LatestOfTwo(activity, pulses, loaded.serverTime);
    LatestOfTwo(activity, pulses, loaded.statsServerTime);
  }

  lemma HighestOfThree(a: seq<Entry>, b: seq<Entry>, c: seq<Entry>, floor: int)
    ensures Tops(SeqNos(a) + SeqNos(b) + SeqNos(c), floor, MaxSeqNo(c, MaxSeqNo(b, MaxSeqNo(a, floor))))
  {
    var one, two := MaxSeqNo(a, floor), MaxSeqNo(b, MaxSeqNo(a, floor));
    MaxSeqNoTops(a, floor);
    MaxSeqNoTops(b, one);
    MaxSeqNoTops(c, two);
    TopsJoin(SeqNos(a), SeqNos(b), floor, one, two);
    TopsJoin(SeqNos(a) + SeqNos(b), SeqNos(c), floor, two, MaxSeqNo(c, two));
  }

  lemma LatestOfTwo(a: seq<Entry>, b: seq<Entry>, floor: int)
    ensures Tops(Ats(a) + Ats(b), floor, MaxAt(b, MaxAt(a, floor)))
  {
    MaxAtTops(a, floor);
    MaxAtTops(b, MaxAt(a, floor));
    TopsJoin(Ats(a), Ats(b), floor, MaxAt(a, floor), MaxAt(b, MaxAt(a, floor)));
  }

  lemma {:induction false} RacedItemsFacts(items: seq<Entry>, journal: Journal, generation: nat)
    ensures forall x :: x in RacedItems(items, journal, generation) <==>
              x in items && GenerationOf(journal, x.id) > generation
  {
    if items != [] {
      var n := |items| - 1;
      RacedItemsFacts(items[..n], journal, generation);
      assert items == items[..n] + [items[n]];
    }
  }

  lemma {:induction false} LexAsymmetric(a: string, b: string)
    requires LexLess(a, b)
    ensures !LexLess(b, a)
  {
    if a != [] && a[0] == b[0] { LexAsymmetric(a[1..], b[1..]); }
  }

  lemma {:induction false} LexWeak(a: string, b: string, c: string)
    requires LexLess(a, b) && !LexLess(c, b)
    ensures LexLess(a, c)
  {
    if a != [] && c != [] && a[0] == b[0] == c[0] { LexWeak(a[1..], b[1..], c[1..]); }
  }

  lemma OrdersAreWeak()
    ensures StrictWeakOrder(NodesFirst()) && StrictWeakOrder(HeardFirst())
  {
    forall a, b | LexLess(a, b) ensures !LexLess(b, a) { LexAsymmetric(a, b); }
    forall a, b, c | LexLess(a, b) && !LexLess(c, b) ensures LexLess(a, c) { LexWeak(a, b, c); }
  }

  lemma {:induction false} LexLessPrecedes(a: string, b: string)
    ensures LexLess(a, b) <==> Precedes(a, b)
  {
    if a != [] && b != [] && a[0] == b[0] {
      LexLessPrecedes(a[1..], b[1..]);
      if k: nat :| FirstDiffer(a[1..], b[1..], k) {
        assert a[..k + 1] == [a[0]] + a[1..][..k] && b[..k + 1] == [b[0]] + b[1..][..k];
        assert FirstDiffer(a, b, k + 1);
      }
      if k: nat :| FirstDiffer(a, b, k) {
        assert k > 0 && a[1..][..k - 1] == a[..k][1..] && b[1..][..k - 1] == b[..k][1..];
        assert FirstDiffer(a[1..], b[1..], k - 1);
      }
    } else if b != [] && (a == [] || a[0] < b[0]) {
      assert FirstDiffer(a, b, 0);
    } else if k: nat :| FirstDiffer(a, b, k) {
      if k > 0 { SameStart(a, b, k); }
    }
  }

  lemma SameStart(a: string, b: string, k: nat)
    requires FirstDiffer(a, b, k) && k > 0
    ensures a[0] == b[0]
  {
    assert a[..k][0] == b[..k][0];
  }

  lemma {:induction false} LexTotal(a: string, b: string)
    ensures a == b || LexLess(a, b) || LexLess(b, a)
  {
    if a != [] && b != [] && a[0] == b[0] {
      LexTotal(a[1..], b[1..]);
      assert a == [a[0]] + a[1..] && b == [b[0]] + b[1..];
    }
  }

  lemma NodesRanked(nodes: seq<Entry>)
    requires UniqueIds(nodes) && Ordered(NodesFirst(), nodes)
    ensures RankedNodes(nodes)
  {
    forall i, j | 0 <= i < j < |nodes|
      ensures nodes[i].at > nodes[j].at || (nodes[i].at == nodes[j].at && Precedes(nodes[i].id, nodes[j].id))
    {
      assert !NodesFirst()(nodes[j], nodes[i]);
      LexTotal(nodes[i].id, nodes[j].id);
      LexLessPrecedes(nodes[i].id, nodes[j].id);
    }
  }

  lemma HeardRanked(items: seq<Entry>)
    requires UniqueIds(items) && Ordered(HeardFirst(), items)
    ensures RankedHeard(items)
  {
    forall i, j | 0 <= i < j < |items|
      ensures || items[i].at > items[j].at
              || (items[i].at == items[j].at && items[i].seqNo > items[j].seqNo)
              || (items[i].at == items[j].at && items[i].seqNo == items[j].seqNo
                  && Precedes(items[i].id, items[j].id))
    {
      assert !HeardFirst()(items[j], items[i]);
      LexTotal(items[i].id, items[j].id);
      LexLessPrecedes(items[i].id, items[j].id);
    }
  }

  lemma RankedKeepsLatest(items: seq<Entry>, limit: nat)
    requires forall i, j | 0 <= i < j < |items| :: items[i].at >= items[j].at
    ensures KeepsLatest(items, Limit(items, limit), limit)
  {
    var kept := Limit(items, limit);
    forall x, y | x in items && x !in kept && y in kept ensures x.at <= y.at {
      var i :| 0 <= i < |items| && items[i] == x;
      var j :| 0 <= j < |kept| && kept[j] == y;
      assert forall t | 0 <= t < |kept| :: items[t] == kept[t] && kept[t] in kept;
      assert items[j] == y;
    }
  }

  /** Ranked lists stay so, and keep the latest, when they are trimmed. */
  lemma NodesTrimmed(nodes: seq<Entry>)
    requires UniqueIds(nodes) && Ordered(NodesFirst(), nodes)
    ensures RankedNodes(nodes) && RankedNodes(Limit(nodes, MAX_NODES))
    ensures KeepsLatest(nodes, Limit(nodes, MAX_NODES), MAX_NODES)
  {
    NodesRanked(nodes);
    RankedKeepsLatest(nodes, MAX_NODES);
  }

  lemma HeardTrimmed(items: seq<Entry>, limit: nat)
    requires UniqueIds(items) && Ordered(HeardFirst(), items)
    ensures RankedHeard(items) && RankedHeard(Limit(items, limit)) && KeepsLatest(items, Limit(items, limit), limit)
  {
    HeardRanked(items);
    RankedKeepsLatest(items, limit);
  }

  /** An overlaid state is ranked, and trimming it keeps the latest. */
  lemma OverlaidRanked(c: Cache, loaded: LiveState, generation: nat, merged: LiveState)
    requires Overlaid(c, loaded, generation, merged)
    ensures AllRanked(merged) && AllRanked(Trimmed(merged)) && AllKeepLatest(merged, Trimmed(merged))
  {
    NodesTrimmed(merged.nodes);
    HeardTrimmed(merged.activity, MAX_ACTIVITY);
    HeardTrimmed(merged.pulses, MAX_PULSES);
  }

  /** The cache after a replacement: the lists cut at their limits, after an overlay in rank order so
      that the latest are kept; empty journals. */
  ghost predicate StartsOver(merged: LiveState, preserved: bool, c: Cache) {
    && c.ready && AllCut(merged, c.live) && (preserved ==> AllRanked(c.live) && AllKeepLatest(merged, c.live))
    && c.nodeJournal == map[] && c.activityJournal == map[] && c.pulseJournal == map[] && c.packetMutation == 0
  }

  lemma InstalledStartsOver(c: Cache, merged: LiveState, preserved: bool)
    requires preserved ==> AllRanked(Trimmed(merged)) && AllKeepLatest(merged, Trimmed(merged))
    ensures StartsOver(merged, preserved, Installed(c, merged))
  {
    TrimmedCuts(merged);
  }

  // ---------------------------------------------------------------------------
  // The cache object
  // ---------------------------------------------------------------------------

  method MergeConcurrent(loaded: seq<Entry>, current: seq<Entry>,
                         ahead: (Entry, Entry) -> bool) returns (out: seq<Entry>)
    requires StrictWeakOrder(ahead)
    ensures Lists(MergeMap(loaded, current), out) && Ordered(ahead, out) && Merges(loaded, current, out)
  {
    var byID: map<string, Entry> := map[];
    for i := 0 to |loaded|
      invariant byID == LoadedMap(loaded[..i])
    {
      assert loaded[..i + 1][..i] == loaded[..i];
      byID := byID[loaded[i].id := loaded[i]];
    }
    assert loaded[..|loaded|] == loaded;
    for i := 0 to |current|
      invariant byID == MergeMap(loaded, current[..i])
    {
      assert current[..i + 1][..i] == current[..i];
      var x := current[i];
      if x.id !in byID || x.at > byID[x.id].at || (x.at == byID[x.id].at && x.seqNo >= byID[x.id].seqNo) {
        byID := byID[x.id := x];
      }
    }
    assert current[..|current|] == current;
    MergeFacts(loaded, current);
    out := [];
    var todo := byID.Keys;
    while todo != {}
      invariant todo <= byID.Keys
      invariant UniqueIds(out) && (forall x | x in out :: x.id in byID && byID[x.id] == x && x.id !in todo)
      invariant forall id | id in byID && id !in todo :: byID[id] in out
      decreases todo
    {
      var id :| id in todo;
      todo := todo - {id};
      out := out + [byID[id]];
    }
    SortKeepsListing(byID, out, ahead);
    SortIsOrdered(ahead, out);
    out := SortBy(ahead, out);
    ListedMerges(loaded, current, out);
  }

  lemma SortKeepsListing(m: map<string, Entry>, out: seq<Entry>, ahead: (Entry, Entry) -> bool)
    requires Lists(m, out)
    ensures Lists(m, SortBy(ahead, out))
  {
    var sorted := SortBy(ahead, out);
    SortPermutes(ahead, out);
    forall x ensures x in sorted <==> x in out { SortMembers(ahead, out, x); }
    DistinctPermutation(out, sorted);
    forall i, j | 0 <= i < j < |sorted| ensures sorted[i].id != sorted[j].id {
      assert sorted[i] in sorted && sorted[j] in sorted;
    }
  }

  method Journaled(items: seq<Entry>, journal: Journal, generation: nat) returns (raced: seq<Entry>)
    ensures raced == RacedItems(items, journal, generation)
  {
    raced := [];
    for i := 0 to |items|
      invariant raced == RacedItems(items[..i], journal, generation)
    {
      assert items[..i + 1][..i] == items[..i];
      if GenerationOf(journal, items[i].id) > generation { raced := raced + [items[i]]; }
    }
    assert items[..|items|] == items;
  }

  method HighestSeqNo(items: seq<Entry>, floor: int) returns (highest: int)
    ensures highest == MaxSeqNo(items, floor)
  {
    highest := floor;
    for i := 0 to |items|
      invariant highest == MaxSeqNo(items[..i], floor)
    {
      assert items[..i + 1][..i] == items[..i];
      highest := Max(highest, items[i].seqNo);
    }
    assert items[..|items|] == items;
  }

  method LatestAt(items: seq<Entry>, floor: int) returns (latest: int)
    ensures latest == MaxAt(items, floor)
  {
    latest := floor;
    for i := 0 to |items|
      invariant latest == MaxAt(items[..i], floor)
    {
      assert items[..i + 1][..i] == items[..i];
      latest := Max(latest, items[i].at);
    }
    assert items[..|items|] == items;
  }

  class PublicStateCache {
    var live: LiveState
    var ready: bool
    var mutationGeneration: nat
    var nodeMutations: Journal
    var activityMutations: Journal
    var pulseMutations: Journal
    var packetCountMutation: nat

    function Model(): Cache
      reads this
    {
      Cache(live, ready, mutationGeneration, nodeMutations, activityMutations, pulseMutations, packetCountMutation)
    }

    constructor ()
      ensures !Model().ready && Model().generation == 0
      ensures Model().nodeJournal == map[] && Model().activityJournal == map[] && Model().pulseJournal == map[]
    {
      live := LiveState([], [], [], [], 0, 0, 0, 0, 0, 0);
      ready, mutationGeneration, packetCountMutation := false, 0, 0;
      nodeMutations, activityMutations, pulseMutations := map[], map[], map[];
    }

    method ApplyNode(node: Entry)
      modifies this
      ensures Model() == ApplyNodeSpec(old(Model()), node)
      ensures if old(ready) then NodeFirst(old(Model()), node, Model()) else Model() == old(Model())
    {
      if !ready { return; }
      NodeIsFirst(Model(), node);
      var next := [node];
      for i := 0 to |live.nodes|
        modifies {}
        invariant next == [node] + Without(live.nodes[..i], node.id)
      {
        WithoutStep(live.nodes, i, node.id);
        if live.nodes[i].id != node.id { next := next + [live.nodes[i]]; }
      }
      assert live.nodes[..|live.nodes|] == live.nodes;
      nodeMutations := DropEvicted(nodeMutations, next, MAX_NODES);
      live := live.(nodes := Limit(next, MAX_NODES));
      live := live.(activeNodes := |live.nodes|, latestSeq := Max(live.latestSeq, node.seqNo));
      mutationGeneration := mutationGeneration + 1;
      nodeMutations := nodeMutations[node.id := mutationGeneration];
    }

    method ApplyActivity(activity: Entry)
      modifies this
      ensures Model() == ApplyActivitySpec(old(Model()), activity)
      ensures if old(ready) then ActivityPushed(old(Model()), activity, Model()) else Model() == old(Model())
    {
      if !ready { return; }
      ActivityIsPushed(Model(), activity);
      var next := [activity] + live.activity;
      activityMutations := DropEvicted(activityMutations, next, MAX_ACTIVITY);
      live := live.(activity := Limit(next, MAX_ACTIVITY));
      if activity.kind == "packet" || activity.kind == "route" { live := live.(packets := live.packets + 1); }
      if activity.at > live.serverTime { live := live.(serverTime := activity.at, statsServerTime := activity.at); }
      if activity.seqNo > live.latestSeq { live := live.(latestSeq := activity.seqNo); }
      mutationGeneration := mutationGeneration + 1;
      activityMutations := activityMutations[activity.id := mutationGeneration];
    }

    method ApplyRoutePulse(pulse: Entry)
      modifies this
      ensures Model() == ApplyPulseSpec(old(Model()), pulse)
      ensures if old(ready) then PulsePushed(old(Model()), pulse, Model()) else Model() == old(Model())
    {
      if !ready { return; }
      PulseIsPushed(Model(), pulse);
      var next := [pulse] + live.pulses;
      pulseMutations := DropEvicted(pulseMutations, next, MAX_PULSES);
      live := live.(pulses := Limit(next, MAX_PULSES));
      if pulse.at > live.serverTime { live := live.(serverTime := pulse.at, statsServerTime := pulse.at); }
      if pulse.seqNo > live.latestSeq { live := live.(latestSeq := pulse.seqNo); }
      mutationGeneration := mutationGeneration + 1;
      pulseMutations := pulseMutations[pulse.id := mutationGeneration];
    }

    method SetPacketCount(count: int)
      modifies this
      ensures Model() == SetPacketCountSpec(old(Model()), count)
      ensures if old(ready) && count >= 0 then
                && live == old(live).(packets := count) && ready
                && packetCountMutation == mutationGeneration == old(mutationGeneration) + 1
                && nodeMutations == old(nodeMutations) && activityMutations == old(activityMutations)
                && pulseMutations == old(pulseMutations)
              else Model() == old(Model())
    {
      if count < 0 || !ready { return; }
      live := live.(packets := count);
      mutationGeneration := mutationGeneration + 1;
      packetCountMutation := mutationGeneration;
    }

    method MergeMutationsAfter(loaded: LiveState, generation: nat) returns (merged: LiveState)
      ensures Overlaid(Model(), loaded, generation, merged)
      ensures AllRanked(merged) && AllRanked(Trimmed(merged)) && AllKeepLatest(merged, Trimmed(merged))
      ensures Totals(Model(), loaded, generation, merged)
    {
      OrdersAreWeak();
      var nodes := Journaled(live.nodes, nodeMutations, generation);
      var activity := Journaled(live.activity, activityMutations, generation);
      var pulses := Journaled(live.pulses, pulseMutations, generation);
      var mergedNodes := MergeConcurrent(loaded.nodes, nodes, NodesFirst());
      var mergedActivity := MergeConcurrent(loaded.activity, activity, HeardFirst());
      var mergedPulses := MergeConcurrent(loaded.pulses, pulses, HeardFirst());
      var seqNo := HighestSeqNo(nodes, loaded.latestSeq);
      seqNo := HighestSeqNo(activity, seqNo);
      seqNo := HighestSeqNo(pulses, seqNo);
      var serverTime := LatestAt(activity, loaded.serverTime);
      serverTime := LatestAt(pulses, serverTime);
      var statsTime := LatestAt(activity, loaded.statsServerTime);
      statsTime := LatestAt(pulses, statsTime);
      var packets := loaded.packets;
      if packetCountMutation > generation { packets := live.packets; }
      else if |activity| > 0 { packets := Max(loaded.packets, live.packets); }
      merged := LiveState(mergedNodes, loaded.routes, mergedActivity, mergedPulses, packets, serverTime, statsTime,
                          seqNo,
                          |mergedNodes|, |loaded.routes|);
      OverlaidRanked(Model(), loaded, generation, merged);
      OverlaidTotals(Model(), loaded, generation, merged);
    }

    /** ReplacePreservingMutations when `expected` is given, Replace otherwise. */
    method Replace(loaded: LiveState, expected: Option<nat>) returns (preserved: bool, ghost merged: LiveState)
      modifies this
      ensures Replaced(old(Model()), loaded, expected, merged, Model(), preserved)
      ensures StartsOver(merged, preserved, Model()) && mutationGeneration == old(mutationGeneration) + 1
      ensures preserved <==> expected.Some? && old(ready) && old(mutationGeneration) != expected.value
    {
      var next := loaded;
      preserved := expected.Some? && ready && mutationGeneration != expected.value;
      if preserved { next := MergeMutationsAfter(loaded, expected.value); }
      merged := next;
      live := Trimmed(next);
      ready := true;
      mutationGeneration := mutationGeneration + 1;
      nodeMutations, activityMutations, pulseMutations, packetCountMutation := map[], map[], map[], 0;
      InstalledStartsOver(old(Model()), merged, preserved);
    }
  }

  lemma {:induction false} WithoutStep(items: seq<Entry>, i: nat, id: string)
    requires i < |items|
    ensures Without(items[..i + 1], id) == Without(items[..i], id) + (if items[i].id != id then [items[i]] else [])
  {
    if i > 0 {
      WithoutStep(items[1..], i - 1, id);
      assert items[..i + 1][1..] == items[1..][..i] && items[..i][1..] == items[1..][..i - 1];
    }
  }

  /** Deletes the journal entries of everything beyond the limit. */
  method DropEvicted(journal: Journal, next: seq<Entry>, limit: nat) returns (kept: Journal)
    ensures kept == journal - IdsOf(next[Min(|next|, limit)..])
  {
    kept := journal;
    var start := Min(|next|, limit);
    for i := start to |next|
      invariant kept == journal - IdsOf(next[start..i])
    {
      assert next[start..i + 1] == next[start..i] + [next[i]];
      kept := kept - {next[i].id};
    }
    assert next[start..|next|] == next[start..];
  }
}

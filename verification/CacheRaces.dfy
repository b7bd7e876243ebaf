/** What the mutation journal of the public cache achieves over whole runs: between the
    capture of a generation and the replacement that uses it, any live mutations may happen,
    and the replacement neither loses nor resurrects any of them. */
module CacheRaces {
  import opened Shared
  import opened Sorting
  import opened PublicCache

  datatype Mutation =
    | NodeUpdate(node: Entry)
    | ActivityUpdate(activity: Entry)
    | PulseUpdate(pulse: Entry)
    | PacketCount(count: int)

  function ApplyMutation(c: Cache, m: Mutation): Cache {
    match m
    case NodeUpdate(e) => ApplyNodeSpec(c, e)
    case ActivityUpdate(e) => ApplyActivitySpec(c, e)
    case PulseUpdate(e) => ApplyPulseSpec(c, e)
    case PacketCount(n) => SetPacketCountSpec(c, n)
  }

  function ApplyAll(c: Cache, ms: seq<Mutation>): Cache {
    if ms == [] then c else ApplyMutation(ApplyAll(c, ms[..|ms| - 1]), ms[|ms| - 1])
  }

  /** The ids mutated since the capture, per list. */
  datatype Race = Race(nodes: set<string>, activity: set<string>, pulses: set<string>)

  function Note(r: Race, m: Mutation): Race {
    match m
    case NodeUpdate(e) => r.(nodes := r.nodes + {e.id})
    case ActivityUpdate(e) => r.(activity := r.activity + {e.id})
    case PulseUpdate(e) => r.(pulses := r.pulses + {e.id})
    case PacketCount(_) => r
  }

  function RaceOf(ms: seq<Mutation>): Race {
    if ms == [] then Race({}, {}, {}) else Note(RaceOf(ms[..|ms| - 1]), ms[|ms| - 1])
  }

  // ---------------------------------------------------------------------------
  // One list and its journal
  // ---------------------------------------------------------------------------

  /** The journal tells exactly which held entries carry an id of `raced`. */
  ghost predicate Tracks(lane: Lane, generation: nat, raced: set<string>) {
    forall x | x in lane.items :: x.id in raced <==> GenerationOf(lane.journal, x.id) > generation
  }

  /** No id mutated since the capture is evicted while another entry under it stays. */
  ghost predicate EvictsCleanly(next: seq<Entry>, limit: nat, raced: set<string>, id: string) {
    forall x | x in Limit(next, limit) && x.id in raced && x.id != id :: x.id !in IdsOf(next[Min(|next|, limit)..])
  }

  /** The journal keeps tracking across a mutation exactly when the eviction is clean. */
  lemma InstallTracks(items: seq<Entry>, journal: Journal, next: seq<Entry>, limit: nat, id: string, now: nat,
                      generation: nat, raced: set<string>)
    requires Tracks(Lane(items, journal), generation, raced) && now > generation
    requires forall x | x in next :: x.id == id || x in items
    ensures Tracks(Install(next, journal, limit, id, now), generation, raced + {id}) <==>
              EvictsCleanly(next, limit, raced, id)
  {
    var lane := Install(next, journal, limit, id, now);
    var evicted := IdsOf(next[Min(|next|, limit)..]);
    forall x | x in lane.items
      ensures (x.id in raced + {id} <==> GenerationOf(lane.journal, x.id) > generation) <==>
              (x.id in raced && x.id != id ==> x.id !in evicted)
    {
      assert x in next;
      if x.id != id { assert x in items; }
    }
  }

  lemma {:induction false} WithoutFacts(items: seq<Entry>, id: string)
    ensures forall x :: x in Without(items, id) <==> x in items && x.id != id
    ensures UniqueIds(items) ==> UniqueIds(Without(items, id))
  {
    if items != [] {
      WithoutFacts(items[1..], id);
      assert items == [items[0]] + items[1..];
    }
  }

  // ---------------------------------------------------------------------------
  // Runs between a capture and a replacement
  // ---------------------------------------------------------------------------

  ghost predicate JournalBounded(c: Cache) {
    && (forall id | id in c.nodeJournal :: c.nodeJournal[id] <= c.generation)
    && (forall id | id in c.activityJournal :: c.activityJournal[id] <= c.generation)
    && (forall id | id in c.pulseJournal :: c.pulseJournal[id] <= c.generation)
    && c.packetMutation <= c.generation
  }

  /** No journal entry is ahead of the generation counter, in any run of mutations and replacements. */
  lemma MutationKeepsBound(c: Cache, m: Mutation)
    requires JournalBounded(c)
    ensures JournalBounded(ApplyMutation(c, m)) && c.generation <= ApplyMutation(c, m).generation
  {
  }

  lemma {:induction false} RunKeepsBound(c: Cache, ms: seq<Mutation>)
    requires JournalBounded(c)
    ensures JournalBounded(ApplyAll(c, ms)) && c.generation <= ApplyAll(c, ms).generation
    ensures ApplyAll(c, ms).ready == c.ready
  {
    if ms != [] {
      RunKeepsBound(c, ms[..|ms| - 1]);
      MutationKeepsBound(ApplyAll(c, ms[..|ms| - 1]), ms[|ms| - 1]);
    }
  }

  lemma ReplacementKeepsBound(c: Cache, loaded: LiveState, expected: Option<nat>, merged: LiveState, c': Cache,
                              preserved: bool)
    requires Replaced(c, loaded, expected, merged, c', preserved)
    ensures JournalBounded(c') && c'.ready && c'.generation > c.generation
  {
  }

  ghost predicate AllTracked(c: Cache, generation: nat, race: Race) {
    && Tracks(Lane(c.live.nodes, c.nodeJournal), generation, race.nodes)
    && Tracks(Lane(c.live.activity, c.activityJournal), generation, race.activity)
    && Tracks(Lane(c.live.pulses, c.pulseJournal), generation, race.pulses)
  }

  /** The eviction of mutation m, if any, is clean. */
  ghost predicate CleanStep(c: Cache, race: Race, m: Mutation) {
    match m
    case NodeUpdate(e) => EvictsCleanly([e] + Without(c.live.nodes, e.id), MAX_NODES, race.nodes, e.id)
    case ActivityUpdate(e) => EvictsCleanly([e] + c.live.activity, MAX_ACTIVITY, race.activity, e.id)
    case PulseUpdate(e) => EvictsCleanly([e] + c.live.pulses, MAX_PULSES, race.pulses, e.id)
    case PacketCount(_) => true
  }

  ghost predicate CleanRun(c: Cache, ms: seq<Mutation>) {
    ms == [] || (CleanRun(c, ms[..|ms| - 1])
                 && CleanStep(ApplyAll(c, ms[..|ms| - 1]), RaceOf(ms[..|ms| - 1]), ms[|ms| - 1]))
  }

  lemma NodeTracksIff(c: Cache, generation: nat, raced: set<string>, e: Entry)
    requires c.ready && generation <= c.generation && Tracks(Lane(c.live.nodes, c.nodeJournal), generation, raced)
    ensures var c' := ApplyNodeSpec(c, e);
            Tracks(Lane(c'.live.nodes, c'.nodeJournal), generation, raced + {e.id}) <==>
            EvictsCleanly([e] + Without(c.live.nodes, e.id), MAX_NODES, raced, e.id)
  {
    WithoutFacts(c.live.nodes, e.id);
    InstallTracks(c.live.nodes, c.nodeJournal, [e] + Without(c.live.nodes, e.id), MAX_NODES, e.id, c.generation + 1,
                  generation, raced);
  }

  lemma ActivityTracksIff(c: Cache, generation: nat, raced: set<string>, e: Entry)
    requires c.ready && generation <= c.generation
    requires Tracks(Lane(c.live.activity, c.activityJournal), generation, raced)
    ensures var c' := ApplyActivitySpec(c, e);
            Tracks(Lane(c'.live.activity, c'.activityJournal), generation, raced + {e.id}) <==>
            EvictsCleanly([e] + c.live.activity, MAX_ACTIVITY, raced, e.id)
  {
    InstallTracks(c.live.activity, c.activityJournal, [e] + c.live.activity, MAX_ACTIVITY, e.id, c.generation + 1,
                  generation, raced);
  }

  lemma PulseTracksIff(c: Cache, generation: nat, raced: set<string>, e: Entry)
    requires c.ready && generation <= c.generation
    requires Tracks(Lane(c.live.pulses, c.pulseJournal), generation, raced)
    ensures var c' := ApplyPulseSpec(c, e);
            Tracks(Lane(c'.live.pulses, c'.pulseJournal), generation, raced + {e.id}) <==>
            EvictsCleanly([e] + c.live.pulses, MAX_PULSES, raced, e.id)
  {
    InstallTracks(c.live.pulses, c.pulseJournal, [e] + c.live.pulses, MAX_PULSES, e.id, c.generation + 1,
                  generation, raced);
  }

  /** A mutation leaves the two lists it is not about, and their journals, alone. */
  lemma OtherLists(c: Cache, m: Mutation)
    ensures var c' := ApplyMutation(c, m);
            && (m.NodeUpdate? || (c'.live.nodes == c.live.nodes && c'.nodeJournal == c.nodeJournal))
            && (m.ActivityUpdate? || (c'.live.activity == c.live.activity && c'.activityJournal == c.activityJournal))
            && (m.PulseUpdate? || (c'.live.pulses == c.live.pulses && c'.pulseJournal == c.pulseJournal))
  {
  }

  /** One mutation keeps the journal exact if and only if its eviction is clean. */
  lemma MutationTracksIff(c: Cache, generation: nat, race: Race, m: Mutation)
    requires c.ready && generation <= c.generation && AllTracked(c, generation, race)
    ensures AllTracked(ApplyMutation(c, m), generation, Note(race, m)) <==> CleanStep(c, race, m)
  {
    OtherLists(c, m);
    match m
    case NodeUpdate(e) => NodeTracksIff(c, generation, race.nodes, e);
    case ActivityUpdate(e) => ActivityTracksIff(c, generation, race.activity, e);
    case PulseUpdate(e) => PulseTracksIff(c, generation, race.pulses, e);
    case PacketCount(_) =>
  }

  lemma {:induction false} CleanRunTracks(c: Cache, ms: seq<Mutation>)
    requires c.ready && JournalBounded(c) && CleanRun(c, ms)
    ensures AllTracked(ApplyAll(c, ms), c.generation, RaceOf(ms))
  {
    if ms != [] {
      var n := |ms| - 1;
      CleanRunTracks(c, ms[..n]);
      RunKeepsBound(c, ms[..n]);
      MutationTracksIff(ApplyAll(c, ms[..n]), c.generation, RaceOf(ms[..n]), ms[n]);
    }
  }

  /** Node updates replace the entry they rename, so with distinct node ids they are always clean. */
  lemma NodeUpdatesAreClean(c: Cache, race: Race, e: Entry)
    requires UniqueIds(c.live.nodes)
    ensures CleanStep(c, race, NodeUpdate(e)) && UniqueIds(ApplyNodeSpec(c, e).live.nodes)
  {
    WithoutFacts(c.live.nodes, e.id);
  }

  // ---------------------------------------------------------------------------
  // Nothing resurrected
  // ---------------------------------------------------------------------------

  /** Every journal entry younger than the capture is about a mutation since then. */
  ghost predicate Noted(c: Cache, generation: nat, race: Race) {
    && (forall id | GenerationOf(c.nodeJournal, id) > generation :: id in race.nodes)
    && (forall id | GenerationOf(c.activityJournal, id) > generation :: id in race.activity)
    && (forall id | GenerationOf(c.pulseJournal, id) > generation :: id in race.pulses)
  }

  lemma MutationNotes(c: Cache, generation: nat, race: Race, m: Mutation)
    requires Noted(c, generation, race)
    ensures Noted(ApplyMutation(c, m), generation, Note(race, m)) || !c.ready
  {
  }

  lemma {:induction false} RunNotes(c: Cache, ms: seq<Mutation>)
    requires c.ready && JournalBounded(c)
    ensures Noted(ApplyAll(c, ms), c.generation, RaceOf(ms))
  {
    if ms != [] {
      RunNotes(c, ms[..|ms| - 1]);
      RunKeepsBound(c, ms[..|ms| - 1]);
      MutationNotes(ApplyAll(c, ms[..|ms| - 1]), c.generation, RaceOf(ms[..|ms| - 1]), ms[|ms| - 1]);
    }
  }

  /** The list shows the entry's id in a version at least as new. */
  ghost predicate Present(items: seq<Entry>, e: Entry) {
    exists y :: y in items && y.id == e.id && Supersedes(y, e)
  }

  /** What a replacement never gets wrong on one list: every loaded id is there in a version at
      least as new, and each entry is a loaded one or a held one mutated since the capture. */
  ghost predicate Genuine(loaded: seq<Entry>, held: seq<Entry>, raced: set<string>, merged: seq<Entry>) {
    && (forall id | id in LoadedMap(loaded) :: Present(merged, LoadedMap(loaded)[id]))
    && (forall y | y in merged :: y in loaded || (y in held && y.id in raced))
  }

  lemma OverlayIsGenuine(loaded: seq<Entry>, lane: Lane, generation: nat, raced: set<string>, merged: seq<Entry>)
    requires forall id | GenerationOf(lane.journal, id) > generation :: id in raced
    requires Lists(MergeMap(loaded, RacedItems(lane.items, lane.journal, generation)), merged)
    ensures Genuine(loaded, lane.items, raced, merged)
  {
    var overlay := RacedItems(lane.items, lane.journal, generation);
    var m := MergeMap(loaded, overlay);
    RacedItemsFacts(lane.items, lane.journal, generation);
    MergeFacts(loaded, overlay);
    forall id | id in LoadedMap(loaded) ensures Present(merged, LoadedMap(loaded)[id]) {
      LoadedMapFacts(loaded);
      assert m[id] in merged;
    }
  }

  // ---------------------------------------------------------------------------
  // Nothing lost
  // ---------------------------------------------------------------------------

  /** The entry's id is still in the journal, or the store already had it at least as new. */
  predicate Recoverable(loaded: seq<Entry>, lane: Lane, generation: nat, x: Entry) {
    || GenerationOf(lane.journal, x.id) > generation
    || (x.id in LoadedMap(loaded) && Supersedes(LoadedMap(loaded)[x.id], x))
  }

  lemma {:induction false} UntouchedLoaded(loaded: seq<Entry>, current: seq<Entry>, id: string)
    requires id !in IdsOf(current)
    ensures id in MergeMap(loaded, current) <==> id in LoadedMap(loaded)
    ensures id in LoadedMap(loaded) ==> MergeMap(loaded, current)[id] == LoadedMap(loaded)[id]
  {
    if current != [] {
      var n := |current| - 1;
      assert current[n].id in IdsOf(current) && IdsOf(current[..n]) <= IdsOf(current);
      UntouchedLoaded(loaded, current[..n], id);
    }
  }

  /** A held entry comes through an overlay exactly when it is recoverable. */
  lemma SurvivesIff(loaded: seq<Entry>, lane: Lane, generation: nat, merged: seq<Entry>, x: Entry)
    requires Lists(MergeMap(loaded, RacedItems(lane.items, lane.journal, generation)), merged) && x in lane.items
    ensures Present(merged, x) <==> Recoverable(loaded, lane, generation, x)
  {
    var overlay := RacedItems(lane.items, lane.journal, generation);
    var m := MergeMap(loaded, overlay);
    RacedItemsFacts(lane.items, lane.journal, generation);
    MergeFacts(loaded, overlay);
    if GenerationOf(lane.journal, x.id) > generation {
      assert x in overlay && m[x.id] in merged;
    } else {
      UntouchedLoaded(loaded, overlay, x.id);
      if x.id in m { assert m[x.id] in merged; }
    }
  }

  /** Every entry mutated since the capture and still held survives exactly when it is recoverable. */
  ghost predicate KeepsRecoverable(loaded: seq<Entry>, lane: Lane, generation: nat, raced: set<string>,
                                   merged: seq<Entry>)
  {
    forall x | x in lane.items && x.id in raced :: Present(merged, x) <==> Recoverable(loaded, lane, generation, x)
  }

  ghost predicate KeepsAll(held: seq<Entry>, raced: set<string>, merged: seq<Entry>) {
    forall x | x in held && x.id in raced :: Present(merged, x)
  }

  lemma OverlayKeeps(loaded: seq<Entry>, lane: Lane, generation: nat, raced: set<string>, merged: seq<Entry>)
    requires Lists(MergeMap(loaded, RacedItems(lane.items, lane.journal, generation)), merged)
    ensures KeepsRecoverable(loaded, lane, generation, raced, merged)
    ensures Tracks(lane, generation, raced) ==> KeepsAll(lane.items, raced, merged)
  {
    forall x | x in lane.items && x.id in raced
      ensures Present(merged, x) <==> Recoverable(loaded, lane, generation, x)
    {
      SurvivesIff(loaded, lane, generation, merged, x);
    }
  }

  lemma {:induction false} QuietRunIsEmpty(c: Cache, ms: seq<Mutation>)
    requires c.ready && JournalBounded(c) && ApplyAll(c, ms).generation == c.generation
    ensures RaceOf(ms) == Race({}, {}, {})
  {
    if ms != [] {
      var n := |ms| - 1;
      RunKeepsBound(c, ms[..n]);
      MutationKeepsBound(ApplyAll(c, ms[..n]), ms[n]);
      QuietRunIsEmpty(c, ms[..n]);
    }
  }

  lemma PlainIsGenuine(loaded: seq<Entry>, held: seq<Entry>, raced: set<string>)
    ensures Genuine(loaded, held, raced, loaded)
  {
    LoadedMapFacts(loaded);
  }

  function NodeLane(c: Cache): Lane { Lane(c.live.nodes, c.nodeJournal) }

  function ActivityLane(c: Cache): Lane { Lane(c.live.activity, c.activityJournal) }

  function PulseLane(c: Cache): Lane { Lane(c.live.pulses, c.pulseJournal) }

  /** After ANY run of mutations, the replacement with the captured generation resurrects nothing:
      what it lists is loaded or mutated since the capture. It overlays exactly when something
      changed, and then lists every id once. */
  lemma ReplacementIsGenuine(c: Cache, ms: seq<Mutation>, loaded: LiveState, merged: LiveState, c': Cache,
                             preserved: bool)
    requires c.ready && JournalBounded(c)
    requires Replaced(ApplyAll(c, ms), loaded, Some(c.generation), merged, c', preserved)
    ensures var held, race := ApplyAll(c, ms).live, RaceOf(ms);
            && Genuine(loaded.nodes, held.nodes, race.nodes, merged.nodes)
            && Genuine(loaded.activity, held.activity, race.activity, merged.activity)
            && Genuine(loaded.pulses, held.pulses, race.pulses, merged.pulses)
    ensures preserved ==> UniqueIds(merged.nodes) && UniqueIds(merged.activity) && UniqueIds(merged.pulses)
    ensures !preserved ==> merged == loaded && RaceOf(ms) == Race({}, {}, {})
  {
    var c1, race := ApplyAll(c, ms), RaceOf(ms);
    RunKeepsBound(c, ms);
    RunNotes(c, ms);
    if preserved {
      OverlayIsGenuine(loaded.nodes, NodeLane(c1), c.generation, race.nodes, merged.nodes);
      OverlayIsGenuine(loaded.activity, ActivityLane(c1), c.generation, race.activity, merged.activity);
      OverlayIsGenuine(loaded.pulses, PulseLane(c1), c.generation, race.pulses, merged.pulses);
    } else {
      QuietRunIsEmpty(c, ms);
      PlainIsGenuine(loaded.nodes, c1.live.nodes, race.nodes);
      PlainIsGenuine(loaded.activity, c1.live.activity, race.activity);
      PlainIsGenuine(loaded.pulses, c1.live.pulses, race.pulses);
    }
  }

  /** After ANY run, an entry mutated since the capture and still held survives the replacement if
      and only if it is recoverable; runs with clean evictions lose nothing. */
  lemma ReplacementKeepsIff(c: Cache, ms: seq<Mutation>, loaded: LiveState, merged: LiveState, c': Cache,
                            preserved: bool)
    requires c.ready && JournalBounded(c)
    requires Replaced(ApplyAll(c, ms), loaded, Some(c.generation), merged, c', preserved)
    ensures var c1, race := ApplyAll(c, ms), RaceOf(ms);
            && KeepsRecoverable(loaded.nodes, NodeLane(c1), c.generation, race.nodes, merged.nodes)
            && KeepsRecoverable(loaded.activity, ActivityLane(c1), c.generation, race.activity, merged.activity)
            && KeepsRecoverable(loaded.pulses, PulseLane(c1), c.generation, race.pulses, merged.pulses)
    ensures var held, race := ApplyAll(c, ms).live, RaceOf(ms);
            CleanRun(c, ms) ==>
              && KeepsAll(held.nodes, race.nodes, merged.nodes)
              && KeepsAll(held.activity, race.activity, merged.activity)
              && KeepsAll(held.pulses, race.pulses, merged.pulses)
  {
    var c1, race := ApplyAll(c, ms), RaceOf(ms);
    RunKeepsBound(c, ms);
    if preserved {
      OverlayKeeps(loaded.nodes, NodeLane(c1), c.generation, race.nodes, merged.nodes);
      OverlayKeeps(loaded.activity, ActivityLane(c1), c.generation, race.activity, merged.activity);
      OverlayKeeps(loaded.pulses, PulseLane(c1), c.generation, race.pulses, merged.pulses);
      if CleanRun(c, ms) { CleanRunTracks(c, ms); }
    } else {
      QuietRunIsEmpty(c, ms);
    }
  }

  // ---------------------------------------------------------------------------
  // The packet count
  // ---------------------------------------------------------------------------

  predicate Counts(m: Mutation) { m.PacketCount? && m.count >= 0 }

  lemma CountOne(c: Cache, m: Mutation, generation: nat)
    requires c.ready && generation <= c.generation
    ensures ApplyMutation(c, m).packetMutation > generation <==> Counts(m) || c.packetMutation > generation
  {
  }

  /** The count is noted as set since the capture exactly when it was. */
  lemma {:induction false} CountIsNoted(c: Cache, ms: seq<Mutation>)
    requires c.ready && JournalBounded(c)
    ensures ApplyAll(c, ms).packetMutation > c.generation <==> exists i :: 0 <= i < |ms| && Counts(ms[i])
  {
    if ms != [] {
      var init, m := ms[..|ms| - 1], ms[|ms| - 1];
      CountIsNoted(c, init);
      RunKeepsBound(c, init);
      CountOne(ApplyAll(c, init), m, c.generation);
      if i :| 0 <= i < |init| && Counts(init[i]) { assert Counts(ms[i]); }
      if i :| 0 <= i < |ms| && Counts(ms[i]) { assert i < |init| ==> Counts(init[i]); }
    }
  }

  /** A packet count set since the capture survives the replacement; without one the loaded count is
      taken, unless an activity came in and the held count is higher. */
  lemma CountSurvives(c: Cache, ms: seq<Mutation>, loaded: LiveState, merged: LiveState, c': Cache, preserved: bool)
    requires c.ready && JournalBounded(c)
    requires Replaced(ApplyAll(c, ms), loaded, Some(c.generation), merged, c', preserved)
    ensures var held := ApplyAll(c, ms).live;
            if exists i :: 0 <= i < |ms| && Counts(ms[i]) then c'.live.packets == held.packets
            else c'.live.packets == loaded.packets
                 || (RaceOf(ms).activity != {} && c'.live.packets == held.packets > loaded.packets)
  {
    var c1 := ApplyAll(c, ms);
    CountIsNoted(c, ms);
    RunKeepsBound(c, ms);
    RunNotes(c, ms);
    if preserved {
      OverlaidTotals(c1, loaded, c.generation, merged);
      RacedItemsFacts(c1.live.activity, c1.activityJournal, c.generation);
      var raced := RacedItems(c1.live.activity, c1.activityJournal, c.generation);
      if raced != [] { assert raced[0] in raced && raced[0].id in RaceOf(ms).activity; }
    }
  }
}

/** The snapshot label protocol (backend/internal/app/lifecycle.go, live/hub.go,
    live/public_cache.go). One producer commits public events, applies them to the cache and
    raises the hub sequence; a refresher captures the cache generation, reads the database,
    reads the hub sequence as label and replaces the cache. Steps of the two interleave freely. */
module LabelProtocol {
  import opened Shared
  import opened Sorting
  import opened PublicCache
  import opened CacheRaces

  /** A committed public event; its entry carries the event's sequence number. */
  datatype Event = Event(seqNo: int, update: Mutation)

  function EntryOf(update: Mutation): Entry
    requires !update.PacketCount?
  {
    match update
    case NodeUpdate(e) => e
    case ActivityUpdate(e) => e
    case PulseUpdate(e) => e
  }

  /** Activities and route pulses go to the cache before the hub; node updates the other way round. */
  predicate AppliedFirst(ev: Event) { ev.update.ActivityUpdate? || ev.update.PulseUpdate? }

  /** The two lists that such events are pushed in front of. */
  datatype Feed = Activity | Pulse

  predicate Feeds(update: Mutation, f: Feed) { if f.Activity? then update.ActivityUpdate? else update.PulseUpdate? }

  function FeedOf(ev: Event): Feed { if ev.update.ActivityUpdate? then Activity else Pulse }

  function ItemsOf(live: LiveState, f: Feed): seq<Entry> { if f.Activity? then live.activity else live.pulses }

  function LaneOf(c: Cache, f: Feed): Lane { if f.Activity? then ActivityLane(c) else PulseLane(c) }

  function LimitOf(f: Feed): nat { if f.Activity? then MAX_ACTIVITY else MAX_PULSES }

  datatype Refresher =
    | Idle
    | Captured(generation: nat)
    | Read(generation: nat, loaded: LiveState)
    | Labelled(generation: nat, loaded: LiveState)

  /** `done` events of the log are fully published and, if `half`, the next one is half way.
      The last five fields are history: the committed length seen by the database read under
      the current cache and under the refresh in progress, and the cache, the published length
      and the mutations since that refresh captured its generation. */
  datatype System = System(
    log: seq<Event>, lastSeq: int, done: nat, half: bool, hub: int, cache: Cache, refresher: Refresher,
    seen: nat, readSeen: nat, start: Cache, startEnd: nat, since: seq<Mutation>)

  datatype Step =
    | Commit(batch: seq<Event>)
    | ApplyNext
    | RaiseNext
    | CountPackets(count: int)
    | Capture
    | ReadStore(loaded: LiveState)
    | ReadLabel
    | Install(merged: LiveState, preserved: bool)

  predicate Ascending(log: seq<Event>, floor: int) {
    && (forall i | 0 <= i < |log| :: floor < log[i].seqNo)
    && (forall i, j | 0 <= i < j < |log| :: log[i].seqNo < log[j].seqNo)
  }

  /** Events are well formed and no two of the same kind share an id. */
  predicate LogOk(log: seq<Event>) {
    && (forall i | 0 <= i < |log| :: !log[i].update.PacketCount? && EntryOf(log[i].update).seqNo == log[i].seqNo)
    && (forall i, j | 0 <= i < j < |log| && SameKind(log[i], log[j]) ::
        EntryOf(log[i].update).id != EntryOf(log[j].update).id)
  }

  predicate SameKind(a: Event, b: Event) { AppliedFirst(a) && AppliedFirst(b) && FeedOf(a) == FeedOf(b) }

  function SeqHigh(events: seq<Event>, floor: int): int {
    if events == [] then floor else Max(SeqHigh(events[..|events| - 1], floor), events[|events| - 1].seqNo)
  }

  predicate Unsequenced(items: seq<Entry>) { forall x | x in items :: x.seqNo <= 0 }

  ghost predicate Enabled(s: System, step: Step) {
    match step
    case Commit(batch) => s.done == |s.log| && !s.half && batch != [] && Ascending(batch, s.lastSeq)
        && LogOk(s.log + batch)
    case ApplyNext => s.done < |s.log| && (s.half <==> !AppliedFirst(s.log[s.done]))
    case RaiseNext => s.done < |s.log| && (s.half <==> AppliedFirst(s.log[s.done]))
    case CountPackets(_) => true
    case Capture => s.refresher.Idle?
    case ReadStore(loaded) => s.refresher.Captured? && LoadedUnsequenced(loaded)
    case ReadLabel => s.refresher.Read?
    case Install(merged, preserved) =>
      s.refresher.Labelled? && Replaced(s.cache, s.refresher.loaded, Some(s.refresher.generation), merged,
                                        Installed(s.cache, merged), preserved)
  }

  function Mutate(s: System, m: Mutation): System {
    s.(cache := ApplyMutation(s.cache, m), since := s.since + [m])
  }

  /** The second of the two publication steps completes the event. */
  function Advance(s: System): System {
    if s.half then s.(half := false, done := s.done + 1) else s.(half := true)
  }

  function Do(s: System, step: Step): System
    requires Enabled(s, step)
  {
    match step
    case Commit(batch) => s.(log := s.log + batch, lastSeq := SeqHigh(batch, s.lastSeq))
    case ApplyNext => Advance(Mutate(s, s.log[s.done].update))
    case RaiseNext => Advance(s.(hub := Max(s.hub, s.log[s.done].seqNo)))
    case CountPackets(n) => Mutate(s, PacketCount(n))
    case Capture => s.(refresher := Captured(s.cache.generation), start := s.cache, startEnd := PublishedEnd(s),
                       since := [])
    case ReadStore(loaded) => s.(refresher := Read(s.refresher.generation, loaded), readSeen := |s.log|)
    case ReadLabel => s.(refresher := Labelled(s.refresher.generation, s.refresher.loaded.(latestSeq := s.hub)))
    case Install(merged, _) => s.(refresher := Idle, cache := Installed(s.cache, merged), seen := s.readSeen)
  }

  /** Log positions below this have been applied to the cache (activities and pulses). */
  function PublishedEnd(s: System): nat {
    if s.half && s.done < |s.log| && AppliedFirst(s.log[s.done]) then s.done + 1 else s.done
  }

  /** How many events have at least been half published. */
  function Begun(s: System): nat { if s.half then s.done + 1 else s.done }

  // ---------------------------------------------------------------------------
  // What "taken in" means
  // ---------------------------------------------------------------------------

  /** x is at least as recent as some entry of since. */
  predicate Outranks(x: Entry, since: seq<Entry>) { exists q | q in since :: x.at >= q.at }

  predicate AllOutrank(items: seq<Entry>, since: seq<Entry>) {
    forall i | 0 <= i < |items| :: Outranks(items[i], since)
  }

  /** e's id is shown in a version at least as new, at position i of the list. */
  predicate ShowsAt(items: seq<Entry>, i: nat, e: Entry) {
    i < |items| && items[i].id == e.id && Supersedes(items[i], e)
  }

  /** The list shows e, above it only entries at least as recent as something of since; or such
      entries fill it. */
  ghost predicate Shown(items: seq<Entry>, limit: nat, e: Entry, since: seq<Entry>) {
    || (exists i: nat :: ShowsAt(items, i, e) && AllOutrank(items[..i], since))
    || (|items| == limit && AllOutrank(items, since))
  }

  /** The events from k on that have been applied. */
  function AppliedFrom(s: System, k: nat): seq<Event> {
    if k <= PublishedEnd(s) <= |s.log| then s.log[k..PublishedEnd(s)] else []
  }

  /** The cache has taken in event k: the database read under it saw the event, or its list shows
      it among what was applied from it on. */
  ghost predicate TakenIn(s: System, k: nat)
    requires k < |s.log| && AppliedFirst(s.log[k])
  {
    var f := FeedOf(s.log[k]);
    || k < s.seen
    || Shown(ItemsOf(s.cache.live, f), LimitOf(f), EntryOf(s.log[k].update), Entries(AppliedFrom(s, k), f))
  }

  /** x is at least as recent as an event of the kind of event k applied no earlier than it. */
  predicate RecentFrom(s: System, k: nat, x: Entry)
    requires k < |s.log|
  {
    exists j | k <= j < PublishedEnd(s) && j < |s.log| && SameKind(s.log[j], s.log[k]) ::
      x.at >= EntryOf(s.log[j].update).at
  }

  /** The list of event k's kind is full, and of entries each at least as recent as an event of this
      kind applied no earlier than k. */
  ghost predicate Crowded(s: System, k: nat)
    requires k < |s.log|
  {
    var items := ItemsOf(s.cache.live, FeedOf(s.log[k]));
    |items| == LimitOf(FeedOf(s.log[k])) && forall x | x in items :: RecentFrom(s, k, x)
  }

  /** The snapshot reflects event k: the database read under it saw the event; or its list shows
      the event's id in a version at least as new; or recent entries fill the list. */
  ghost predicate Reflects(s: System, k: nat)
    requires k < |s.log| && AppliedFirst(s.log[k])
  {
    || k < s.seen
    || Present(ItemsOf(s.cache.live, FeedOf(s.log[k])), EntryOf(s.log[k].update))
    || Crowded(s, k)
  }

  /** Every activity and pulse event applied so far is reflected. */
  ghost predicate AllReflected(s: System) {
    forall k | 0 <= k < |s.log| && k < PublishedEnd(s) && AppliedFirst(s.log[k]) :: Reflects(s, k)
  }

  /** Every activity and pulse event up to the snapshot's label is reflected. */
  ghost predicate LabelCovered(s: System) {
    forall k | 0 <= k < |s.log| && AppliedFirst(s.log[k]) && s.log[k].seqNo <= s.cache.live.latestSeq :: Reflects(s, k)
  }

  // ---------------------------------------------------------------------------
  // Invariant
  // ---------------------------------------------------------------------------

  /** Every event numbered up to n has at least been half published. */
  ghost predicate Behind(s: System, n: int) {
    n <= s.lastSeq && forall k | 0 <= k < |s.log| && s.log[k].seqNo <= n :: k < Begun(s)
  }

  ghost predicate EntriesBehind(s: System, items: seq<Entry>) {
    forall x | x in items :: Behind(s, x.seqNo)
  }

  ghost predicate LabelsBehind(s: System) {
    && 0 <= s.lastSeq
    && Behind(s, 0) && Behind(s, s.hub) && Behind(s, s.cache.live.latestSeq)
    && EntriesBehind(s, s.cache.live.nodes) && EntriesBehind(s, s.cache.live.activity)
       && EntriesBehind(s, s.cache.live.pulses)
    && (s.refresher.Labelled? ==> Behind(s, s.refresher.loaded.latestSeq))
  }

  /** The feed's entries among the events, newest first. */
  function Entries(events: seq<Event>, f: Feed): seq<Entry> {
    if events == [] then []
    else
      var init, last := Entries(events[..|events| - 1], f), events[|events| - 1];
      if Feeds(last.update, f) then [EntryOf(last.update)] + init else init
  }

  function Updates(ms: seq<Mutation>, f: Feed): seq<Entry> {
    if ms == [] then []
    else
      var init, last := Updates(ms[..|ms| - 1], f), ms[|ms| - 1];
      if Feeds(last, f) then [EntryOf(last)] + init else init
  }

  /** The cache is what the mutations since the capture made of the captured one. */
  ghost predicate SinceCache(s: System) {
    && SizesOk(s.start) && s.start.ready && JournalBounded(s.start)
    && s.cache == ApplyAll(s.start, s.since)
  }

  /** Those mutations are those of the events published since, in order. */
  predicate SinceEvents(s: System) {
    && s.startEnd <= PublishedEnd(s) <= |s.log|
    && Updates(s.since, Activity) == Entries(s.log[s.startEnd..PublishedEnd(s)], Activity)
    && Updates(s.since, Pulse) == Entries(s.log[s.startEnd..PublishedEnd(s)], Pulse)
  }

  ghost predicate SinceCapture(s: System)
    requires !s.refresher.Idle?
  {
    && SinceCache(s) && SinceEvents(s) && s.refresher.generation == s.start.generation
    && (!s.refresher.Captured? ==> s.startEnd <= s.readSeen && LoadedUnsequenced(s.refresher.loaded))
  }

  predicate LoadedUnsequenced(loaded: LiveState) {
    Unsequenced(loaded.nodes) && Unsequenced(loaded.activity) && Unsequenced(loaded.pulses)
  }

  predicate SizesOk(c: Cache) { |c.live.activity| <= MAX_ACTIVITY && |c.live.pulses| <= MAX_PULSES }

  ghost predicate AppliedTaken(s: System) {
    forall k | 0 <= k < |s.log| && k < PublishedEnd(s) && AppliedFirst(s.log[k]) :: TakenIn(s, k)
  }

  ghost predicate Basics(s: System) {
    && LogOk(s.log) && s.done <= |s.log| && (s.half ==> s.done < |s.log|)
    && (forall i | 0 <= i < |s.log| :: s.log[i].seqNo <= s.lastSeq)
    && (forall i, j | 0 <= i < j < |s.log| :: s.log[i].seqNo < s.log[j].seqNo)
    && s.cache.ready && JournalBounded(s.cache) && SizesOk(s.cache)
  }

  /** What every step keeps in any run. */
  ghost predicate Core(s: System) { Basics(s) && LabelsBehind(s) && (!s.refresher.Idle? ==> SinceCapture(s)) }

  ghost predicate Inv(s: System) { Core(s) && AppliedTaken(s) }

  /** A ready cache whose label is covered, nothing half published, no refresh under way. */
  ghost predicate Init(s: System) {
    && Basics(s) && LabelsBehind(s) && AppliedTaken(s)
    && s.done == |s.log| && !s.half && s.refresher.Idle?
  }

  /** Everything up to the label is applied, or is a node update half way. */
  lemma LabelIsApplied(s: System, k: nat)
    requires Basics(s) && LabelsBehind(s) && k < |s.log| && s.log[k].seqNo <= s.cache.live.latestSeq
    ensures AppliedFirst(s.log[k]) ==> k < PublishedEnd(s)
  {
  }

  lemma {:induction false} EntriesMembers(events: seq<Event>, f: Feed)
    ensures forall x :: x in Entries(events, f) <==>
              exists i :: 0 <= i < |events| && Feeds(events[i].update, f) && EntryOf(events[i].update) == x
  {
    if events != [] {
      var n := |events| - 1;
      EntriesMembers(events[..n], f);
      forall x
        ensures x in Entries(events, f) <==>
                exists i :: 0 <= i < |events| && Feeds(events[i].update, f) && EntryOf(events[i].update) == x
      {
        if i :| 0 <= i < n && Feeds(events[i].update, f) && EntryOf(events[i].update) == x {
          assert events[..n][i] == events[i];
        }
      }
    }
  }

  lemma ShownIsPresentOrFull(items: seq<Entry>, limit: nat, e: Entry, since: seq<Entry>)
    requires Shown(items, limit, e, since)
    ensures Present(items, e) || (|items| == limit && forall x | x in items :: Outranks(x, since))
  {
    if i: nat :| ShowsAt(items, i, e) && AllOutrank(items[..i], since) { assert items[i] in items; }
  }

  /** An entry outranks what was applied from k on exactly when it is recent from k. */
  lemma OutranksIsRecent(s: System, k: nat, x: Entry)
    requires k < |s.log| && AppliedFirst(s.log[k]) && PublishedEnd(s) <= |s.log|
    ensures Outranks(x, Entries(AppliedFrom(s, k), FeedOf(s.log[k]))) <==> RecentFrom(s, k, x)
  {
    var events, f := AppliedFrom(s, k), FeedOf(s.log[k]);
    EntriesMembers(events, f);
    if Outranks(x, Entries(events, f)) {
      var q :| q in Entries(events, f) && x.at >= q.at;
      var i :| 0 <= i < |events| && Feeds(events[i].update, f) && EntryOf(events[i].update) == q;
      assert events[i] == s.log[k + i] && SameKind(s.log[k + i], s.log[k]);
    }
    if RecentFrom(s, k, x) {
      var j :| k <= j < PublishedEnd(s) && j < |s.log| && SameKind(s.log[j], s.log[k])
               && x.at >= EntryOf(s.log[j].update).at;
      assert events[j - k] == s.log[j];
      assert EntryOf(s.log[j].update) in Entries(events, f);
    }
  }

  lemma TakenInIsReflected(s: System, k: nat)
    requires k < |s.log| && AppliedFirst(s.log[k]) && PublishedEnd(s) <= |s.log| && TakenIn(s, k)
    ensures Reflects(s, k)
  {
    var f := FeedOf(s.log[k]);
    var items, e := ItemsOf(s.cache.live, f), EntryOf(s.log[k].update);
    if k >= s.seen && !Present(items, e) {
      ShownIsPresentOrFull(items, LimitOf(f), e, Entries(AppliedFrom(s, k), f));
      forall x | x in items ensures RecentFrom(s, k, x) { OutranksIsRecent(s, k, x); }
    }
  }

  lemma CoveredFromInv(s: System)
    requires Inv(s)
    ensures AllReflected(s) && LabelCovered(s)
  {
    forall k | 0 <= k < |s.log| && k < PublishedEnd(s) && AppliedFirst(s.log[k]) ensures Reflects(s, k) {
      TakenInIsReflected(s, k);
    }
    forall k | 0 <= k < |s.log| && AppliedFirst(s.log[k]) && s.log[k].seqNo <= s.cache.live.latestSeq
      ensures Reflects(s, k)
    {
      LabelIsApplied(s, k);
    }
  }

  // ---------------------------------------------------------------------------
  // The list after pushes, and after a replacement
  // ---------------------------------------------------------------------------

  lemma PushOne(c: Cache, m: Mutation, f: Feed)
    requires c.ready
    ensures var items := ItemsOf(c.live, f);
            ItemsOf(ApplyMutation(c, m).live, f) ==
            if Feeds(m, f) then Limit([EntryOf(m)] + items, LimitOf(f)) else items
  {
    OtherLists(c, m);
  }

  lemma LimitPush(pushed: seq<Entry>, before: seq<Entry>, e: Entry, limit: nat)
    ensures Limit([e] + Limit(pushed + before, limit), limit) == Limit([e] + pushed + before, limit)
  {
    var all := pushed + before;
    assert [e] + pushed + before == [e] + all;
    if |all| > limit > 0 { assert ([e] + all[..limit])[..limit] == ([e] + all)[..limit]; }
  }

  /** Entries are pushed in front; the limit cuts the oldest. */
  lemma {:induction false} PushedItems(c: Cache, ms: seq<Mutation>, f: Feed)
    requires c.ready && |ItemsOf(c.live, f)| <= LimitOf(f)
    ensures ApplyAll(c, ms).ready
    ensures ItemsOf(ApplyAll(c, ms).live, f) == Limit(Updates(ms, f) + ItemsOf(c.live, f), LimitOf(f))
  {
    var before := ItemsOf(c.live, f);
    if ms == [] {
      assert [] + before == before;
    } else {
      var init, m := ms[..|ms| - 1], ms[|ms| - 1];
      PushedItems(c, init, f);
      PushOne(ApplyAll(c, init), m, f);
      if Feeds(m, f) {
        LimitPush(Updates(init, f), before, EntryOf(m), LimitOf(f));
        assert Updates(ms, f) == [EntryOf(m)] + Updates(init, f);
      }
    }
  }

  lemma {:induction false} IdCount(items: seq<Entry>)
    requires UniqueIds(items)
    ensures |IdsOf(items)| == |items|
  {
    if items != [] {
      var n := |items| - 1;
      IdCount(items[..n]);
      assert items == items[..n] + [items[n]];
      assert IdsOf(items) == IdsOf(items[..n]) + {items[n].id};
      assert items[n].id !in IdsOf(items[..n]);
    }
  }

  lemma {:induction false} IdsFit(items: seq<Entry>)
    ensures |IdsOf(items)| <= |items|
  {
    if items != [] {
      var n := |items| - 1;
      IdsFit(items[..n]);
      assert items == items[..n] + [items[n]];
      assert IdsOf(items) == IdsOf(items[..n]) + {items[n].id};
    }
  }

  /** Of limit many distinct ids that the merged list shows, one lies at or below position j. */
  lemma OneLiesBelow(top: seq<Entry>, merged: seq<Entry>, j: nat) returns (x: Entry, t: nat)
    requires UniqueIds(top) && j < |top| && forall y | y in top :: Present(merged, y)
    ensures x in top && j <= t && ShowsAt(merged, t, x)
  {
    var above := merged[..Min(j, |merged|)];
    if IdsOf(top) <= IdsOf(above) {
      IdCount(top);
      IdsFit(above);
      SubsetFits(IdsOf(top), IdsOf(above));
    }
    assert forall i | 0 <= i < |above| :: merged[i] == above[i] && merged[i].id in IdsOf(above);
    var id :| id in IdsOf(top) && id !in IdsOf(above);
    x :| x in top && x.id == id;
    var y :| y in merged && y.id == x.id && Supersedes(y, x);
    t :| 0 <= t < |merged| && merged[t] == y;
  }

  lemma RankedAbove(merged: seq<Entry>, j: nat, t: nat)
    requires Ordered(HeardFirst(), merged) && j <= t < |merged|
    ensures merged[j].at >= merged[t].at
  {
    if j < t { assert !HeardFirst()(merged[t], merged[j]); }
  }

  /** What lies above an entry shown in a ranked list outranks it. */
  lemma AboveOutranks(merged: seq<Entry>, t: nat, n: nat, e: Entry, since: seq<Entry>)
    requires Ordered(HeardFirst(), merged) && ShowsAt(merged, t, e) && n <= t && e in since
    ensures AllOutrank(merged[..n], since)
  {
    forall j | 0 <= j < n ensures Outranks(merged[..n][j], since) {
      RankedAbove(merged, j, t);
      assert merged[..n][j].at >= e.at;
    }
  }

  /** An entry pushed since the capture that the limit has already cut off again: the pushed
      entries above it fill the merged list. */
  lemma CutOffIsOutranked(top: seq<Entry>, merged: seq<Entry>, limit: nat, since: seq<Entry>)
    requires |top| == limit && UniqueIds(top) && (forall y | y in top :: Present(merged, y) && y in since)
    requires Ordered(HeardFirst(), merged)
    ensures |Limit(merged, limit)| == limit && AllOutrank(Limit(merged, limit), since)
  {
    if |merged| < limit { var x, t := OneLiesBelow(top, merged, |merged|); }
    forall j | 0 <= j < limit ensures Outranks(Limit(merged, limit)[j], since) {
      var x, t := OneLiesBelow(top, merged, j);
      RankedAbove(merged, j, t);
      assert merged[j].at >= x.at;
    }
  }

  /** The i-th newest entry pushed since the capture is shown by the replaced list among the
      entries pushed no earlier, if those still held survive. */
  lemma PushedIsShown(before: seq<Entry>, pushed: seq<Entry>, merged: seq<Entry>, limit: nat, i: nat)
    requires UniqueIds(pushed) && i < |pushed| && Ordered(HeardFirst(), merged)
    requires forall y | y in pushed[..i + 1] && y in Limit(pushed + before, limit) :: Present(merged, y)
    ensures Shown(Limit(merged, limit), limit, pushed[i], pushed[..i + 1])
  {
    var held, e, since := Limit(pushed + before, limit), pushed[i], pushed[..i + 1];
    assert since[i] == e;
    if i < limit {
      assert held[i] == e;
      PresentIsShown(merged, limit, e, since);
    } else {
      var top := pushed[..limit];
      assert held == top;
      forall y | y in top ensures Present(merged, y) && y in since {
        var j :| 0 <= j < limit && top[j] == y;
        assert since[j] == y;
      }
      CutOffIsOutranked(top, merged, limit, since);
    }
  }

  /** since are the newest of the entries pushed in front of before; held is what the limit leaves. */
  ghost predicate NewestOf(since: seq<Entry>, pushed: seq<Entry>, before: seq<Entry>, held: seq<Entry>, limit: nat) {
    && UniqueIds(pushed) && 0 < |since| <= |pushed| && since == pushed[..|since|]
    && held == Limit(pushed + before, limit)
  }

  ghost predicate HeldSurvive(since: seq<Entry>, held: seq<Entry>, merged: seq<Entry>) {
    forall y | y in since && y in held :: Present(merged, y)
  }

  /** The oldest of them is shown by the replaced list, if those still held survive. */
  lemma OldestIsShown(since: seq<Entry>, pushed: seq<Entry>, before: seq<Entry>, held: seq<Entry>, merged: seq<Entry>,
                      limit: nat, e: Entry)
    requires NewestOf(since, pushed, before, held, limit) && since[|since| - 1] == e
    requires HeldSurvive(since, held, merged) && Ordered(HeardFirst(), merged)
    ensures Shown(Limit(merged, limit), limit, e, since)
  {
    assert pushed[..|since| - 1 + 1] == since;
    PushedIsShown(before, pushed, merged, limit, |since| - 1);
  }

  lemma PresentIsShown(merged: seq<Entry>, limit: nat, e: Entry, since: seq<Entry>)
    requires Ordered(HeardFirst(), merged) && Present(merged, e) && e in since
    ensures Shown(Limit(merged, limit), limit, e, since)
  {
    var y :| y in merged && y.id == e.id && Supersedes(y, e);
    var t :| 0 <= t < |merged| && merged[t] == y;
    if t < limit {
      AboveOutranks(merged, t, t, e, since);
      assert Limit(merged, limit)[..t] == merged[..t] && ShowsAt(Limit(merged, limit), t, e);
    } else {
      AboveOutranks(merged, t, limit, e, since);
    }
  }
}

/** Safety of the snapshot label protocol over whole runs: exactly when every snapshot reflects
    every activity and route pulse event applied before it, and so those up to its label. */
module LabelSafety {
  import opened Shared
  import opened Sorting
  import opened PublicCache
  import opened CacheRaces
  import opened LabelProtocol

  // ---------------------------------------------------------------------------
  // Basics
  // ---------------------------------------------------------------------------

  lemma {:induction false} SeqHighFacts(events: seq<Event>, floor: int)
    ensures floor <= SeqHigh(events, floor)
    ensures forall i | 0 <= i < |events| :: events[i].seqNo <= SeqHigh(events, floor)
  {
    if events != [] { SeqHighFacts(events[..|events| - 1], floor); }
  }

  lemma MutationKeepsSizes(c: Cache, m: Mutation)
    requires SizesOk(c)
    ensures SizesOk(ApplyMutation(c, m)) && ApplyMutation(c, m).ready == c.ready
  {
  }

  lemma StepBasics(s: System, step: Step)
    requires Core(s) && Enabled(s, step)
    ensures Basics(Do(s, step))
  {
    match step
    case Commit(batch) => SeqHighFacts(batch, s.lastSeq);
    case ApplyNext =>
      MutationKeepsBound(s.cache, s.log[s.done].update);
      MutationKeepsSizes(s.cache, s.log[s.done].update);
    case CountPackets(n) =>
      MutationKeepsBound(s.cache, PacketCount(n));
      MutationKeepsSizes(s.cache, PacketCount(n));
    case Install(merged, preserved) =>
      ReplacementKeepsBound(s.cache, s.refresher.loaded, Some(s.refresher.generation), merged,
                            Installed(s.cache, merged), preserved);
    case _ =>
  }

  /** How a step moves the published end of the log. */
  lemma EndMoves(s: System, step: Step)
    requires Basics(s) && Enabled(s, step)
    ensures PublishedEnd(s) <= PublishedEnd(Do(s, step)) <= |Do(s, step).log|
    ensures PublishedEnd(Do(s, step)) == if step.ApplyNext? then s.done + 1 else PublishedEnd(s)
    ensures step.ApplyNext? ==> PublishedEnd(s) == s.done
    ensures Begun(s) <= Begun(Do(s, step))
    ensures step.ApplyNext? || step.RaiseNext? ==> s.done < Begun(Do(s, step))
  {
  }

  // ---------------------------------------------------------------------------
  // Labels
  // ---------------------------------------------------------------------------

  lemma BehindStays(s: System, s': System, n: int)
    requires Behind(s, n) && s.lastSeq <= s'.lastSeq && Begun(s) <= Begun(s')
    requires |s.log| <= |s'.log| && s.log == s'.log[..|s.log|]
    requires forall k | |s.log| <= k < |s'.log| :: s'.log[k].seqNo > s.lastSeq
    ensures Behind(s', n)
  {
    forall k | 0 <= k < |s'.log| && s'.log[k].seqNo <= n ensures k < Begun(s') {
      if k < |s.log| { assert s'.log[k] == s.log[k]; }
    }
  }

  lemma StepBehind(s: System, step: Step, n: int)
    requires Basics(s) && Enabled(s, step) && Behind(s, n)
    ensures Behind(Do(s, step), n)
  {
    EndMoves(s, step);
    if step.Commit? { SeqHighFacts(step.batch, s.lastSeq); }
    BehindStays(s, Do(s, step), n);
  }

  lemma BehindDown(s: System, n: int, m: int)
    requires Behind(s, n) && m <= n
    ensures Behind(s, m)
  {
  }

  /** Once an event is half published, so is everything up to it. */
  lemma BehindNext(s: System, step: Step)
    requires Basics(s) && Enabled(s, step) && (step.ApplyNext? || step.RaiseNext?)
    ensures Behind(Do(s, step), s.log[s.done].seqNo)
  {
    EndMoves(s, step);
    var s' := Do(s, step);
    forall k | 0 <= k < |s'.log| && s'.log[k].seqNo <= s.log[s.done].seqNo ensures k < Begun(s') {
      assert k <= s.done;
    }
  }

  lemma MutationEntries(c: Cache, m: Mutation, x: Entry)
    requires !m.PacketCount?
    ensures x in ApplyMutation(c, m).live.nodes ==> x in c.live.nodes || x == EntryOf(m)
    ensures x in ApplyMutation(c, m).live.activity ==> x in c.live.activity || x == EntryOf(m)
    ensures x in ApplyMutation(c, m).live.pulses ==> x in c.live.pulses || x == EntryOf(m)
  {
    if m.NodeUpdate? { WithoutFacts(c.live.nodes, m.node.id); }
  }

  lemma MutationLabel(c: Cache, m: Mutation)
    requires !m.PacketCount?
    ensures var n := ApplyMutation(c, m).live.latestSeq; n == c.live.latestSeq || n == EntryOf(m).seqNo
  {
  }

  lemma ApplyLabels(s: System)
    requires Core(s) && Enabled(s, ApplyNext)
    ensures LabelsBehind(Do(s, ApplyNext))
  {
    var s' := Do(s, ApplyNext);
    var m := s.log[s.done].update;
    BehindNext(s, ApplyNext);
    MutationLabel(s.cache, m);
    StepBehind(s, ApplyNext, 0);
    StepBehind(s, ApplyNext, s.hub);
    StepBehind(s, ApplyNext, s.cache.live.latestSeq);
    if s.refresher.Labelled? { StepBehind(s, ApplyNext, s.refresher.loaded.latestSeq); }
    forall x | x in s'.cache.live.nodes || x in s'.cache.live.activity || x in s'.cache.live.pulses
      ensures Behind(s', x.seqNo)
    {
      MutationEntries(s.cache, m, x);
      if x != EntryOf(m) { StepBehind(s, ApplyNext, x.seqNo); }
    }
  }

  lemma {:induction false} MaxSeqNoBehind(s: System, items: seq<Entry>, floor: int)
    requires Behind(s, floor) && EntriesBehind(s, items)
    ensures Behind(s, MaxSeqNo(items, floor))
  {
    if items != [] {
      var n := |items| - 1;
      assert items[n] in items && forall x | x in items[..n] :: x in items;
      MaxSeqNoBehind(s, items[..n], floor);
    }
  }

  lemma RacedBehind(s: System, items: seq<Entry>, journal: Journal, generation: nat)
    requires EntriesBehind(s, items)
    ensures EntriesBehind(s, RacedItems(items, journal, generation))
  {
    RacedItemsFacts(items, journal, generation);
  }

  lemma MergedBehind(s: System, loaded: seq<Entry>, overlay: seq<Entry>, merged: seq<Entry>)
    requires Behind(s, 0) && Unsequenced(loaded) && EntriesBehind(s, overlay)
    requires Lists(MergeMap(loaded, overlay), merged)
    ensures EntriesBehind(s, merged)
  {
    MergeFacts(loaded, overlay);
    forall x | x in merged ensures Behind(s, x.seqNo) {
      if x in loaded { BehindDown(s, 0, x.seqNo); }
    }
  }

  lemma LoadedBehind(s: System, loaded: seq<Entry>)
    requires Behind(s, 0) && Unsequenced(loaded)
    ensures EntriesBehind(s, loaded)
  {
    forall x | x in loaded ensures Behind(s, x.seqNo) { BehindDown(s, 0, x.seqNo); }
  }

  /** The state a replacement installs carries no label ahead of what has been applied. */
  lemma MergedLabels(s: System, merged: LiveState, preserved: bool)
    requires Core(s) && Enabled(s, Install(merged, preserved))
    ensures Behind(s, merged.latestSeq)
    ensures EntriesBehind(s, merged.nodes) && EntriesBehind(s, merged.activity) && EntriesBehind(s, merged.pulses)
  {
    var loaded, g := s.refresher.loaded, s.refresher.generation;
    if preserved {
      var c := s.cache;
      var nodes := RacedItems(c.live.nodes, c.nodeJournal, g);
      var activity := RacedItems(c.live.activity, c.activityJournal, g);
      var pulses := RacedItems(c.live.pulses, c.pulseJournal, g);
      RacedBehind(s, c.live.nodes, c.nodeJournal, g);
      RacedBehind(s, c.live.activity, c.activityJournal, g);
      RacedBehind(s, c.live.pulses, c.pulseJournal, g);
      MaxSeqNoBehind(s, nodes, loaded.latestSeq);
      MaxSeqNoBehind(s, activity, MaxSeqNo(nodes, loaded.latestSeq));
      MaxSeqNoBehind(s, pulses, MaxSeqNo(activity, MaxSeqNo(nodes, loaded.latestSeq)));
      MergedBehind(s, loaded.nodes, nodes, merged.nodes);
      MergedBehind(s, loaded.activity, activity, merged.activity);
      MergedBehind(s, loaded.pulses, pulses, merged.pulses);
    } else {
      LoadedBehind(s, loaded.nodes);
      LoadedBehind(s, loaded.activity);
      LoadedBehind(s, loaded.pulses);
    }
  }

  lemma InstallLabels(s: System, merged: LiveState, preserved: bool)
    requires Core(s) && Enabled(s, Install(merged, preserved))
    ensures LabelsBehind(Do(s, Install(merged, preserved)))
  {
    var s' := Do(s, Install(merged, preserved));
    MergedLabels(s, merged, preserved);
    forall n | Behind(s, n) ensures Behind(s', n) { StepBehind(s, Install(merged, preserved), n); }
  }

  lemma OtherLabels(s: System, step: Step)
    requires Core(s) && Enabled(s, step) && !step.ApplyNext? && !step.Install?
    ensures LabelsBehind(Do(s, step))
  {
    var s' := Do(s, step);
    forall n | Behind(s, n) ensures Behind(s', n) { StepBehind(s, step, n); }
    if step.RaiseNext? { BehindNext(s, step); }
    if step.CountPackets? { OtherLists(s.cache, PacketCount(step.count)); }
  }

  lemma StepLabels(s: System, step: Step)
    requires Core(s) && Enabled(s, step)
    ensures LabelsBehind(Do(s, step))
  {
    match step
    case ApplyNext => ApplyLabels(s);
    case Install(merged, preserved) => InstallLabels(s, merged, preserved);
    case _ => OtherLabels(s, step);
  }

  // ---------------------------------------------------------------------------
  // Since the capture
  // ---------------------------------------------------------------------------

  lemma ExtendCache(s: System, m: Mutation, s': System)
    requires SinceCache(s)
    requires s'.start == s.start && s'.since == s.since + [m] && s'.cache == ApplyMutation(s.cache, m)
    ensures SinceCache(s')
  {
    assert (s.since + [m])[..|s.since|] == s.since;
  }

  lemma UpdatesSnoc(ms: seq<Mutation>, m: Mutation, f: Feed)
    ensures Updates(ms + [m], f) == if Feeds(m, f) then [EntryOf(m)] + Updates(ms, f) else Updates(ms, f)
  {
    assert (ms + [m])[..|ms|] == ms;
  }

  lemma NewestLast(events: seq<Event>, ev: Event, f: Feed)
    ensures Entries(events + [ev], f) ==
            if Feeds(ev.update, f) then [EntryOf(ev.update)] + Entries(events, f) else Entries(events, f)
  {
    assert (events + [ev])[..|events|] == events;
  }

  lemma SliceSnoc(log: seq<Event>, lo: nat, hi: nat)
    requires lo <= hi < |log|
    ensures log[lo..hi + 1] == log[lo..hi] + [log[hi]]
  {
  }

  lemma ExtendEvents(s: System, s': System)
    requires SinceEvents(s) && PublishedEnd(s) == s.done < |s.log| && PublishedEnd(s') == s.done + 1 && s'.log == s.log
    requires s'.startEnd == s.startEnd && s'.since == s.since + [s.log[s.done].update]
    ensures SinceEvents(s')
  {
    SliceSnoc(s.log, s.startEnd, s.done);
    forall f: Feed ensures Updates(s'.since, f) == Entries(s'.log[s.startEnd..s.done + 1], f) {
      UpdatesSnoc(s.since, s.log[s.done].update, f);
      NewestLast(s.log[s.startEnd..s.done], s.log[s.done], f);
    }
  }

  lemma ApplySince(s: System)
    requires Core(s) && Enabled(s, ApplyNext) && !s.refresher.Idle?
    ensures SinceCapture(Do(s, ApplyNext))
  {
    EndMoves(s, ApplyNext);
    ExtendCache(s, s.log[s.done].update, Do(s, ApplyNext));
    ExtendEvents(s, Do(s, ApplyNext));
  }

  lemma CountSince(s: System, n: int)
    requires Core(s) && !s.refresher.Idle?
    ensures SinceCapture(Do(s, CountPackets(n)))
  {
    ExtendCache(s, PacketCount(n), Do(s, CountPackets(n)));
    UpdatesSnoc(s.since, PacketCount(n), Activity);
    UpdatesSnoc(s.since, PacketCount(n), Pulse);
  }

  lemma CaptureSince(s: System)
    requires Core(s) && Enabled(s, Capture)
    ensures SinceCapture(Do(s, Capture))
  {
    assert s.log[PublishedEnd(s)..PublishedEnd(s)] == [];
  }

  lemma SameSince(s: System, s': System)
    requires !s.refresher.Idle? && !s'.refresher.Idle? && SinceCapture(s)
    requires |s.log| <= |s'.log| && s.log == s'.log[..|s.log|] && PublishedEnd(s') == PublishedEnd(s)
    requires s'.start == s.start && s'.startEnd == s.startEnd && s'.since == s.since && s'.cache == s.cache
    requires s'.refresher.generation == s.refresher.generation
    requires !s'.refresher.Captured? ==> s'.startEnd <= s'.readSeen && LoadedUnsequenced(s'.refresher.loaded)
    ensures SinceCapture(s')
  {
    PrefixSlice(s.log, s'.log, s.startEnd, PublishedEnd(s));
  }

  lemma StepSince(s: System, step: Step)
    requires Core(s) && Enabled(s, step) && !Do(s, step).refresher.Idle?
    ensures SinceCapture(Do(s, step))
  {
    match step
    case ApplyNext => ApplySince(s);
    case CountPackets(n) => CountSince(s, n);
    case Capture => CaptureSince(s);
    case Install(_, _) =>
    case _ =>
      EndMoves(s, step);
      SameSince(s, Do(s, step));
  }

  /** Every step, whatever it evicts, keeps the core of the invariant. */
  lemma StepKeepsCore(s: System, step: Step)
    requires Core(s) && Enabled(s, step)
    ensures Core(Do(s, step))
  {
    StepBasics(s, step);
    StepLabels(s, step);
    if !Do(s, step).refresher.Idle? { StepSince(s, step); }
  }

  // ---------------------------------------------------------------------------
  // Taken in
  // ---------------------------------------------------------------------------

  lemma OutranksStays(items: seq<Entry>, x: Entry, since: seq<Entry>)
    requires AllOutrank(items, since)
    ensures AllOutrank([x] + items, [x] + since)
  {
    forall i | 0 <= i < |[x] + items| ensures Outranks(([x] + items)[i], [x] + since) {
      if i == 0 {
        assert x in [x] + since;
      } else {
        assert Outranks(items[i - 1], since);
        var q :| q in since && items[i - 1].at >= q.at;
        assert q in [x] + since;
      }
    }
  }

  lemma PartOutranks(items: seq<Entry>, n: nat, since: seq<Entry>)
    requires AllOutrank(items, since) && n <= |items|
    ensures AllOutrank(items[..n], since)
  {
  }

  lemma ShownAfterPush(items: seq<Entry>, limit: nat, x: Entry, e: Entry, since: seq<Entry>)
    requires Shown(items, limit, e, since) && 0 < |items| <= limit
    ensures Shown(Limit([x] + items, limit), limit, e, [x] + since)
  {
    var next := Limit([x] + items, limit);
    if i: nat :| ShowsAt(items, i, e) && AllOutrank(items[..i], since) {
      OutranksStays(items[..i], x, since);
      if i + 1 < limit {
        assert next[..i + 1] == [x] + items[..i] && ShowsAt(next, i + 1, e);
      } else {
        assert next == [x] + items[..i];
      }
    } else {
      OutranksStays(items, x, since);
      PartOutranks([x] + items, limit, [x] + since);
    }
  }

  lemma PushedShown(items: seq<Entry>, limit: nat, x: Entry, since: seq<Entry>)
    requires limit > 0
    ensures Shown(Limit([x] + items, limit), limit, x, since)
  {
    var next := Limit([x] + items, limit);
    assert ShowsAt(next, 0, x) && AllOutrank(next[..0], since);
  }

  /** One more applied event extends what was applied from k on. */
  lemma AppliedGrows(s: System, k: nat)
    requires Basics(s) && Enabled(s, ApplyNext) && k <= s.done
    ensures AppliedFrom(Do(s, ApplyNext), k) == AppliedFrom(s, k) + [s.log[s.done]]
  {
    EndMoves(s, ApplyNext);
  }

  lemma ApplyShowsItself(s: System)
    requires Inv(s) && Enabled(s, ApplyNext) && AppliedFirst(s.log[s.done])
    ensures TakenIn(Do(s, ApplyNext), s.done)
  {
    var m, f := s.log[s.done].update, FeedOf(s.log[s.done]);
    PushOne(s.cache, m, f);
    PushedShown(ItemsOf(s.cache.live, f), LimitOf(f), EntryOf(m), Entries(AppliedFrom(Do(s, ApplyNext), s.done), f));
  }

  lemma ShownIsHeld(items: seq<Entry>, limit: nat, e: Entry, since: seq<Entry>)
    requires Shown(items, limit, e, since) && limit > 0
    ensures items != []
  {
  }

  /** An event taken in stays taken in when the next one is applied. */
  lemma ApplyKeepsTaken(s: System, k: nat)
    requires Inv(s) && Enabled(s, ApplyNext) && k < s.done && AppliedFirst(s.log[k]) && TakenIn(s, k)
    ensures TakenIn(Do(s, ApplyNext), k)
  {
    var m, f := s.log[s.done].update, FeedOf(s.log[k]);
    var items, e, since := ItemsOf(s.cache.live, f), EntryOf(s.log[k].update), Entries(AppliedFrom(s, k), f);
    PushOne(s.cache, m, f);
    AppliedGrows(s, k);
    NewestLast(AppliedFrom(s, k), s.log[s.done], f);
    if k >= s.seen && Feeds(m, f) {
      ShownIsHeld(items, LimitOf(f), e, since);
      ShownAfterPush(items, LimitOf(f), EntryOf(m), e, since);
    }
  }

  lemma ApplyTaken(s: System)
    requires Inv(s) && Enabled(s, ApplyNext)
    ensures AppliedTaken(Do(s, ApplyNext))
  {
    var s' := Do(s, ApplyNext);
    EndMoves(s, ApplyNext);
    forall k | 0 <= k < |s'.log| && k < PublishedEnd(s') && AppliedFirst(s'.log[k]) ensures TakenIn(s', k) {
      if k == s.done { ApplyShowsItself(s); } else { ApplyKeepsTaken(s, k); }
    }
  }

  /** A step that leaves the two lists and the published end alone leaves everything taken in. */
  lemma SameTaken(s: System, s': System)
    requires AppliedTaken(s) && PublishedEnd(s') == PublishedEnd(s) <= |s.log| <= |s'.log| && s.log == s'.log[..|s.log|]
    requires s'.cache.live.activity == s.cache.live.activity && s'.cache.live.pulses == s.cache.live.pulses
    requires s'.seen == s.seen
    ensures AppliedTaken(s')
  {
    forall k | 0 <= k < |s'.log| && k < PublishedEnd(s') && AppliedFirst(s'.log[k]) ensures TakenIn(s', k) {
      assert s'.log[k] == s.log[k];
      assert TakenIn(s, k);
      PrefixSlice(s.log, s'.log, k, PublishedEnd(s));
    }
  }

  // ---------------------------------------------------------------------------
  // Mutations since the capture
  // ---------------------------------------------------------------------------

  lemma {:induction false} EntriesDistinct(events: seq<Event>, f: Feed)
    requires LogOk(events)
    ensures UniqueIds(Entries(events, f))
  {
    if events != [] {
      var n := |events| - 1;
      EntriesDistinct(events[..n], f);
      EntriesMembers(events[..n], f);
      if Feeds(events[n].update, f) {
        forall x | x in Entries(events[..n], f) ensures x.id != EntryOf(events[n].update).id {
          var i :| 0 <= i < n && Feeds(events[..n][i].update, f) && EntryOf(events[..n][i].update) == x;
          assert SameKind(events[i], events[n]);
        }
      }
    }
  }

  lemma SliceOk(log: seq<Event>, lo: nat, hi: nat)
    requires LogOk(log) && lo <= hi <= |log|
    ensures LogOk(log[lo..hi])
  {
  }

  lemma {:induction false} NewestFirst(a: seq<Event>, b: seq<Event>, f: Feed)
    ensures Entries(a + b, f) == Entries(b, f) + Entries(a, f)
  {
    if b == [] {
      assert a + b == a;
    } else {
      var init, last := b[..|b| - 1], b[|b| - 1];
      assert (a + b)[..|a + b| - 1] == a + init && (a + b)[|a + b| - 1] == last;
      NewestFirst(a, init, f);
      assert Entries(b, f) == if Feeds(last.update, f) then [EntryOf(last.update)] + Entries(init, f)
                              else Entries(init, f);
    }
  }

  /** The oldest entry of the events from an event of the feed on is that event's own. */
  lemma OldestIsFirst(events: seq<Event>, f: Feed)
    requires events != [] && Feeds(events[0].update, f)
    ensures var all := Entries(events, f); all != [] && all[|all| - 1] == EntryOf(events[0].update)
  {
    assert events == [events[0]] + events[1..] && [] + [events[0]] == [events[0]];
    NewestFirst([events[0]], events[1..], f);
    NewestLast([], events[0], f);
  }

  lemma SplitSince(log: seq<Event>, lo: nat, k: nat, hi: nat)
    requires lo <= k < hi <= |log|
    ensures log[lo..hi] == log[lo..k] + log[k..hi] && log[k..hi] != [] && log[k..hi][0] == log[k]
  {
  }

  /** Event k is the oldest of the mutations since the capture that come from k on. */
  lemma SinceEvent(s: System, k: nat, f: Feed)
    requires Core(s) && !s.refresher.Idle? && s.startEnd <= k < PublishedEnd(s) && Feeds(s.log[k].update, f)
    ensures var n := |Entries(AppliedFrom(s, k), f)|;
            && 0 < n <= |Updates(s.since, f)| && Updates(s.since, f)[n - 1] == EntryOf(s.log[k].update)
            && Updates(s.since, f)[..n] == Entries(AppliedFrom(s, k), f)
    ensures UniqueIds(Updates(s.since, f))
  {
    SplitSince(s.log, s.startEnd, k, PublishedEnd(s));
    NewestFirst(s.log[s.startEnd..k], s.log[k..PublishedEnd(s)], f);
    OldestIsFirst(s.log[k..PublishedEnd(s)], f);
    SliceOk(s.log, s.startEnd, PublishedEnd(s));
    EntriesDistinct(s.log[s.startEnd..PublishedEnd(s)], f);
  }

  // ---------------------------------------------------------------------------
  // A replacement
  // ---------------------------------------------------------------------------

  /** Event k was applied, but too late for the store read of the refresh. */
  predicate Late(s: System, k: nat) { s.readSeen <= k < PublishedEnd(s) && k < |s.log| && AppliedFirst(s.log[k]) }

  /** ... and its entry is still held. */
  predicate HeldLate(s: System, k: nat) {
    Late(s, k) && EntryOf(s.log[k].update) in ItemsOf(s.cache.live, FeedOf(s.log[k]))
  }

  /** The replacement can tell that event k's entry has to be kept: the journal still has its id, or
      the loaded list has it in a version at least as new. */
  predicate CanRestore(s: System, k: nat)
    requires s.refresher.Labelled? && k < |s.log| && AppliedFirst(s.log[k])
  {
    var f := FeedOf(s.log[k]);
    Recoverable(ItemsOf(s.refresher.loaded, f), LaneOf(s.cache, f), s.refresher.generation, EntryOf(s.log[k].update))
  }

  /** A replacement finds every late entry still held recoverable, or crowds it out. */
  ghost predicate Restores(s: System, step: Step)
    requires Enabled(s, step)
  {
    step.Install? ==> forall k | HeldLate(s, k) :: CanRestore(s, k) || Crowded(Do(s, step), k)
  }

  /** With something pushed since the capture, the refresh overlays and ranks. */
  lemma LateMeansOverlaid(s: System, merged: LiveState, preserved: bool, k: nat)
    requires Core(s) && Enabled(s, Install(merged, preserved)) && Late(s, k)
    ensures preserved && Ordered(HeardFirst(), ItemsOf(merged, FeedOf(s.log[k])))
  {
    var f := FeedOf(s.log[k]);
    SinceEvent(s, k, f);
    UpdatesAreRaced(s.since, f);
    assert Updates(s.since, f)[0] in Updates(s.since, f);
    ReplacementIsGenuine(s.start, s.since, s.refresher.loaded, merged, Installed(s.cache, merged), preserved);
  }

  lemma {:induction false} UpdatesAreRaced(ms: seq<Mutation>, f: Feed)
    ensures forall x | x in Updates(ms, f) :: x.id in RacedOf(ms, f)
  {
    if ms != [] { UpdatesAreRaced(ms[..|ms| - 1], f); }
  }

  function RacedOf(ms: seq<Mutation>, f: Feed): set<string> {
    if f.Activity? then RaceOf(ms).activity else RaceOf(ms).pulses
  }

  /** A held entry comes through the replacement exactly when it is recoverable. */
  lemma HeldSurvivesIff(s: System, merged: LiveState, k: nat)
    requires Enabled(s, Install(merged, true)) && HeldLate(s, k)
    ensures Present(ItemsOf(merged, FeedOf(s.log[k])), EntryOf(s.log[k].update)) <==> CanRestore(s, k)
  {
    var f := FeedOf(s.log[k]);
    SurvivesIff(ItemsOf(s.refresher.loaded, f), LaneOf(s.cache, f), s.refresher.generation, ItemsOf(merged, f),
                EntryOf(s.log[k].update));
  }

  /** Each entry applied from k on is that of an event from k on. */
  lemma AppliedIsEvent(s: System, k: nat, y: Entry) returns (j: nat)
    requires Core(s) && k < PublishedEnd(s) && AppliedFirst(s.log[k])
    requires y in Entries(AppliedFrom(s, k), FeedOf(s.log[k]))
    ensures k <= j < PublishedEnd(s) && SameKind(s.log[j], s.log[k]) && EntryOf(s.log[j].update) == y
  {
    var events, f := AppliedFrom(s, k), FeedOf(s.log[k]);
    EntriesMembers(events, f);
    var i :| 0 <= i < |events| && Feeds(events[i].update, f) && EntryOf(events[i].update) == y;
    j := k + i;
    assert events[i] == s.log[j];
  }

  /** The list a replacement leaves. */
  lemma InstalledItems(s: System, merged: LiveState, preserved: bool, f: Feed, k: nat)
    requires Enabled(s, Install(merged, preserved))
    ensures var s' := Do(s, Install(merged, preserved));
            && ItemsOf(s'.cache.live, f) == Limit(ItemsOf(merged, f), LimitOf(f))
            && s'.log == s.log && s'.seen == s.readSeen && PublishedEnd(s') == PublishedEnd(s)
            && AppliedFrom(s', k) == AppliedFrom(s, k)
  {
  }

  /** Of what was applied from k on, all that is held is recoverable. */
  ghost predicate RestoresFrom(s: System, k: nat)
    requires s.refresher.Labelled? && k < |s.log|
  {
    forall j | k <= j && HeldLate(s, j) && SameKind(s.log[j], s.log[k]) :: CanRestore(s, j)
  }

  lemma RestoredSurvives(s: System, merged: LiveState, k: nat, y: Entry)
    requires Core(s) && Enabled(s, Install(merged, true)) && Late(s, k) && RestoresFrom(s, k)
    requires y in Entries(AppliedFrom(s, k), FeedOf(s.log[k])) && y in ItemsOf(s.cache.live, FeedOf(s.log[k]))
    ensures Present(ItemsOf(merged, FeedOf(s.log[k])), y)
  {
    var j := AppliedIsEvent(s, k, y);
    assert HeldLate(s, j);
    HeldSurvivesIff(s, merged, j);
  }

  lemma RestoredAllSurvive(s: System, merged: LiveState, k: nat)
    requires Core(s) && Enabled(s, Install(merged, true)) && Late(s, k) && RestoresFrom(s, k)
    ensures var f := FeedOf(s.log[k]);
            HeldSurvive(Entries(AppliedFrom(s, k), f), ItemsOf(s.cache.live, f), ItemsOf(merged, f))
  {
    var f := FeedOf(s.log[k]);
    forall y | y in Entries(AppliedFrom(s, k), f) && y in ItemsOf(s.cache.live, f)
      ensures Present(ItemsOf(merged, f), y)
    {
      RestoredSurvives(s, merged, k, y);
    }
  }

  lemma LateIsNewest(s: System, k: nat)
    requires Core(s) && s.refresher.Labelled? && Late(s, k)
    ensures var f := FeedOf(s.log[k]);
            var since := Entries(AppliedFrom(s, k), f);
            && NewestOf(since, Updates(s.since, f), ItemsOf(s.start.live, f), ItemsOf(s.cache.live, f), LimitOf(f))
            && since[|since| - 1] == EntryOf(s.log[k].update)
  {
    var f := FeedOf(s.log[k]);
    SinceEvent(s, k, f);
    PushedItems(s.start, s.since, f);
  }

  /** Then the replaced list shows event k. */
  lemma RestoredIsShown(s: System, merged: LiveState, preserved: bool, k: nat, f: Feed)
    requires Core(s) && Enabled(s, Install(merged, preserved)) && Late(s, k) && RestoresFrom(s, k)
    requires f == FeedOf(s.log[k])
    ensures Shown(Limit(ItemsOf(merged, f), LimitOf(f)), LimitOf(f), EntryOf(s.log[k].update),
                  Entries(AppliedFrom(s, k), f))
  {
    var since, pushed := Entries(AppliedFrom(s, k), f), Updates(s.since, f);
    var before, held, list := ItemsOf(s.start.live, f), ItemsOf(s.cache.live, f), ItemsOf(merged, f);
    assert NewestOf(since, pushed, before, held, LimitOf(f)) && since[|since| - 1] == EntryOf(s.log[k].update) by {
      LateIsNewest(s, k);
    }
    assert preserved && Ordered(HeardFirst(), list) by { LateMeansOverlaid(s, merged, preserved, k); }
    assert HeldSurvive(since, held, list) by { RestoredAllSurvive(s, merged, k); }
    OldestIsShown(since, pushed, before, held, list, LimitOf(f), EntryOf(s.log[k].update));
  }

  /** Recent entries that crowd out a later event crowd out event k as well. */
  lemma CrowdedIsShown(s': System, k: nat, j: nat)
    requires k <= j < PublishedEnd(s') <= |s'.log| && SameKind(s'.log[j], s'.log[k]) && Crowded(s', j)
    ensures TakenIn(s', k)
  {
    var f := FeedOf(s'.log[k]);
    var items := ItemsOf(s'.cache.live, f);
    forall i | 0 <= i < |items| ensures Outranks(items[i], Entries(AppliedFrom(s', k), f)) {
      assert RecentFrom(s', j, items[i]);
      OutranksIsRecent(s', k, items[i]);
    }
  }

  lemma InstallTakesIn(s: System, merged: LiveState, preserved: bool, k: nat)
    requires Core(s) && Enabled(s, Install(merged, preserved)) && Restores(s, Install(merged, preserved))
    requires k < PublishedEnd(s) && AppliedFirst(s.log[k])
    ensures TakenIn(Do(s, Install(merged, preserved)), k)
  {
    var s' := Do(s, Install(merged, preserved));
    if k >= s.readSeen {
      if j :| k <= j && HeldLate(s, j) && SameKind(s.log[j], s.log[k]) && Crowded(s', j) {
        CrowdedIsShown(s', k, j);
      } else {
        RestoredIsShown(s, merged, preserved, k, FeedOf(s.log[k]));
        InstalledItems(s, merged, preserved, FeedOf(s.log[k]), k);
      }
    }
  }

  lemma InstallTaken(s: System, merged: LiveState, preserved: bool)
    requires Core(s) && Enabled(s, Install(merged, preserved)) && Restores(s, Install(merged, preserved))
    ensures AppliedTaken(Do(s, Install(merged, preserved)))
  {
    var s' := Do(s, Install(merged, preserved));
    forall k | 0 <= k < |s'.log| && k < PublishedEnd(s') && AppliedFirst(s'.log[k]) ensures TakenIn(s', k) {
      InstallTakesIn(s, merged, preserved, k);
    }
  }

  lemma OwnEntry(s: System, k: nat)
    requires k < PublishedEnd(s) <= |s.log| && AppliedFirst(s.log[k])
    ensures EntryOf(s.log[k].update) in Entries(AppliedFrom(s, k), FeedOf(s.log[k]))
  {
    EntriesMembers(AppliedFrom(s, k), FeedOf(s.log[k]));
    assert AppliedFrom(s, k)[0] == s.log[k];
  }

  lemma LimitPresent(list: seq<Entry>, limit: nat, e: Entry)
    requires Present(Limit(list, limit), e)
    ensures Present(list, e)
  {
    var y :| y in Limit(list, limit) && y.id == e.id && Supersedes(y, e);
    assert y in list;
  }

  lemma RestorableIsReflected(s: System, merged: LiveState, k: nat)
    requires Core(s) && Enabled(s, Install(merged, true)) && HeldLate(s, k) && CanRestore(s, k)
    ensures Reflects(Do(s, Install(merged, true)), k)
  {
    var s', f := Do(s, Install(merged, true)), FeedOf(s.log[k]);
    LateMeansOverlaid(s, merged, true, k);
    HeldSurvivesIff(s, merged, k);
    OwnEntry(s, k);
    PresentIsShown(ItemsOf(merged, f), LimitOf(f), EntryOf(s.log[k].update), Entries(AppliedFrom(s, k), f));
    InstalledItems(s, merged, true, f, k);
    TakenInIsReflected(s', k);
  }

  /** A late event still held is reflected by the replacement if and only if it is recoverable, or
      recent entries fill the list. */
  lemma ReplacementReflectsIff(s: System, merged: LiveState, preserved: bool, k: nat)
    requires Core(s) && Enabled(s, Install(merged, preserved)) && HeldLate(s, k)
    ensures var s' := Do(s, Install(merged, preserved));
            Reflects(s', k) <==> CanRestore(s, k) || Crowded(s', k)
  {
    var f := FeedOf(s.log[k]);
    LateMeansOverlaid(s, merged, preserved, k);
    if CanRestore(s, k) {
      RestorableIsReflected(s, merged, k);
    } else {
      HeldSurvivesIff(s, merged, k);
      InstalledItems(s, merged, preserved, f, k);
      if Present(Limit(ItemsOf(merged, f), LimitOf(f)), EntryOf(s.log[k].update)) {
        LimitPresent(ItemsOf(merged, f), LimitOf(f), EntryOf(s.log[k].update));
      }
    }
  }

  /** A replacement reflects everything applied so far if and only if it restores. */
  lemma ReplacementCoversIff(s: System, merged: LiveState, preserved: bool)
    requires Core(s) && Enabled(s, Install(merged, preserved))
    ensures AllReflected(Do(s, Install(merged, preserved))) <==> Restores(s, Install(merged, preserved))
  {
    var step := Install(merged, preserved);
    var s' := Do(s, step);
    if Restores(s, step) {
      InstallTaken(s, merged, preserved);
      StepKeepsCore(s, step);
      CoveredFromInv(s');
    } else {
      var k: nat :| HeldLate(s, k) && !CanRestore(s, k) && !Crowded(s', k);
      ReplacementReflectsIff(s, merged, preserved, k);
    }
  }

  // ---------------------------------------------------------------------------
  // All runs
  // ---------------------------------------------------------------------------

  lemma StepTaken(s: System, step: Step)
    requires Inv(s) && Enabled(s, step) && Restores(s, step)
    ensures AppliedTaken(Do(s, step))
  {
    match step
    case ApplyNext => ApplyTaken(s);
    case Install(merged, preserved) => InstallTaken(s, merged, preserved);
    case CountPackets(n) =>
      EndMoves(s, step);
      OtherLists(s.cache, PacketCount(n));
      SameTaken(s, Do(s, step));
    case _ =>
      EndMoves(s, step);
      SameTaken(s, Do(s, step));
  }

  /** Every step of either side keeps the invariant if its replacement, if it is one, restores. */
  lemma StepKeepsInv(s: System, step: Step)
    requires Inv(s) && Enabled(s, step) && Restores(s, step)
    ensures Inv(Do(s, step))
  {
    StepKeepsCore(s, step);
    StepTaken(s, step);
  }

  /** states is an interleaving of the producer and the refresher by the given steps. */
  ghost predicate Run(states: seq<System>, steps: seq<Step>) {
    && |states| == |steps| + 1
    && forall i | 0 <= i < |steps| :: Enabled(states[i], steps[i]) && states[i + 1] == Do(states[i], steps[i])
  }

  /** In every interleaving whose replacements restore, every snapshot reflects what was applied
      before it; labelled N, it has taken in every activity and pulse event numbered up to N. */
  lemma {:induction false} LabelSafety(states: seq<System>, steps: seq<Step>, i: nat)
    requires Run(states, steps) && i < |states| && Init(states[0])
    requires forall j | 0 <= j < i :: Restores(states[j], steps[j])
    ensures Inv(states[i]) && AllReflected(states[i]) && LabelCovered(states[i])
  {
    if i > 0 {
      LabelSafety(states, steps, i - 1);
      StepKeepsInv(states[i - 1], steps[i - 1]);
    }
    CoveredFromInv(states[i]);
  }

  /** In an interleaving every snapshot reflects everything applied before it if and only if every
      replacement restores. */
  lemma LabelSafetyIff(states: seq<System>, steps: seq<Step>)
    requires Run(states, steps) && Init(states[0])
    ensures (forall i | 0 <= i < |states| :: AllReflected(states[i])) <==>
            (forall j | 0 <= j < |steps| :: Restores(states[j], steps[j]))
  {
    if forall j | 0 <= j < |steps| :: Restores(states[j], steps[j]) {
      forall i | 0 <= i < |states| ensures AllReflected(states[i]) { LabelSafety(states, steps, i); }
    } else {
      var j :| 0 <= j < |steps| && !Restores(states[j], steps[j]);
      j := FirstFailure(states, steps, j);
      LabelSafety(states, steps, j);
      ReplacementCoversIff(states[j], steps[j].merged, steps[j].preserved);
      assert !AllReflected(states[j + 1]);
    }
  }

  lemma {:induction false} FirstFailure(states: seq<System>, steps: seq<Step>, j: nat) returns (k: nat)
    requires Run(states, steps) && j < |steps| && !Restores(states[j], steps[j])
    ensures k <= j && !Restores(states[k], steps[k]) && forall i | 0 <= i < k :: Restores(states[i], steps[i])
  {
    k := j;
    if i :| 0 <= i < j && !Restores(states[i], steps[i]) { k := FirstFailure(states, steps, i); }
  }
}

/** Where the label property stops: two concrete runs of the protocol. In one a replacement finds a
    late entry it cannot restore, and the snapshot loses an event that its label covers; in the
    other, with all labels covered, the label is ahead of a node update, which reaches the hub
    before the cache. */
module LabelLimits {
  import opened Shared
  import opened Sorting
  import opened PublicCache
  import opened CacheRaces
  import opened LabelProtocol
  import opened LabelSafety
  import opened LabelGuards

  function Blank(activity: seq<Entry>): LiveState { LiveState([], [], activity, [], 0, 0, 0, 0, 0, 0) }

  function Fixed(activity: seq<Entry>): System {
    var c := Cache(Blank(activity), true, 1, map[], map[], map[], 0);
    System([], 0, 0, false, 0, c, Idle, 0, 0, c, 0, [])
  }

  lemma FixedIsInit(activity: seq<Entry>)
    requires |activity| <= MAX_ACTIVITY && forall i | 0 <= i < |activity| :: activity[i].seqNo == 0
    ensures Init(Fixed(activity))
  {
  }

  /** The merged state of a replacement whose lists are already known. */
  function MergedWith(c: Cache, loaded: LiveState, g: nat, nodes: seq<Entry>, activity: seq<Entry>,
                      pulses: seq<Entry>): LiveState
  {
    var racedNodes := RacedItems(c.live.nodes, c.nodeJournal, g);
    var racedActivity := RacedItems(c.live.activity, c.activityJournal, g);
    var racedPulses := RacedItems(c.live.pulses, c.pulseJournal, g);
    LiveState(nodes, loaded.routes, activity, pulses,
              if c.packetMutation > g then c.live.packets
              else if |racedActivity| > 0 then Max(loaded.packets, c.live.packets)
              else loaded.packets,
              MaxAt(racedPulses, MaxAt(racedActivity, loaded.serverTime)),
              MaxAt(racedPulses, MaxAt(racedActivity, loaded.statsServerTime)),
              MaxSeqNo(racedPulses, MaxSeqNo(racedActivity, MaxSeqNo(racedNodes, loaded.latestSeq))),
              |nodes|, |loaded.routes|)
  }

  lemma MergedWithLabel(c: Cache, loaded: LiveState, g: nat, nodes: seq<Entry>, activity: seq<Entry>,
                        pulses: seq<Entry>)
    ensures loaded.latestSeq <= MergedWith(c, loaded, g, nodes, activity, pulses).latestSeq
  {
    var racedNodes := RacedItems(c.live.nodes, c.nodeJournal, g);
    var racedActivity := RacedItems(c.live.activity, c.activityJournal, g);
    MaxSeqNoTops(racedNodes, loaded.latestSeq);
    MaxSeqNoTops(racedActivity, MaxSeqNo(racedNodes, loaded.latestSeq));
    MaxSeqNoTops(RacedItems(c.live.pulses, c.pulseJournal, g),
                  MaxSeqNo(racedActivity, MaxSeqNo(racedNodes, loaded.latestSeq)));
  }

  /** Overlaying nothing but one raced entry on a list of one other gives the two. */
  lemma OnlyRaced(items: seq<Entry>, journal: Journal, g: nat, y: Entry, stale: Entry)
    requires y in items && forall x | x in items :: GenerationOf(journal, x.id) > g <==> x == y
    requires y.id != stale.id
    ensures Lists(MergeMap([stale], RacedItems(items, journal, g)), [y, stale])
  {
    var raced := RacedItems(items, journal, g);
    var m := MergeMap([stale], raced);
    RacedItemsFacts(items, journal, g);
    MergeFacts([stale], raced);
    assert y in raced && forall x | x in raced :: x == y;
    assert IdsOf([stale]) == {stale.id} && IdsOf(raced) == {y.id};
    assert m.Keys == {stale.id, y.id} && m[y.id] == y && m[stale.id] == stale;
  }

  lemma Extend(states: seq<System>, steps: seq<Step>, step: Step) returns (states': seq<System>, steps': seq<Step>)
    requires Run(states, steps) && Enabled(states[|steps|], step)
    ensures Run(states', steps') && states'[0] == states[0] && steps' == steps + [step]
    ensures states'[|steps'|] == Do(states[|steps|], step)
  {
    states', steps' := states + [Do(states[|steps|], step)], steps + [step];
  }

  /** An activity or pulse is committed alone, applied and announced. */
  lemma Publish(states: seq<System>, steps: seq<Step>, ev: Event) returns (states': seq<System>, steps': seq<Step>)
    requires Run(states, steps) && AppliedFirst(ev)
    requires var s := states[|steps|]; s.done == |s.log| && !s.half && s.lastSeq < ev.seqNo && LogOk(s.log + [ev])
    ensures Run(states', steps') && states'[0] == states[0]
    ensures var s := states[|steps|];
            states'[|steps'|] == s.(log := s.log + [ev], lastSeq := ev.seqNo, done := s.done + 1,
                                    hub := Max(s.hub, ev.seqNo),
                                    cache := ApplyMutation(s.cache, ev.update), since := s.since + [ev.update])
  {
    var s := states[|steps|];
    assert SeqHigh([ev], s.lastSeq) == ev.seqNo by { assert [ev][..0] == []; }
    states', steps' := Extend(states, steps, Commit([ev]));
    states', steps' := Extend(states', steps', ApplyNext);
    states', steps' := Extend(states', steps', RaiseNext);
  }

  /** A node update is committed alone and announced, but not yet applied. */
  lemma Announce(states: seq<System>, steps: seq<Step>, ev: Event) returns (states': seq<System>, steps': seq<Step>)
    requires Run(states, steps) && !AppliedFirst(ev)
    requires var s := states[|steps|]; s.done == |s.log| && !s.half && s.lastSeq < ev.seqNo && LogOk(s.log + [ev])
    ensures Run(states', steps') && states'[0] == states[0] && steps' == steps + [Commit([ev]), RaiseNext]
    ensures var s := states[|steps|];
            states'[|steps'|] == s.(log := s.log + [ev], lastSeq := ev.seqNo, half := true, hub := Max(s.hub, ev.seqNo))
  {
    var s := states[|steps|];
    assert SeqHigh([ev], s.lastSeq) == ev.seqNo by { assert [ev][..0] == []; }
    states', steps' := Extend(states, steps, Commit([ev]));
    states', steps' := Extend(states', steps', RaiseNext);
    assert steps' == steps + [Commit([ev]), RaiseNext];
  }

  /** A refresh that has just read the store. */
  lemma Begin(activity: seq<Entry>, read: seq<Entry>) returns (states: seq<System>, steps: seq<Step>)
    requires Unsequenced(read)
    ensures Run(states, steps) && states[0] == Fixed(activity) && steps == [Capture, ReadStore(Blank(read))]
    ensures states[2] == Fixed(activity).(refresher := Read(1, Blank(read)))
  {
    states, steps := [Fixed(activity)], [];
    states, steps := Extend(states, steps, Capture);
    states, steps := Extend(states, steps, ReadStore(Blank(read)));
  }

  // ---------------------------------------------------------------------------
  // An id held twice
  // ---------------------------------------------------------------------------

  function Old(): Entry { Entry("x", 0, 0, "packet") }

  /** Entries under ids of different lengths. */
  function Filler(i: nat): Entry { Entry(seq(i + 1, _ => 'f'), 0, 0, "packet") }

  function X(): Entry { Entry("x", 1, 1, "packet") }

  function Y(): Entry { Entry("y", 2, 2, "packet") }

  /** A full list of distinct ids whose last but one entry carries id "x". */
  ghost predicate IsFull(items: seq<Entry>) {
    && |items| == MAX_ACTIVITY && UniqueIds(items) && items[238] == Old()
    && forall i | 0 <= i < MAX_ACTIVITY :: items[i].seqNo == 0 && items[i].id != "y"
  }

  function EventX(): Event { Event(1, ActivityUpdate(X())) }

  function EventY(): Event { Event(2, ActivityUpdate(Y())) }

  /** The cache after both activities: the second push evicts the old entry under the first
      one's id and takes the first one's journal entry with it. */
  lemma EvictionForgets(items: seq<Entry>, c: Cache)
    requires IsFull(items) && c == Fixed(items).cache
    ensures var c2 := ApplyActivitySpec(ApplyActivitySpec(c, X()), Y());
            && Y() in c2.live.activity
            && (forall x | x in c2.live.activity :: GenerationOf(c2.activityJournal, x.id) > 1 <==> x == Y())
  {
    var c1 := ApplyActivitySpec(c, X());
    var next1 := [X()] + items;
    assert next1[240..] == [items[239]];
    assert c1.activityJournal == map["x" := 2];
    var next2 := [Y()] + c1.live.activity;
    assert next2[240] == items[238];
    assert next2[240..] == [Old()];
    assert IdsOf(next2[240..]) == {"x"};
    var c2 := ApplyActivitySpec(c1, Y());
    assert c2.activityJournal == map["y" := 3];
    assert c2.live.activity == next2[..240];
    assert c2.live.activity[0] == Y() && c2.live.activity[1] == X();
    forall i | 1 < i < 240 ensures c2.live.activity[i].id != "y" {
      assert c2.live.activity[i] == items[i - 2];
    }
  }

  /** Both activities are committed and published while a refresh is between its read of the
      store and its replacement. */
  ghost predicate BothRaced(items: seq<Entry>, s: System) {
    && s.log == [EventX(), EventY()] && s.refresher == Labelled(1, Blank([Old()]).(latestSeq := 2)) && s.readSeen == 0
    && s.cache == ApplyActivitySpec(ApplyActivitySpec(Fixed(items).cache, X()), Y())
  }

  lemma LogsOk()
    ensures LogOk([EventX()]) && LogOk([EventX(), EventY()])
  {
  }

  lemma HeldTwiceRun(items: seq<Entry>) returns (states: seq<System>, steps: seq<Step>)
    requires IsFull(items)
    ensures Run(states, steps) && states[0] == Fixed(items) && BothRaced(items, states[|steps|])
  {
    LogsOk();
    states, steps := Begin(items, [Old()]);
    assert [] + [EventX()] == [EventX()] && [EventX()] + [EventY()] == [EventX(), EventY()];
    states, steps := Publish(states, steps, EventX());
    assert states[|steps|].log == [EventX()];
    states, steps := Publish(states, steps, EventY());
    states, steps := Extend(states, steps, ReadLabel);
  }

  /** An overlay when only activities are about. */
  lemma ActivityOverlaid(c: Cache, loaded: LiveState, g: nat, activity: seq<Entry>)
    requires c.live.nodes == [] && c.live.pulses == [] && loaded.nodes == [] && loaded.pulses == []
    requires Lists(MergeMap(loaded.activity, RacedItems(c.live.activity, c.activityJournal, g)), activity)
    requires Ordered(HeardFirst(), activity)
    ensures Overlaid(c, loaded, g, MergedWith(c, loaded, g, [], activity, []))
  {
  }

  lemma NewestFirstInOrder()
    ensures Ordered(HeardFirst(), [Y(), Old()])
  {
  }

  lemma OnlyYOverlaid(items: seq<Entry>, c: Cache, loaded: LiveState) returns (merged: LiveState)
    requires IsFull(items) && c == ApplyActivitySpec(ApplyActivitySpec(Fixed(items).cache, X()), Y())
    requires loaded == Blank([Old()]).(latestSeq := 2)
    ensures Overlaid(c, loaded, 1, merged) && merged.activity == [Y(), Old()] && merged.latestSeq >= 2
  {
    var activity := [Y(), Old()];
    assert Lists(MergeMap(loaded.activity, RacedItems(c.live.activity, c.activityJournal, 1)), activity) by {
      EvictionForgets(items, Fixed(items).cache);
      OnlyRaced(c.live.activity, c.activityJournal, 1, Y(), Old());
    }
    assert Ordered(HeardFirst(), activity) by { NewestFirstInOrder(); }
    merged := MergedWith(c, loaded, 1, [], activity, []);
    ActivityOverlaid(c, loaded, 1, activity);
    MergedWithLabel(c, loaded, 1, [], activity, []);
  }

  lemma HeldTwiceInstall(items: seq<Entry>, s: System) returns (merged: LiveState)
    requires IsFull(items) && BothRaced(items, s)
    ensures Enabled(s, Install(merged, true)) && !LabelCovered(Do(s, Install(merged, true)))
  {
    merged := OnlyYOverlaid(items, s.cache, s.refresher.loaded);
    var s' := Do(s, Install(merged, true));
    assert s'.log[0] == EventX();
    assert s'.cache.live.activity == [Y(), Old()];
    assert !Reflects(s', 0);
  }

  function Item(i: nat): Entry { if i == 238 then Old() else Filler(i) }

  lemma ItemsDiffer(i: nat, j: nat)
    requires i < j
    ensures Item(i).id != Item(j).id && Item(i).id != "y" && Item(i).seqNo == 0
  {
    assert i != 238 ==> |Item(i).id| == i + 1 && Item(i).id[0] == 'f';
    assert j != 238 ==> |Item(j).id| == j + 1 && Item(j).id[0] == 'f';
  }

  /** A full list as the server may hold it. */
  lemma FullList() returns (items: seq<Entry>)
    ensures IsFull(items)
  {
    items := seq(MAX_ACTIVITY, (i: int) requires 0 <= i => Item(i));
    forall i, j | 0 <= i < j < |items| ensures items[i].id != items[j].id { ItemsDiffer(i, j); }
    forall i | 0 <= i < |items| ensures items[i].seqNo == 0 && items[i].id != "y" { ItemsDiffer(i, i + 1); }
  }

  /** A run from a list of distinct ids, and a store read that still has the old entry under one of
      them, whose last snapshot is labelled past an event it lost: its replacement does not restore. */
  lemma HeldTwiceLosesLabel()
    ensures exists states: seq<System>, steps: seq<Step> ::
              && Run(states, steps) && Init(states[0]) && UniqueIds(states[0].cache.live.activity)
              && !LabelCovered(states[|steps|])
  {
    var items := FullList();
    FixedIsInit(items);
    var states, steps := HeldTwiceRun(items);
    var merged := HeldTwiceInstall(items, states[|steps|]);
    states, steps := Extend(states, steps, Install(merged, true));
  }

  // ---------------------------------------------------------------------------
  // Node updates
  // ---------------------------------------------------------------------------

  function NodeEvent(): Event { Event(1, NodeUpdate(Entry("n", 1, 1, "node"))) }

  lemma NodeRun() returns (states: seq<System>, steps: seq<Step>)
    ensures Run(states, steps) && states[0] == Fixed([])
    ensures forall j | 0 <= j < |steps| :: !steps[j].ApplyNext?
    ensures var s := states[|steps|]; s == Fixed([]).(log := [NodeEvent()], lastSeq := 1, half := true, hub := 1,
                                                      refresher := Labelled(1, Blank([]).(latestSeq := 1)))
  {
    states, steps := Begin([], []);
    assert states[|steps|].log + [NodeEvent()] == [NodeEvent()];
    states, steps := Announce(states, steps, NodeEvent());
    states, steps := Extend(states, steps, ReadLabel);
  }

  /** A run in which every snapshot covers its label, and the last one is labelled with a node update
      that neither the store read under it nor its node list contains. */
  lemma NodeLabelCanLead()
    ensures exists states: seq<System>, steps: seq<Step> ::
              && Run(states, steps) && Init(states[0])
              && (forall i | 0 <= i < |states| :: AllReflected(states[i]) && LabelCovered(states[i]))
              && Leads(states[|steps|], 0) && states[|steps|].cache.live.nodes == []
  {
    FixedIsInit([]);
    var states, steps := NodeRun();
    states, steps := Extend(states, steps, Install(states[|steps|].refresher.loaded, false));
    forall i | 0 <= i < |states| ensures AllReflected(states[i]) && LabelCovered(states[i]) {
      CleanSafety(states, steps, i);
    }
  }
}

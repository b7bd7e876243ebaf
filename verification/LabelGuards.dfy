/** When the label property holds without looking at the replacements: conditions on the ids that
    are committed, and on the evictions; and what a label says about node updates. */
module LabelGuards {
  import opened Shared
  import opened Sorting
  import opened PublicCache
  import opened CacheRaces
  import opened LabelProtocol
  import opened LabelSafety

  // ---------------------------------------------------------------------------
  // Fresh ids
  // ---------------------------------------------------------------------------

  predicate Reading(s: System) { s.refresher.Read? || s.refresher.Labelled? }

  predicate NotHeld(items: seq<Entry>, id: string) { forall x | x in items :: x.id != id }

  /** While a refresh is between its store read and its replacement, no event is committed whose id
      the list of its kind holds. */
  predicate FreshIds(s: System, step: Step) {
    step.Commit? && Reading(s) ==>
      forall ev | ev in step.batch && AppliedFirst(ev) ::
        NotHeld(ItemsOf(s.cache.live, FeedOf(ev)), EntryOf(ev.update).id)
  }

  /** The id is held at most once, and then the journal has it since the generation. */
  ghost predicate Journaled(lane: Lane, id: string, generation: nat) {
    && (forall i, j | 0 <= i < j < |lane.items| :: lane.items[i].id == id ==> lane.items[j].id != id)
    && (NotHeld(lane.items, id) || GenerationOf(lane.journal, id) > generation)
  }

  /** What the lane knows about event k, committed after the store read. */
  ghost predicate Tended(s: System, k: nat)
    requires k < |s.log| && AppliedFirst(s.log[k]) && !s.refresher.Idle?
  {
    var lane, id := LaneOf(s.cache, FeedOf(s.log[k])), EntryOf(s.log[k].update).id;
    if k < PublishedEnd(s) then Journaled(lane, id, s.refresher.generation) else NotHeld(lane.items, id)
  }

  ghost predicate AllTended(s: System)
    requires Basics(s)
  {
    Reading(s) ==> forall k | s.readSeen <= k < |s.log| && AppliedFirst(s.log[k]) :: Tended(s, k)
  }

  lemma PushJournals(lane: Lane, next: seq<Entry>, limit: nat, e: Entry, now: nat, generation: nat)
    requires next == [e] + lane.items && NotHeld(lane.items, e.id) && now > generation
    ensures Journaled(PublicCache.Install(next, lane.journal, limit, e.id, now), e.id, generation)
  {
    forall i, j | 0 <= i < j < |Limit(next, limit)| && Limit(next, limit)[i].id == e.id
      ensures Limit(next, limit)[j].id != e.id
    {
      assert next[j] in lane.items;
    }
  }

  /** Another entry's push may evict the id; what stays under it stays noted. */
  lemma PushKeepsJournaled(lane: Lane, next: seq<Entry>, limit: nat, e: Entry, now: nat, id: string, generation: nat)
    requires next == [e] + lane.items && e.id != id && Journaled(lane, id, generation)
    ensures Journaled(PublicCache.Install(next, lane.journal, limit, e.id, now), id, generation)
  {
    var after, cut := PublicCache.Install(next, lane.journal, limit, e.id, now), Min(|next|, limit);
    if i :| 0 <= i < cut && next[i].id == id {
      assert next[i] == lane.items[i - 1] && lane.items[i - 1] in lane.items;
      forall x | x in next[cut..] ensures x.id != id {
        var j :| cut <= j < |next| && next[j] == x;
        assert next[j] == lane.items[j - 1];
      }
      assert GenerationOf(after.journal, id) == GenerationOf(lane.journal, id);
    } else {
      forall x | x in after.items ensures x.id != id { var i :| 0 <= i < cut && next[i] == x; }
    }
  }

  lemma PushKeepsNotHeld(items: seq<Entry>, limit: nat, e: Entry, id: string)
    requires NotHeld(items, id) && e.id != id
    ensures NotHeld(Limit([e] + items, limit), id)
  {
  }

  lemma LaneAfter(c: Cache, m: Mutation, f: Feed)
    requires c.ready
    ensures var lane := LaneOf(c, f);
            LaneOf(ApplyMutation(c, m), f) ==
            if Feeds(m, f) then
              PublicCache.Install([EntryOf(m)] + lane.items, lane.journal, LimitOf(f), EntryOf(m).id, c.generation + 1)
            else lane
  {
    OtherLists(c, m);
  }

  lemma CapturedBefore(s: System)
    requires Core(s) && !s.refresher.Idle?
    ensures s.refresher.generation <= s.cache.generation
  {
    RunKeepsBound(s.start, s.since);
  }

  lemma ApplyTends(s: System, k: nat)
    requires Core(s) && Enabled(s, ApplyNext) && Reading(s) && k < |s.log| && AppliedFirst(s.log[k]) && Tended(s, k)
    ensures Tended(Do(s, ApplyNext), k)
  {
    var m, f, id := s.log[s.done].update, FeedOf(s.log[k]), EntryOf(s.log[k].update).id;
    var lane := LaneOf(s.cache, f);
    EndMoves(s, ApplyNext);
    CapturedBefore(s);
    LaneAfter(s.cache, m, f);
    if Feeds(m, f) {
      if k == s.done {
        PushJournals(lane, [EntryOf(m)] + lane.items, LimitOf(f), EntryOf(m), s.cache.generation + 1,
                     s.refresher.generation);
      } else {
        assert SameKind(s.log[k], s.log[s.done]);
        if k < s.done {
          PushKeepsJournaled(lane, [EntryOf(m)] + lane.items, LimitOf(f), EntryOf(m), s.cache.generation + 1, id,
                             s.refresher.generation);
        } else {
          PushKeepsNotHeld(lane.items, LimitOf(f), EntryOf(m), id);
        }
      }
    }
  }

  lemma CommitTends(s: System, batch: seq<Event>, k: nat)
    requires Core(s) && Enabled(s, Commit(batch)) && FreshIds(s, Commit(batch)) && Reading(s) && AllTended(s)
    requires s.readSeen <= k < |s.log + batch| && AppliedFirst((s.log + batch)[k])
    ensures Tended(Do(s, Commit(batch)), k)
  {
    EndMoves(s, Commit(batch));
    if k >= |s.log| { assert (s.log + batch)[k] == batch[k - |s.log|]; }
  }

  lemma OtherTends(s: System, step: Step, k: nat)
    requires Core(s) && Enabled(s, step) && !step.Commit? && !step.ApplyNext? && Reading(s) && Reading(Do(s, step))
    requires k < |s.log| && AppliedFirst(s.log[k]) && Tended(s, k)
    ensures Tended(Do(s, step), k)
  {
    EndMoves(s, step);
    if step.CountPackets? { LaneAfter(s.cache, PacketCount(step.count), FeedOf(s.log[k])); }
  }

  lemma StepTends(s: System, step: Step)
    requires Core(s) && Enabled(s, step) && FreshIds(s, step) && AllTended(s) && Core(Do(s, step))
    ensures AllTended(Do(s, step))
  {
    var s' := Do(s, step);
    if Reading(s') {
      forall k | s'.readSeen <= k < |s'.log| && AppliedFirst(s'.log[k]) ensures Tended(s', k) {
        match step
        case ApplyNext => ApplyTends(s, k);
        case Commit(batch) => CommitTends(s, batch, k);
        case ReadStore(_) =>
        case _ => OtherTends(s, step, k);
      }
    }
  }

  /** A tended event still held is recoverable, whatever else was evicted. */
  lemma TendedRestores(s: System, step: Step)
    requires Core(s) && Enabled(s, step) && AllTended(s)
    ensures Restores(s, step)
  {
    if step.Install? {
      forall k: nat | HeldLate(s, k) ensures CanRestore(s, k) { assert Tended(s, k); }
    }
  }

  lemma FreshStep(s: System, step: Step)
    requires Inv(s) && AllTended(s) && Enabled(s, step) && FreshIds(s, step)
    ensures Inv(Do(s, step)) && AllTended(Do(s, step))
  {
    TendedRestores(s, step);
    StepKeepsInv(s, step);
    StepTends(s, step);
  }

  /** When no event is committed between a store read and its replacement under an id that its list
      holds, every snapshot of every interleaving covers its label, whatever is evicted. */
  lemma {:induction false} FreshIdsSafety(states: seq<System>, steps: seq<Step>, i: nat)
    requires Run(states, steps) && i < |states| && Init(states[0])
    requires forall j | 0 <= j < |steps| :: FreshIds(states[j], steps[j])
    ensures Inv(states[i]) && AllTended(states[i]) && AllReflected(states[i]) && LabelCovered(states[i])
  {
    if i > 0 {
      FreshIdsSafety(states, steps, i - 1);
      FreshStep(states[i - 1], steps[i - 1]);
      assert states[i - 1 + 1] == Do(states[i - 1], steps[i - 1]);
    }
    CoveredFromInv(states[i]);
  }

  // ---------------------------------------------------------------------------
  // Clean evictions
  // ---------------------------------------------------------------------------

  /** While a refresh is under way, no id mutated since its capture is evicted while another
      entry under the same id stays (see CacheRaces). */
  ghost predicate Clean(s: System, step: Step)
    requires Enabled(s, step)
  {
    step.ApplyNext? && !s.refresher.Idle? ==> CleanStep(s.cache, RaceOf(s.since), s.log[s.done].update)
  }

  ghost predicate CleanSince(s: System) { s.refresher.Idle? || CleanRun(s.start, s.since) }

  lemma CleanSnoc(s: System, m: Mutation)
    requires SinceCache(s) && CleanRun(s.start, s.since) && CleanStep(s.cache, RaceOf(s.since), m)
    ensures CleanRun(s.start, s.since + [m])
  {
    assert (s.since + [m])[..|s.since|] == s.since;
  }

  lemma StepCleanSince(s: System, step: Step)
    requires Core(s) && Enabled(s, step) && Clean(s, step) && CleanSince(s)
    ensures CleanSince(Do(s, step))
  {
    if !s.refresher.Idle? {
      match step
      case ApplyNext => CleanSnoc(s, s.log[s.done].update);
      case CountPackets(n) => CleanSnoc(s, PacketCount(n));
      case _ =>
    }
  }

  lemma CleanRestores(s: System, step: Step)
    requires Core(s) && Enabled(s, step) && CleanSince(s)
    ensures Restores(s, step)
  {
    if step.Install? {
      CleanRunTracks(s.start, s.since);
      forall k: nat | HeldLate(s, k) ensures CanRestore(s, k) {
        var f := FeedOf(s.log[k]);
        SinceEvent(s, k, f);
        UpdatesAreRaced(s.since, f);
        assert EntryOf(s.log[k].update) in Updates(s.since, f);
      }
    }
  }

  lemma CleanStepKeeps(s: System, step: Step)
    requires Inv(s) && CleanSince(s) && Enabled(s, step) && Clean(s, step)
    ensures Inv(Do(s, step)) && CleanSince(Do(s, step))
  {
    CleanRestores(s, step);
    StepKeepsInv(s, step);
    StepCleanSince(s, step);
  }

  /** Clean evictions are enough as well. */
  lemma {:induction false} CleanSafety(states: seq<System>, steps: seq<Step>, i: nat)
    requires Run(states, steps) && i < |states| && Init(states[0])
    requires forall j | 0 <= j < |steps| :: Clean(states[j], steps[j])
    ensures Inv(states[i]) && CleanSince(states[i]) && AllReflected(states[i]) && LabelCovered(states[i])
  {
    if i > 0 {
      CleanSafety(states, steps, i - 1);
      CleanStepKeeps(states[i - 1], steps[i - 1]);
      assert states[i - 1 + 1] == Do(states[i - 1], steps[i - 1]);
    }
    CoveredFromInv(states[i]);
  }

  // ---------------------------------------------------------------------------
  // Node updates
  // ---------------------------------------------------------------------------

  /** Event k is in the cache, or was in the store read under it. */
  predicate Arrived(s: System, k: nat) { k < s.done || k < s.seen }

  /** The event being published is a node update that has been announced but not applied. */
  predicate NodeHalfway(s: System) { s.half && s.done < |s.log| && s.log[s.done].update.NodeUpdate? }

  predicate Leads(s: System, k: nat) {
    k < |s.log| && s.log[k].update.NodeUpdate? && s.log[k].seqNo <= s.cache.live.latestSeq && !Arrived(s, k)
  }

  /** A label leads a node update exactly when that is the one half published, numbered up to the
      label, and not in the store read. */
  lemma NodeLeadsIff(s: System, k: nat)
    requires Core(s)
    ensures Leads(s, k) <==>
              k == s.done && NodeHalfway(s) && s.log[k].seqNo <= s.cache.live.latestSeq && k >= s.seen
  {
  }

  /** In every run, whatever is evicted, each node update numbered up to a snapshot's label has been
      applied or read, but for the one being published. */
  lemma {:induction false} NodeLabelSafety(states: seq<System>, steps: seq<Step>, i: nat)
    requires Run(states, steps) && i < |states| && Init(states[0])
    ensures Core(states[i])
    ensures forall k | Leads(states[i], k) :: k == states[i].done && NodeHalfway(states[i])
  {
    if i > 0 {
      NodeLabelSafety(states, steps, i - 1);
      StepKeepsCore(states[i - 1], steps[i - 1]);
    }
    forall k | Leads(states[i], k) ensures k == states[i].done && NodeHalfway(states[i]) { NodeLeadsIff(states[i], k); }
  }

  // ---------------------------------------------------------------------------
  // What a store read has seen
  // ---------------------------------------------------------------------------

  /** The last store read before position k of a run is step j. */
  predicate LastRead(steps: seq<Step>, j: nat, k: nat)
    requires k <= |steps|
  {
    j < k && steps[j].ReadStore? && forall i | j < i < k :: !steps[i].ReadStore?
  }

  lemma {:induction false} ReadSeenStays(states: seq<System>, steps: seq<Step>, j: nat, k: nat)
    requires Run(states, steps) && k <= |steps| && LastRead(steps, j, k)
    ensures states[k].readSeen == |states[j].log|
  {
    assert states[k - 1 + 1] == Do(states[k - 1], steps[k - 1]);
    if j < k - 1 { ReadSeenStays(states, steps, j, k - 1); }
  }

  /** What counts as read under a snapshot is just the log as it was at the store read of the replacement
      that installed it. */
  lemma {:induction false} SeenIsRead(states: seq<System>, steps: seq<Step>, j: nat, k: nat, i: nat)
    requires Run(states, steps) && j < k < i <= |steps| && LastRead(steps, j, k) && steps[k].Install?
    requires forall m | k < m < i :: !steps[m].Install?
    ensures states[i].seen == |states[j].log|
  {
    assert states[i - 1 + 1] == Do(states[i - 1], steps[i - 1]);
    if i - 1 == k { ReadSeenStays(states, steps, j, k); } else { SeenIsRead(states, steps, j, k, i - 1); }
  }
}

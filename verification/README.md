# Verified model of the live map

This project models the protocols and algorithms of the MeshCore live map and proves what they
promise. Check everything with `dafny verify dfyconfig.toml`.

| files | what they model |
|---|---|
| `Shared`, `Sorting` | small definitions, permutations and the stable library sort, shared |
| `Connectivity`, `RouteSearch`, `Phonebook` | the client's route graph, its label-correcting path search and the views built on it |
| `PublicCache`, `CacheRaces`, `LabelProtocol`, `LabelSafety`, `LabelGuards`, `LabelLimits` | the server's cached snapshot, its mutation journal, and the race between publishing events and refreshing the cache |
| `WriterLedger`, `WriteCoordinator`, `WriteProgress` | the single writer with three lanes, its ledger of waiting times, and how its loop comes to rest |
| `EventLog`, `EventRecovery` | the durable event log, its pages, and the client's paged recovery, against any server and against this one |
| `LiveCursor`, `LiveOrder` | the sequence numbers of live envelopes, the comparator of the queue and when it is an order |
| `CursorMachine`, `CursorSafety`, `CursorProgress`, `CursorOrder`, `CursorCallbacks`, `CursorArrivals` | the client's cursor bookkeeping: callbacks as atomic steps, what every run keeps, delivers and loses, and the callbacks as they update the refs |
| `RouteTable`, `RouteTotals`, `RouteReducer`, `PublicRoutes` | the route aggregate on the client and the server: batches, position index, hydration, rebuild |
| `Geometry`, `SpatialIndex`, `HitTest` | curves, the grid index and nearest-hit queries |
| `RateLimiter` | the per-address token bucket and its cleanup loop |
| `PacketCodec`, `PacketBits` | the wire format of a packet |
| `Components` | connected components of the drawn graph |
| `IngestPipeline`, `IngestConservation`, `IngestCallbacks` | the bounded message queue, persistence and the hand-over to the derived worker |

Code that updates state is a class or a method with loops, each proved against a function or a
predicate of the old state; the theorems are lemmas about those functions and about runs. A run is
a sequence of states joined by enabled atomic steps, so a statement about all runs covers every
interleaving. Library behaviour that a proof does not depend on (string collation, hash and
coordinate normalisation, the curve's control point, the reducer's other state) is a function
parameter, so the results hold for any choice of it.

Results that are false of the code as one might first state them are given with the exact
condition, and with a run or an input that shows them false:

- the journal tells which held entries were mutated since a capture, and a replacement keeps them:
  exactly under clean evictions and for recoverable entries (`CacheRaces.InstallTracks`,
  `CacheRaces.ReplacementKeepsIff`);
- every snapshot reflects all activities and pulses applied before it, and so those up to its label:
  exactly when every replacement finds the late entries it holds recoverable or crowds them out
  (`LabelSafety.LabelSafetyIff`; `LabelLimits.HeldTwiceLosesLabel`), as it does when no event is
  committed during a refresh under an id already held (`LabelGuards.FreshIdsSafety`) and when
  evictions are clean (`LabelGuards.CleanSafety`);
- a label leads a node update: exactly when that update is the one half published and the store read
  missed it (`LabelGuards.NodeLeadsIff`; `LabelLimits.NodeLabelCanLead`);
- a flush hands on or keeps every queued number: exactly when no best-effort envelope lies between
  the times of two durable ones that run against their numbers (`CursorOrder.FlushIsSafeIff`;
  `CursorOrder.SortLosesANumber`), and always when events are stamped in number order
  (`CursorOrder.StampedRunLosesNothing`);
- a recovery page is applied whole: exactly when the cursor has not moved past its first event
  (`CursorProgress.PageAppliedWholeIff`; `CursorProgress.LiveFlushSkipsPage`);
- the pages of a recovery skip no exposed event: exactly when none is pruned between the two reads of
  a page (`EventRecovery.RecoveryDelivers`; `EventRecovery.PruneBetweenReadsSkips`);
- a batch of envelopes leaves the routes that the envelopes leave one at a time: without animation
  exactly when every pulse that comes again passes over no route (`RouteReducer.BatchIsOneByOneIff`;
  `RouteReducer.RepeatedPulse`), and always for new pulses (`RouteReducer.BatchIsOneByOne`);
- incremental routes equal rebuilt ones: exactly when no later payload name is empty and no new route
  was only heard before time 0 (`PublicRoutes.IncrementalIsRebuildIff`; `PublicRoutes.OneHitDiffers`);
- the limiter's cleanup goes unnoticed: exactly when the refill covers the burst
  (`RateLimiter.CleanupIsUnobservableIff`, whose proof gives a run that tells).

## Model

| member | source | states |
|---|---|---|
| Connectivity.BuildConnectivityGraph | web/src/connectivity.ts:69-89 | the adjacency lists hold exactly the two directions of every listed route between known nodes, by falling packet count, then falling time, then name; a route id and a node id stand for the last one listed, each node has the first usable path hash its routes have for it, or none when they have none; the graph is well formed |
| Connectivity.RegisterRoutes | web/src/connectivity.ts:72-86 | after any routes the three tables hold just what those routes contribute, with each route counted at both ends |
| Connectivity.WalksAreRouteChains | web/src/connectivity.ts:69-89 | walks of a built graph are exactly the chains of listed routes between known nodes |
| RouteSearch.ReachablePaths | web/src/connectivity.ts:186-229 | terminates on every graph; lists exactly the nodes some walk reaches, each with a real simple path whose lists line up hop by hop and whose totals are recomputed from its routes, of the fewest hops and, among those, the strongest route |
| RouteSearch.CompareIsByMerit | web/src/connectivity.ts:305-314 | the comparator prefers a path exactly when it is better at the first of fewest hops, strongest route, last heard, most packets and shortest way in which the two differ, or equal in all and ahead by name |
| RouteSearch.QueueIsByMerit | web/src/connectivity.ts:220-224 | the queue is kept by merit: no candidate excels one before it |
| RouteSearch.SettledIsOptimal | web/src/connectivity.ts:186-229 | a result that no edge improves is at least as good as every walk, simple or not, on (fewest hops, then strongest route) |
| RouteSearch.FormedIsReal | web/src/connectivity.ts:199-222 | every candidate the search can form is a real simple path reported field by field |
| RouteSearch.OpenShrinks | web/src/connectivity.ts:217-223 | each improvement of a label strictly shrinks the finite set of candidates that could still improve one: the search ends |
| RouteSearch.ImprovementForgetsNothing | web/src/connectivity.ts:217-223 | replacing a label keeps every other label queued or fully extended |
| Phonebook.ShortestPathBetween | web/src/connectivity.ts:164-184 | the path found between two known nodes is real and optimal, and missing exactly when the target is unreachable or the same |
| Phonebook.PhonebookGroups | web/src/connectivity.ts:114-147 | groups come by increasing hop count and list exactly the known reachable nodes but the selected one that the filter accepts, each once with its path and under its fewest hops, each group in the order of the sort mode |
| PublicCache.MergeConcurrent | backend/internal/live/public_cache.go:506-582 | the result lists each id of either side once, in rank order: the last loaded entry when every held one is older, else the newest held one, the later of two as new |
| PublicCache.MergeFacts | backend/internal/live/public_cache.go:506-582 | merging the held entries into the loaded ones keeps every id in a version at least as new as every loaded and every held one, and adds nothing |
| PublicCache.PublicStateCache.ApplyNode | backend/internal/live/public_cache.go:338-363 | the node comes first, the others keep their order up to the limit; its journal entry, the label and the counters move, nothing else does |
| PublicCache.PublicStateCache.ApplyActivity | backend/internal/live/public_cache.go:365-391 | the activity goes in front, the oldest beyond the limit goes, with its journal entry; label and server time do not fall below its own, packets and routes are counted, nothing else changes |
| PublicCache.PublicStateCache.ApplyRoutePulse | backend/internal/live/public_cache.go:393-415 | the same for route pulses |
| PublicCache.PublicStateCache.MergeMutationsAfter | backend/internal/live/public_cache.go:460-504 | the loaded state is overlaid with just the held entries mutated after the captured generation; nodes come latest first with ids ascending among equals, activities and pulses also by falling number before that; label and times rise to the highest of those entries and no further |
| PublicCache.PublicStateCache.Replace | backend/internal/live/public_cache.go:222-253 | installs the loaded state, overlaid exactly when a captured generation is given and the ready cache has moved on since; lists are cut at their limits, after an overlay in rank order so that nothing left out is later than anything kept; the journal is empty |
| PublicCache.OverlaidRanked | backend/internal/live/public_cache.go:507-582 | in an overlaid state nodes are ordered by falling time, then ascending id, activities and pulses by falling time, falling number, ascending id; trimming it keeps the order and the latest |
| PublicCache.RacedItemsSelect | backend/internal/live/public_cache.go:460-480 | the overlaid entries are, in order, the held ones whose id the journal has after the captured generation |
| CacheRaces.InstallTracks | backend/internal/live/public_cache.go:365-415 | a mutation keeps the journal exact about raced entries if and only if its eviction is clean: no raced id leaves while another entry under it stays |
| CacheRaces.MutationTracksIff | backend/internal/live/public_cache.go:338-415 | the same for any of the four mutations on the whole cache |
| CacheRaces.CleanRunTracks | backend/internal/live/public_cache.go:445-458 | over any run of mutations with clean evictions the journal tells exactly which held entries were touched since the capture |
| CacheRaces.NodeUpdatesAreClean | backend/internal/live/public_cache.go:338-363 | with distinct node ids, node updates never evict uncleanly |
| CacheRaces.RunKeepsBound | backend/internal/live/public_cache.go:445-448 | in every run no journal entry is ahead of the generation counter |
| CacheRaces.ReplacementIsGenuine | backend/internal/live/public_cache.go:215-253 | after any run of mutations a replacement with the captured generation resurrects nothing: each entry of the result is loaded or mutated since the capture and held; it overlays exactly when something changed, and then ids are unique |
| CacheRaces.SurvivesIff | backend/internal/live/public_cache.go:506-582 | a held entry survives an overlay in a version at least as new if and only if the journal has it after the captured generation or the loaded list has such a version |
| CacheRaces.ReplacementKeepsIff | backend/internal/live/public_cache.go:215-253 | after any run, an entry mutated since the capture and still held survives the replacement if and only if it is recoverable so; over runs with clean evictions every one survives |
| CacheRaces.CountSurvives | backend/internal/live/public_cache.go:494-498 | a packet count set since the capture survives the replacement; without one the loaded count is taken, or the held one if it is higher and an activity came in |
| LabelProtocol.CoveredFromInv | backend/internal/app/lifecycle.go:905-939 | the step invariant implies that every activity and pulse event up to the snapshot's label is reflected: read from the database, shown in a version at least as new, or displaced from a full list whose entries are each at least as recent as an event applied no earlier |
| LabelSafety.StepKeepsInv | backend/internal/app/lifecycle.go:402-417 | every step of publisher and refresher, whatever it evicts, keeps the label invariant if a replacement restores; its taken-in part places each applied event under entries at least as recent, or displaced by such |
| LabelSafety.ReplacementReflectsIff | backend/internal/live/public_cache.go:215-253 | an event applied too late for the store read and still held is reflected after the replacement if and only if the journal or the loaded list lets it be recovered, or recent entries fill the list |
| LabelSafety.ReplacementCoversIff | backend/internal/live/public_cache.go:215-253 | a replacement reflects every activity and pulse applied so far if and only if that holds for each such event |
| LabelSafety.LabelSafety | backend/internal/app/lifecycle.go:402-417 | in every interleaving from a ready, covered cache whose replacements so far restore, a snapshot labelled N reflects every activity and route pulse event numbered up to N, also when its lists are full |
| LabelSafety.LabelSafetyIff | backend/internal/app/lifecycle.go:402-417 | in an interleaving every snapshot reflects all it had applied if and only if every replacement restores |
| LabelGuards.FreshIdsSafety | backend/internal/app/lifecycle.go:402-417 | if no event is committed between a store read and its replacement under an id that the list of its kind holds, every snapshot of every interleaving covers its label, with no condition on evictions |
| LabelGuards.CleanSafety | backend/internal/live/public_cache.go:365-415 | the same if no id mutated since the capture is evicted while another entry under it stays |
| LabelGuards.NodeLabelSafety | backend/internal/app/lifecycle.go:428-437 | in every run each node update numbered up to a snapshot's label has been applied or was in the store read, but for the one being published |
| LabelGuards.NodeLeadsIff | backend/internal/app/lifecycle.go:428-437 | a label leads a node update if and only if that is the announced, half published one, numbered up to the label and not in the store read |
| LabelGuards.SeenIsRead | backend/internal/app/lifecycle.go:905-939 | in every run, what counts as read under a snapshot is the log as it was at the store read of the replacement that installed it |
| LabelLimits.HeldTwiceLosesLabel | backend/internal/live/public_cache.go:365-391 | a run with an id held twice, and a store read that has only the old entry under it, whose last snapshot is labelled past an event it lost: some condition is needed |
| LabelLimits.NodeLabelCanLead | backend/internal/app/lifecycle.go:428-437 | a run in which every snapshot covers its label for activities and pulses, and the last is labelled with a node update it does not contain |
| WriterLedger.RuntimeStats.RecordWriterStarted | backend/internal/live/runtime_stats.go:184-201 | takes the first equal waiting time out of its lane and leaves the other lanes alone |
| WriterLedger.RemoveFirstAt | backend/internal/live/runtime_stats.go:203-213 | removing a time that occurs leaves the multiset without one copy of it |
| WriteCoordinator.Runner.Drain | backend/internal/app/write_coordinator.go:112-121 | each lane grows at its end by exactly its own requests of the channel, in arrival order |
| WriteCoordinator.Runner.Next | backend/internal/app/write_coordinator.go:123-142 | the head of the chosen lane is taken, the other lanes stay, and the favoured live lane turns |
| WriteCoordinator.RunKeepsInv | backend/internal/app/write_coordinator.go:58-152 | in every run: each lane is FIFO, every granted request but the one in hand has exactly one result, and the ledger is per lane the multiset of queue times of requests neither started nor cancelled |
| WriteCoordinator.StoppedMeansAnswered | backend/internal/app/write_coordinator.go:50-95 | a stopped loop has answered every request it ever took |
| WriteCoordinator.CallsAreSerial | backend/internal/app/write_coordinator.go:141-151 | a function runs only when its context is not done at its turn, after every earlier call has returned, and never a second time |
| WriteCoordinator.CalledAtMostOnce | backend/internal/app/write_coordinator.go:141-151 | in every reachable state a function was called at most as often as its request was granted, and granted at most as often as sent |
| WriteCoordinator.ResultsAreReturned | backend/internal/app/write_coordinator.go:146-151 | in every run the results carry, in order, a context error for each rejection and just what each function returned |
| WriteCoordinator.RejectedAreDone | backend/internal/app/write_coordinator.go:146-151 | a context error is answered only to a request whose context is done |
| WriteCoordinator.OffersAreKept | backend/internal/app/write_coordinator.go:58-85 | in every run each request offered is still offered, was sent to the channel, or was withdrawn |
| WriteCoordinator.WithdrawnIsGivenUp | backend/internal/app/write_coordinator.go:71-85 | only a request whose context is done, or one given up by a closed coordinator, is withdrawn |
| WriteCoordinator.BoundedWaiting | backend/internal/app/write_coordinator.go:97-152 | in every run a primary or live-core request with k ahead of it in its lane, queue and channel together, is granted within 2(k+1) grants, one more if it reached the channel while the loop was choosing |
| WriteCoordinator.LiveLanesAlternate | backend/internal/app/write_coordinator.go:123-142 | when both live lanes wait the favoured one is granted, and after a live grant the other live lane is favoured, after a background grant the same as before |
| WriteCoordinator.BackgroundYields | backend/internal/app/write_coordinator.go:123-142 | a background write is granted only when both live lanes were empty at selection |
| WriteCoordinator.SelectionNeverFails | backend/internal/app/write_coordinator.go:104-142 | the loop is never stuck at selection |
| WriteProgress.LoopRunIsShort | backend/internal/app/write_coordinator.go:87-152 | left to itself the loop ends: it never takes more steps than six for each request in the channel, five for each it has queued and what its phase leaves to do |
| WriteProgress.LoopIsNeverStuck | backend/internal/app/write_coordinator.go:87-152 | in every state that keeps the invariant the loop can step, unless it has returned or blocks on an empty channel while open |
| WriteProgress.LoopComesToRest | backend/internal/app/write_coordinator.go:87-152 | so from every such state it can come to rest by itself, with every request it took answered in its lane's order, and stopped when it was closed |
| WriteProgress.AllComesToRest | backend/internal/app/write_coordinator.go:50-152 | when besides every caller still waiting for room has given up, no caller is left behind |
| WriteProgress.AnyRequestIsServed | backend/internal/app/write_coordinator.go:58-152 | a resting loop serves any request: called and answered with its function's error, or, when its context is done before its turn, answered with that and never called |
| WriteProgress.ChannelIsBounded | backend/internal/app/write_coordinator.go:43-43 | in every run the channel holds at most 8192 requests |
| EventLog.ListPublicEventsAfter | backend/internal/store/public_events.go:176-242 | the rows after the cursor in order, at most the limit, with the last row as continuation exactly when more follow |
| EventLog.FilterPublicEvents | backend/internal/api/public_extended.go:379-391 | compacts the slice in place to exactly the exposed events in order |
| EventLog.PublicEvents | backend/internal/api/public_extended.go:39-84 | the whole answer: refusal, exposed rows and cursor |
| EventLog.ResetIff | backend/internal/api/public_extended.go:39-50 | a cursor is refused if and only if it is not positive, ahead of every stored event, or some number after it lies below every stored one |
| EventLog.NothingPruned | backend/internal/api/public_extended.go:39-50 | a cursor the server accepts still has all its successors in store |
| EventLog.ListedIsNext | backend/internal/store/public_events.go:213-242 | an accepted page lists the log's events right after the cursor, none skipped but those pruned between its two reads |
| EventRecovery.PageShows | backend/internal/api/public_extended.go:39-84 | an accepted page shows the exposed events of the rows after the cursor up to the limit, and points to the last row if more follow, else to the last event shown, else to the cursor itself |
| EventRecovery.RefusedPage | backend/internal/api/public_extended.go:40-50 | a refusal carries no event and tells the newest number |
| EventRecovery.PageAdvances | web/src/eventRecovery.ts:57-73 | a page with events moves the cursor strictly ahead; the exposed events on the way are those pruned between its two reads, then those it carries |
| EventRecovery.PageIsWholeIff | backend/internal/api/public_extended.go:34-58 | a page shows every exposed event on its way if and only if no exposed event after the cursor was pruned between the bounds read and the rows read |
| EventRecovery.FreshIsNewer | web/src/eventRecovery.ts:57-60 | what is taken of any page are its events above the cursor, each as often as listed, by number |
| EventRecovery.PruneBetweenReadsSkips | backend/internal/api/public_extended.go:34-58 | an accepted page that moves the cursor past an exposed event it does not carry |
| EventRecovery.EmptyPageHides | web/src/eventRecovery.ts:60-67 | an accepted page without events lists only hidden ones, and lists none, when the log went on, only if everything was pruned before the rows were read |
| EventRecovery.RecoverPublicEventPages | web/src/eventRecovery.ts:24-81 | ends whatever the server answers; what is applied is, page by page, the events of the page above the cursor in order, and the cursor follows them; each request was wanted and made behind what was known by then; status and latest number are exactly those that the last answer, the target and the cursor call for |
| EventRecovery.EmptyIff | web/src/eventRecovery.ts:35-67 | empty is reported if and only if the cursor is 0 and either no request was made and the target is not positive, or the only answer tells of no event and refuses the cursor or leaves no positive target |
| EventRecovery.TookIsOrdered | web/src/eventRecovery.ts:57-73 | whatever the server answers, the applied events are in number order, above the start and up to the cursor |
| EventRecovery.RecoveryDelivers | web/src/eventRecovery.ts:24-81 | against a log that grows and is pruned from the front, between pages and within one, the applied events are exposed events of (afterSeq, cursor], ascending, and all of them if and only if no page had an exposed one pruned between its two reads |
| EventRecovery.RecoveryIsJustified | web/src/eventRecovery.ts:43-79 | against the server: caught up means that the last answer knew of nothing beyond the cursor; empty, that the log was empty when its bounds were read; a reset, that the server refuses the cursor, with the newest number it told; a gap, that it is ahead, accepts the cursor and lists only hidden events |
| EventRecovery.OwedAscends | web/src/eventRecovery.ts:57-69 | what the recovery hands on ascends and repeats nothing |
| LiveCursor.TakeIncreasingLiveEnvelopes | web/src/liveCursor.ts:29-58 | accepted are, in order, the best-effort envelopes and the durable ones numbered above the cursor and all before them; the cursor is the highest number met; invalid and non-monotonic are flagged exactly when there is such an envelope |
| LiveCursor.TakenIncrease | web/src/liveCursor.ts:29-58 | whatever the order, the accepted numbers increase strictly from the old cursor to the new one |
| LiveCursor.TakesAllIff | web/src/liveCursor.ts:29-58 | no durable envelope is passed over exactly when the numbers increase from the cursor |
| LiveCursor.RetainedDurables | web/src/liveCursor.ts:60-65 | retaining keeps exactly the durable numbers above the cursor |
| LiveCursor.RetainSelects | web/src/liveCursor.ts:60-65 | and every best-effort envelope, all in their order |
| CursorCallbacks.CursorRefs.EnqueueMessage | web/src/App.tsx:497-531 | keeps the cursor invariant and hands nothing on; a best-effort message, or a durable one above both cursors outside a reset, joins the end of the queue while there is room; a durable number ends up queued, asked of a recovery, or lies at or below one of the cursors with no reset active, and the numbers it drops are asked for; what was asked for stays so |
| CursorArrivals.IncreasingArrivalIsKept | web/src/App.tsx:497-531 | in every run, a delivered number above the applied cursor and above all numbers delivered before it is queued or asked for |
| CursorCallbacks.CursorRefs.FlushMessages | web/src/App.tsx:467-495 | keeps the invariant; the numbers of a batch that are due are handed on in order, what is still due of the rest stays in order, and nothing is lost exactly when the sort put the queue in order, so always when nothing in it crosses |
| CursorCallbacks.CursorRefs.ApplyRecoveredPage | web/src/App.tsx:613-634 | keeps the invariant; a current page hands on exactly its events above the cursor, in order, raises the cursor to its last one and drops just the queued numbers that reaches; a page of an older generation changes nothing |
| CursorCallbacks.CursorRefs.HandleResult | web/src/App.tsx:640-678 | keeps the invariant and hands nothing on; a stale result repeats its request; a refusal starts a reset with an empty queue, at the larger of what server and socket told, or what the server told when only it lies behind the cursor; a caught-up one raises the cursor dropping just what it reaches; the loop goes on or has nothing left to ask |
| CursorCallbacks.CursorRefs.HandleFailure | web/src/App.tsx:635-639 | keeps the invariant; nothing is handed on or dropped, and what the failed recovery was to fetch is asked for again |
| CursorCallbacks.CursorRefs.HandleSettled | web/src/App.tsx:706-711 | keeps the invariant; after a recovery that ended well outside a reset, what is left to ask for is fetched at once, otherwise the client is idle and it stays asked for |
| CursorCallbacks.CursorRefs.BackfillOrRefresh | web/src/App.tsx:587-606 | the target, or a poll without one, is added to what is asked for; with no recovery under way and no reset active it is all fetched at once, unless it lies at or below the cursor |
| CursorCallbacks.CursorRefs.ApplyPublicSnapshot | web/src/App.tsx:284-318 | keeps the invariant; a new generation with an empty queue and history and both cursors at the snapshot starts exactly when the snapshot reaches the floor, or without a floor what was observed and shown and is not the one shown; otherwise nothing changes |
| CursorCallbacks.CursorRefs.OnSocketMessage | web/src/App.tsx:714-742 | keeps the invariant and hands nothing on; a hello makes the client ask for what it announces, or poll when it lies behind the cursor, a lag notice drops the queue and asks up to what it announces, a pong is only noticed, the number of an event is accounted for |
| CursorCallbacks.CursorRefs.StateFetched | web/src/App.tsx:555-577 | keeps the invariant; below the floor nothing changes, at it the client rebases, the reset ends, and what was observed beyond the snapshot is asked for |
| CursorSafety.StepKeepsInv | web/src/App.tsx:452-742 | every callback keeps the cursor invariant |
| CursorSafety.RunKeepsInv | web/src/App.tsx:452-742 | in every run, from a fresh page load or any good state, the numbers applied since the last snapshot increase strictly above it, no page of an older generation is applied, pending durable envelopes lie between the two cursors with each number once, and none are pending during an epoch reset |
| CursorSafety.RaiseKeeps | web/src/App.tsx:620-626 | raising the cursor drops exactly the queued numbers it reaches and keeps the invariant |
| CursorSafety.ObservedIsHighest | web/src/App.tsx:271-719 | the highest number observed is after each callback the higher of what it was and what the callback tells; only a refused recovery lowers it |
| CursorSafety.ObservedNeverFalls | web/src/App.tsx:271-719 | in every run without a refusal it never falls and stays at or above everything told on the way |
| CursorProgress.FlushLosesNothingIff | web/src/App.tsx:467-495 | a flush hands on or keeps every queued number if and only if the sort put the batch in increasing order below the rest |
| LiveOrder.OrderIff | web/src/livePacing.ts:42-51 | the comparator orders a queue if and only if no best-effort envelope's time lies between those of two durable ones that run against their numbers |
| CursorOrder.FlushIsSafeIff | web/src/App.tsx:467-495 | a flush loses no queued number, whatever the sort may return, if and only if nothing in the queue crosses so |
| CursorOrder.StampedRunLosesNothing | web/src/App.tsx:467-531 | when the times of the delivered durable events run with their numbers, no frame of any run loses a queued number |
| CursorOrder.SortLosesANumber | web/src/livePacing.ts:17-47 | a run from a fresh page whose queue an engine's sort puts in an order that makes the flush pass a number over, with nothing left that asks for it |
| CursorProgress.SortsInOrder | web/src/livePacing.ts:17-47 | a durable-only queue is always sorted into increasing order |
| CursorProgress.DrainsInOrder | web/src/App.tsx:467-495 | frame after frame a durable-only queue empties completely, in ascending order |
| CursorProgress.PageAppliedWholeIff | web/src/App.tsx:613-634 | a current page is applied whole if and only if the cursor has not moved past its first event |
| CursorProgress.QuietRecoveryIsComplete | web/src/App.tsx:609-638 | when nothing else moves the cursor, every event of every page is applied in order |
| CursorProgress.LiveFlushSkipsPage | web/src/App.tsx:615-618 | a run in which a live flush outruns a page on its way: the machine rests believing it is caught up and an event is never applied |
| RouteTable.TouchAllBatches | web/src/state.ts:323-412 | touching hit by hit amounts to absorbing each route's group once, new routes in first-hit order, the maximum exact, the index still the inverse |
| RouteTable.UpsertPulseRoutesBatch | web/src/state.ts:323-412 | the batched update equals the update one hit at a time: routes, order, index and maximum |
| RouteTotals.TouchAllAdds | web/src/state.ts:323-412 | after a batch every known route has its own hits added, count, latest time and payloads, and keeps its place and ends; every other route hit is made of its hits alone, with the ends of the first, behind the known ones in the order of the first hits; index and maximum are exact |
| RouteTotals.SegmentHits | web/src/state.ts:335-350 | a pulse hits the route of each of its segments once, in order, with its own time and payload |
| RouteReducer.SnapshotValidIff | web/src/state.ts:93-114 | a snapshot gives a consistent table exactly when its route ids are unique |
| RouteReducer.MergeCurrentEntities | web/src/state.ts:414-423 | keeps exactly the first entity of each id of current then snapshot, in order |
| RouteReducer.HydrationKeepsValid | web/src/state.ts:116-131 | merging keeps current positions and adds exactly the missing ids, so the old index may be reused when the length is unchanged; the maximum is exact |
| RouteReducer.ApplyPublicEnvelopes | web/src/state.ts:169-223 | the loop over the envelopes followed by one batched route update computes the batch that the lemmas below describe |
| RouteReducer.BatchEffects | web/src/state.ts:169-223 | told from the messages alone: the rest of the state takes the effects of exactly the events whose number is not remembered when their turn comes and of the pulses new by id, in order; those pulses come to the front and their hits to the routes; the last thousand numbers are remembered; the latest number is the highest announced, never lower than before |
| RouteReducer.RepeatsAreIgnored | web/src/state.ts:175-232 | a numbered event under a number already remembered changes nothing but the latest number |
| RouteReducer.NumbersApplyOnce | web/src/state.ts:557-563 | no number is applied twice within a thousand messages |
| RouteReducer.BatchIsOneByOne | web/src/state.ts:165-223 | for new pulses, a batch of envelopes is the same as applying them one at a time |
| RouteReducer.BatchIsOneByOneIff | web/src/state.ts:165-223 | without animation, a batch leaves the routes, index and maximum that one envelope at a time leaves if and only if every pulse that comes again in it under a number not seen before passes over no route |
| RouteReducer.RepeatedPulse | web/src/state.ts:169-190 | without newness it is not: a pulse repeated under two numbers counts once in a batch and twice one at a time |
| RouteReducer.RepeatedPulseIff | web/src/state.ts:169-190 | for such a pulse the two tables agree if and only if it passes over no route |
| RouteReducer.RunKeepsValid | web/src/state.ts:93-131 | through snapshots, hydration, live batches and recovery the index is the exact inverse, ids are unique and the stored maximum bounds every count |
| RouteReducer.RunSteps | web/src/state.ts:93-223 | at every step of a run a snapshot's routes and number replace what was there, hydration adds just the missing routes behind those that are there and raises the number, a live batch has its effects |
| RouteReducer.RunKeepsNumber | web/src/state.ts:93-223 | between two snapshots the latest number never falls |
| PublicRoutes.BuildPublicRoutes | backend/internal/live/public.go:918-975 | one route per id that was hit: how many hits, the latest time but not below 0, the named payloads and the ends of the first hit; busiest first, the later heard first among equals |
| PublicRoutes.PublicRoutePulseFromEdge | backend/internal/live/public.go:666-702 | a pulse of the shown segments with the id, time and payload of the edge, none when there is no such segment |
| PublicRoutes.ShownAreValid | backend/internal/live/public.go:666-702 | shown are exactly the segments both of whose ends are valid, in order, each under its route with its own ends, from and to as they are, and length |
| PublicRoutes.IncrementalIsRebuildIff | backend/internal/live/public.go:918-975 | the client's routes after later hits equal the server's rebuild if and only if no later payload name is empty and no new route was only heard before time 0 |
| PublicRoutes.OneHitDiffers | backend/internal/live/public.go:918-975 | one later hit with an empty payload name, or heard before time 0, on a new route: what the client shows and what the server rebuilds, and that they differ |
| PublicRoutes.StreamIsRebuild | web/src/state.ts:169-223 | a client loaded with the routes so far that receives a fresh stream of the later edges' pulses shows the routes rebuilt from all edges |
| Geometry.CurveWithin | web/src/netgraphPrepared.ts:288-295 | the curve stays within any bounds of its three points |
| Geometry.CurveIsMix | web/src/netgraphPrepared.ts:288-295 | a curve point is the repeated interpolation of source, control point and target at its progress |
| Geometry.SegmentDistanceIsLeast | web/src/netgraphPrepared.ts:389-396 | no point of the segment is closer than the one the clamp picks |
| SpatialIndex.AddIndexToBounds | web/src/netgraphPrepared.ts:352-365 | the item goes into exactly the cells its box covers |
| SpatialIndex.IndexBoxes | web/src/netgraphPrepared.ts:130-149 | each item is held by exactly the cells its box covers |
| SpatialIndex.QuerySpatialIndex | web/src/netgraphPrepared.ts:178-190 | the items of the covered cells, all of them, each once |
| SpatialIndex.SharedPointIsFound | web/src/netgraphPrepared.ts:178-190 | an item whose box shares a point with the query box is in a visited bucket |
| SpatialIndex.CellIsInterval | web/src/netgraphPrepared.ts:178-190 | a cell holds exactly the values from a multiple of the cell size up to, and without, the next |
| HitTest.RefreshPreparedEdgeGeometry | web/src/netgraphPrepared.ts:161-176 | updates the edges in place and leaves a graph whose grids are exact and whose boxes hold the three points of each attached edge |
| HitTest.BoxIsTight | web/src/netgraphPrepared.ts:166-173 | a refreshed box leaves a margin of 16, or width plus 10 if that is more, around source, target and control point, and no more |
| HitTest.PreparedHitNode | web/src/netgraphPrepared.ts:239-260 | null exactly when no node is within its radius plus the allowance, otherwise such a node at least distance among all |
| HitTest.NodeHitAlongAxes | web/src/netgraphPrepared.ts:250-256 | along an axis a node is hit exactly up to its radius plus the allowance |
| HitTest.PreparedHitEdge | web/src/netgraphPrepared.ts:262-286 | null exactly when no edge is within the threshold, otherwise such an edge at least distance among all |
| HitTest.EdgeCandidates | web/src/netgraphPrepared.ts:262-286 | an edge within the threshold shares a grid cell with the query box |
| HitTest.EdgeDistanceIsLeast | web/src/netgraphPrepared.ts:341-350 | the distance is that of the closest point of the drawn polyline |
| HitTest.PolylineFollowsCurve | web/src/netgraphPrepared.ts:341-350 | the drawn polyline starts at the source, ends at the target and passes through the curve at each tenth |
| HitTest.EdgeHitIff | web/src/netgraphPrepared.ts:262-286 | an edge is hit if and only if some point of the drawn polyline is within the threshold |
| RateLimiter.Limiter.AllowAt | backend/internal/api/routes.go:84-104 | decides as the run of all its requests and ticks does, leaves every other address alone; when the clock does not go back, lets the request through exactly when the address can afford it, and under a refill that covers the burst keeps it within burst + rate * T / 60 for every last T seconds |
| RateLimiter.LetThroughIff | backend/internal/api/routes.go:84-104 | in every run, with cleanup or without, a request is let through if and only if, counted from itself and from every earlier request of the address since which its bucket was kept, what was let through and one more stay within the burst and the refill since then |
| RateLimiter.Limiter.CleanupTick | backend/internal/api/routes.go:60-78 | exactly the buckets last seen before the cutoff are deleted, the others stay as they are |
| RateLimiter.CleanupIsUnobservableIff | backend/internal/api/routes.go:60-104 | the cleanup loop changes no decision of any run if and only if the refill over the cleanup time covers the burst |
| RateLimiter.ServerDefaultsCover | backend/internal/api/routes.go:217-219 | the server's own settings meet that condition |
| RateLimiter.WindowBound | backend/internal/api/routes.go:84-104 | in any window of T seconds an address gets at most burst + rate * T / 60 requests through: always without cleanup, and with it when the refill covers the burst |
| PacketCodec.ParsePacket | backend/internal/meshcore/decode.go:60-118 | accepts exactly the layouts of well-formed fields and returns those fields; every refusal has its stated reason |
| PacketCodec.ChunkPath | backend/internal/meshcore/decode.go:120-129 | as many whole chunks as fit, of the hash size, joining to the front of the path; none for a hash size that is not positive |
| PacketCodec.FieldsRebuild | backend/internal/meshcore/decode.go:65-111 | what the parser reads is laid out byte for byte as it came |
| PacketCodec.FieldsDetermined | backend/internal/meshcore/decode.go:65-111 | well-formed fields laid out as some bytes are the ones read from them |
| PacketCodec.LayoutInjective | backend/internal/meshcore/decode.go:60-118 | two well-formed packets with the same bytes are the same |
| PacketCodec.HexInjective | backend/internal/meshcore/decode.go:96-96 | hexadecimal text determines its bytes |
| PacketCodec.HexDigits | backend/internal/meshcore/decode.go:96-96 | each byte is written as two upper-case digits that stand for its value, the high one first |
| PacketBits.BytesAreMasked | backend/internal/meshcore/decode.go:65-89 | the fields of the header and path length bytes are those that the masks and shifts of the decoder give, and transport codes follow when the two low bits of the header agree |
| Components.ConnectedComponents | web/src/netgraphLayout.ts:188-215 | splits the nodes into the classes of reachability over edges with both ends present, each node in one; largest first, equals by the order of their first nodes |
| Components.Explore | web/src/netgraphLayout.ts:200-211 | one search visits exactly what its start reaches, ends on every graph, and is led nowhere by names that are no nodes |
| Components.SameComponentIff | web/src/netgraphLayout.ts:188-215 | two nodes share a component exactly when one reaches the other |
| IngestCallbacks.Pipeline.SubmitNormalized | backend/internal/mqtt/client.go:291-320 | keeps the conservation invariant; while there is room the message becomes the last of the queue and counts as accepted, otherwise only its drop is counted |
| IngestCallbacks.Pipeline.PopQueueTimestamp | backend/internal/mqtt/client.go:327-330 | keeps the invariant; what leaves the list is the received message's own timestamp, and what stays are exactly those of the messages still queued |
| IngestCallbacks.Pipeline.HandleMQTT | backend/internal/app/derived_ingest.go:42-76 | keeps the invariant and the message in hand: a status message or a packet that parses goes to the primary write, an internal one is done, any other is rejected, with nothing saved |
| IngestCallbacks.Pipeline.EnqueueDerivedIngest | backend/internal/app/derived_ingest.go:117-139 | keeps the invariant and the bound of the queue; the persisted message joins the derived queue while there is room, otherwise it waits in hand with its timestamp recorded and nothing handed over |
| IngestConservation.StepKeepsInv | backend/internal/mqtt/client.go:291-356 | every step of submitter, dispatcher and worker keeps the conservation invariant |
| IngestConservation.RunConserves | backend/internal/app/derived_ingest.go:42-184 | in every run each accepted message is, in order, finished, in hand or queued; each job handed over is done, at work or queued; both timestamp lists mirror their queues including a popped head; the counters add up |
| IngestConservation.ProcessedExactlyOnce | backend/internal/app/derived_ingest.go:51-111 | a packet or status message counted processed was persisted exactly once and is in exactly one place of the derived side |

## Left out

- LabelSafety.LabelSafety: has a hypothesis about replacements, because the journal is keyed by id and LabelLimits.HeldTwiceLosesLabel shows a run where an id held twice loses an event; LabelSafety.LabelSafetyIff shows it exact, LabelGuards gives conditions that imply it. Of node updates only their arrival is claimed (LabelGuards.NodeLabelSafety), not their place in the list.
- RouteSearch.ReachablePaths: optimality is claimed for hop count and strongest route only; the later tie-break keys are not preserved when two paths are extended alike, so no optimum is defined for them.
- EventRecovery.RecoverPublicEventPages: a page whose listed events are all hidden ends in a gap report even if more events follow.
- EventLog.ListPublicEventsAfter: the optional filters by time, region, payload and type are not modelled; the recovery client sends none of them.
- CursorCallbacks.CursorRefs.EnqueueMessage: when a message without a valid number clears the queue, the recovery asked for reaches as far as that message says, which need not cover every number dropped; only what a durable message drops is claimed to be asked for.
- CursorSafety.RunKeepsInv: timers, the animation frame handle and the request in flight are not state; the steps they would trigger are allowed at any time, which only adds runs.
- CursorProgress.QuietRecoveryIsComplete: completeness across live flushes is not claimed, because CursorProgress.LiveFlushSkipsPage shows it false.
- CursorOrder.SortLosesANumber: the engine's sort is modelled for a short array whose second element is not below the first; elsewhere any order ECMAScript allows is considered.
- PublicRoutes.BuildPublicRoutes: the route ids per packet hash and the frequency bucket are not returned.
- RouteTable.UpsertPulseRoutesBatch: frequency buckets and the visual-change flag are not modelled; payload names are a set.
- HitTest.PreparedHitEdge: coordinates are reals and distances are compared squared, so rounding is not modelled; the control point is any function of the edge and its ends.
- RateLimiter.WindowBound: token amounts and times are reals, and the clock does not go back.
- IngestConservation.RunConserves: shutdown is not modelled: a hand-over abandoned because the context ended removes its timestamp by value.
- PacketCodec.ParsePacket: the packet hash is not computed; an absent path and an empty one are the same value.
- Components.ConnectedComponents: nodes are their ids, and the comparator of equal-sized components is any strict weak order.
- Advert and text payloads, route and payload names: straight-line field reads and library decoding.
- The excluded-region counters, route lists, serialization and timestamps of the cached snapshot: carried along, read by no proof here.
- Updates ignored by a cache that is not ready yet, and the mode with public events disabled: outside the label protocol by design.
- Wrap-around of the cache's 64-bit generation counter.
- The write retry loop, its backoff and deadlines: a write either succeeds or fails for good.
- Hub delivery, WebSocket transport, paging of propagation and chat, and any claim that no event is ever lost end to end: not established by the code.
- Map, themes, exports and all rendering; configuration; field sanitising.

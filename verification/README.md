# Message delivery, replay and retention: a Dafny model

WuKongIM delivers every committed channel message to the live sessions of its subscribers, on
whichever node they are connected. This project models the part of `internal/app` that does so,
and one authority state machine of `internalv2/app`, and proves what that code keeps.

Check the whole project with `dafny verify dfyconfig.toml` (Dafny 4.11).

## What is modelled

- **Replay and retention.** A replayer walks a channel's durable log from a stored cursor, hands
  each committed message to delivery and stores the cursor after a batch. Retention hides a prefix
  of the log behind a boundary that may not pass the durable cursor, the high watermark, its
  checkpoint and the slowest in-sync replica. `ReplayRetention` is the joint protocol of all
  replicas; `CommittedReplay` is one replay pass, and `ReplayRefinement` shows that such a pass is a
  run of the joint protocol; `RetentionDecision` is one retention advance.
- **Delivery fan-out.** `SubscriberSource` hands out a channel's subscribers page by page;
  `LocalResolver` and `TagResolver` turn such a snapshot into pages of routes; `Topology` builds and
  validates the partition version of a tag; `Push` sends a message to its routes, local and remote,
  and reconciles partial replies; `Dispatcher` is the sharded queue in front of it; `AckRouting`
  routes acknowledgements and session closes to their owners.
- **Concurrent state machines.** `ApplyLock` is the reference-counted lock around applying channel
  metadata; `AckBatcher` batches remote acknowledgements; `RouteAuthority` orders route authorities;
  `CmdIntent` routes command-conversation intents to the owners of their UIDs.
- **Structures that stand in for simpler ones.** `NetworkBuckets` are sharded traffic counters with
  lazy pruning; `PresenceCache` is a cache with expiry; `RetentionBatch` lists keys round robin.

`Routes`, `Sequences`, `Subsequences`, `Ascending`, `Division`, `Sequence64` and `Options` hold what
several of these share.

Code that runs concurrently is modelled as a state machine whose steps are critical sections,
channel operations or single calls, in any interleaving. Code that updates fields, maps, arrays or
loop variables is a class or a method with loops, proved against specification functions that the
lemmas are about. Answers of stores, clocks, peers and other code outside these files are
parameters and may be anything, except for the assumptions below.

Assumptions about code that is not part of this model: a store call that confirms a cursor syncs
the row it returns; a crash falls back to the last synced cursor row or to any row written since;
the first readable sequence of a replica is at most one past the retention boundary; a peer that
answers an item push has received the items; a service that accepts metadata stores some metadata
under the channel's key; a subscriber store answers with at least one UID while there is any, with
no more than it was asked for and never with the empty UID, and its last answer has an empty cursor.
`ReplayRetention` keeps the second kind of store behaviour and the third assumption as switches, so
that its theorems say exactly which guarantee needs which.

## What the proofs found

Where a promise is false of the code, the code is kept, a concrete input is given, and the condition
under which the promise holds is proved for all inputs.

- The safety of retention depends on the floor reported by the runtime being bounded by the
  boundary, and on nothing else: torn store calls do not break it (`SafeExactlyWithBoundedFloors`,
  input `UnboundedFloorSkips`).
- A durable cursor at the boundary survives a crash exactly when reading and writing the cursor row
  is atomic (`AnchoredExactlyWithAtomicStores`): two overlapping confirmations can put a lower cursor
  back (input `TornConfirmLosesAnchor`). A single torn write does harm exactly when it was overtaken
  by a higher synced row (`WriteKeepsFloorsExactly`).
- A failing lookup loses routes. Locally these are pending routes already taken into the failed page
  and the UIDs of the last source page, or every page read if the source keeps its own position
  (`LocalResolver.ResolveToken.ResolvePage`, inputs `LocalResolver.FailedLookupLosesRoutes` and
  `FailedReadLosesPending`); in the tag resolver, all pending routes and all UIDs moved past
  (`TagResolver.ResolveToken.ResolvePage`, input `TagResolver.FailedLookupLosesRoutes`).
- A subscriber source whose store lists nobody although it has a snapshot enters that snapshot after
  the pages that the overlay filled, and leaves out whoever stands before that place
  (`NobodyLeftOutExactly`, input `SnapshotEnteredTooLate`).
- A reply that names routes more often than they were sent adds routes to the push result (input
  `OverreportedRoute`); it is the only way in which the result can differ from the input
  (`NoExcessExactly`).
- A stop that another thread finishes can still have to cancel its generation or to empty the queues
  after the dispatcher was started again, and then drops items of the new generation. A running,
  uncancelled generation loses nothing until somebody stops it exactly when no earlier stop is
  unfinished in one of these two ways (`LateAbandonExactly`, inputs `LateAbandonHappens` and
  `LateCancelHappens`, and `LateAbandonOnObject` on the dispatcher's methods).
- A failed removal of an active channel restores its metadata but not its active mark
  (`RollbackExactly`, input `FailedRemovalLosesActiveMark`).
- After an invalidation a read can still find an older answer: exactly when a fill of the UID was
  waiting, or when it is the empty UID and has an entry (`InvalidateExactly`, `ClearExactly`, inputs
  `StaleAnswerIsFound` and `EmptyUIDIsKept`).
- A snapshot at an earlier time than an earlier pruning can miss samples: exactly when something that
  was pruned is not expired at the earlier time (`TrafficStore.Snapshot`, input `RewoundClock`).

One hypothesis of the tag path would be false of an arbitrary source of pages: it stops collecting at
the first empty page, so it reaches every subscriber exactly when no page is hidden behind an empty
one (`CollectsAllExactlyWithoutGap`). The subscriber source of this repository never hands out such a
page (`SubscriberSource.ReadAll`), nor the same UID twice, so that both paths deliver the same routes
without any condition on the pages (`DeliverBothWays`).

## Model

| member | source | states |
|---|---|---|
| ReplayRetention.SafeExactlyWithBoundedFloors | internal/app/committed_replay.go:320-386 | Over every interleaving of commits, deliveries, replay passes, adoptions, retention advances, leader changes and crashes, everything at or below the boundary and every node's cursor was accepted by delivery; true if and only if floors are bounded by the boundary |
| ReplayRetention.ReachableIsSafe | internal/app/committed_replay.go:320-386 | Every reachable state is safe, also with torn store calls |
| ReplayRetention.StepKeepsInv | internal/app/manager_message_retention.go:84-149 | Every step keeps coverage of cursors, recoverable rows, pending stores and decided boundaries |
| ReplayRetention.DecisionRespectsGates | internal/app/manager_message_retention.go:184-197 | A decided boundary is at most the confirmed cursor, the high watermark, the checkpoint, the in-sync offset and the request |
| ReplayRetention.AdvanceReachesTheLeast | internal/app/manager_message_retention.go:84-149 | An advance that nothing disturbs raises the boundary to exactly the least of the request and the gates, if that is higher, and changes nothing else but the sync of the cursor row |
| ReplayRetention.AdoptionCatchesUp | pkg/db/message/compat.go:1305-1365 | Adopting a boundary above the cursor brings the cursor to it, synced; a cursor at or above it is left alone |
| ReplayRetention.UnboundedFloorSkips | internal/app/committed_replay.go:334-342 | A replica that reports a floor above the boundary reaches an unsafe state |
| ReplayRetention.AnchoredExactlyWithAtomicStores | internal/app/manager_message_retention.go:151-160 | Some replica always holds a cursor and a checkpoint at or above the boundary that no crash undoes; true if and only if store calls are atomic |
| ReplayRetention.StepKeepsAnchors | internal/app/manager_message_retention.go:84-149 | Every step keeps the durable cursors that the boundary stands on |
| ReplayRetention.TornConfirmLosesAnchor | internal/app/manager_message_retention.go:257-266 | Two overlapping confirmations reach a state without such a replica |
| ReplayRetention.WriteKeepsFloorsExactly | pkg/db/message/compat.go:1411-1430 | A cursor row that was read and is written back later, synced, keeps every durable floor if and only if the call was not overtaken by a higher synced row |
| ReplayRetention.CrashOfAllKeepsACursorAtTheBoundary | internal/app/manager_message_retention.go:151-160 | Whatever every replica recovers, one of them comes back with a cursor at or above the boundary |
| CommittedReplay.WalkSkipsNothing | internal/app/committed_replay.go:320-386 | Between the start cursor and the last accepted sequence, every sequence was accepted or hidden by retention |
| CommittedReplay.StoredOnlyAfterAcceptance | internal/app/committed_replay.go:374-381 | At the moment a cursor is stored, everything up to it is accounted for |
| CommittedReplay.AcceptedWithinFrontier | internal/app/committed_replay.go:355-373 | Nothing is delivered past the frontier observed last before it, nor below the retention floor |
| CommittedReplay.JumpsOnlyToReportedFloor | internal/app/committed_replay.go:330-342 | Wherever a trace jumps, the last observation before it reported the sequence behind the target as the first readable one, and more than 1: a report of 0 or 1 makes no pass jump |
| CommittedReplay.CommittedReplayer.SubmitBatch | internal/app/committed_replay.go:355-373 | Above the cursor the rows gone through are exactly the consecutive sequences that delivery took, each only while the pass was live; without an error they are all rows or end at the first one past the frontier; a row that leaves a gap is a corrupt state, and the other errors are those of the call that failed |
| CommittedReplay.CommittedReplayer.ObserveAndJump | internal/app/committed_replay.go:330-343 | The pass jumps exactly when the sequence behind the cursor is below the reported first readable one, to just below it, and records exactly the observation and the jump; it fails exactly when the report or the durable jump fails |
| CommittedReplay.CommittedReplayer.ReplayChannel | internal/app/committed_replay.go:320-386 | The trace of a pass is disciplined from the stored cursor on, or from 0 without one; every event in it was granted by a call that succeeded, and a pass none of whose calls fails, over a log without gaps, ends without an error; the lag is frontier minus cursor; with a fixed frontier C and start c all but two iterations have (iterations - 2) * batch <= C - c, and no lag is left when no batch is cut |
| ReplayRefinement.EventIsSteps | internal/app/committed_replay.go:320-386 | In any state of the joint protocol, the next event of a pass is one or two enabled steps of its replica |
| ReplayRefinement.PassIsARun | internal/app/committed_replay.go:320-386 | The trace of a pass, with whatever happens elsewhere between its events, is a run of the joint protocol that stores the pass's cursor and accepts what the pass has delivered |
| ReplayRefinement.PassIsSafe | internal/app/committed_replay.go:320-386 | From any reachable state, with bounded floors, a pass ends in a safe state in which everything up to its stored cursor was accepted |
| RetentionDecision.Decide | internal/app/manager_message_retention.go:184-197 | The boundary is the least of the request and all gates, and the reason names the first gate that reaches it |
| RetentionDecision.LowestIsGreatestLowerBound | internal/app/manager_message_retention.go:184-197 | That least value is a lower bound of request and gates and is attained by the request or by a first gate |
| RetentionDecision.RetentionOperator.AdvanceLocal | internal/app/manager_message_retention.go:84-149 | Only a ready leader whose lease has not ended answers, and a first view that is stale writes nothing; a dry run writes nothing; a real run writes at most one boundary, only on a second view that is fresh too, strictly above the latest, within all gates, behind the fence of that view and a synced cursor; exactly when it succeeds, and its whole answer |
| RetentionDecision.DryRunPredictsRealRun | internal/app/manager_message_retention.go:84-149 | On unchanged state a dry run announces the boundary, status and reason of the real run |
| RetentionDecision.StatusCases | internal/app/manager_message_retention.go:97-149 | The status cases are total and exclusive, the boundary never moves back, and a blocked answer names the first gate at the minimum |
| RetentionDecision.BlockedByFirstGate | internal/app/manager_message_retention.go:184-197 | Gate by gate, what a blocked answer says about cursor, in-sync offset, high watermark and checkpoint; and the first readable sequence that an answer gives |
| RetentionDecision.AnswersBeforeTheGates | internal/app/manager_message_retention.go:97-113 | A request that is not above the boundary changes nothing, and one above a cursor that is not is blocked by the cursor |
| LocalResolver.ResolveToken.ResolvePage | internal/app/deliveryrouting.go:896-1039 | A page followed by what is still owed is what was owed before, within the limit; a page that is not the last is full or reports somebody offline; what was read is on the page or pending, pending only behind a full page, and no source page is read for a full one; done means nothing is left; exactly which failures lose routes for a source that goes by the cursor, and which routes one that keeps its own position no longer hands out |
| LocalResolver.ResolveToken.FillPage | internal/app/deliveryrouting.go:946-1039 | The page loop conserves routes and offline UIDs, always makes progress, and stops only at a full page, an offline UID or the end |
| LocalResolver.Drive | internal/app/deliveryrouting.go:896-1039 | For any limits, the pages up to Done concatenate to the in-order expansion of all subscribers, each within its limit, and the drive ends |
| LocalResolver.FailedLookupLosesRoutes | internal/app/deliveryrouting.go:946-1039 | A failed lookup of the last page after which the retry says done although a route was never returned |
| LocalResolver.FailedReadLosesPending | internal/app/deliveryrouting.go:925-955 | A subscriber with two routes and pages of one: the second call takes the pending route, its read fails, and the route is owed no more |
| Routes.AppendResolved | internal/app/deliveryrouting.go:1042-1058 | Routes fill the page while there is room and spill over in order |
| Routes.ExpandPage | internal/app/deliveryrouting.go:1374-1407 | Page and overflow together are the routes of the UIDs in order; the page overflows only when full |
| Routes.RoomOfPage | internal/app/deliveryrouting.go:908-915 | A page has room for the given limit, else for the configured page size, else for 128 routes |
| Routes.OfflineExactlyOnce | internal/app/deliveryrouting.go:974-1008 | Offline UIDs are exactly those without routes, once each |
| Routes.ExpandPermuted | internal/app/deliveryrouting.go:1350-1372 | The routes of permuted UIDs are the same multiset |
| TagResolver.CollectSnapshotUIDs | internal/app/deliveryrouting.go:1320-1341 | Collects the pages up to the first one after which the source ends or its cursor string does not move, without repetitions |
| TagResolver.CollectsAllExactlyWithoutGap | internal/app/deliveryrouting.go:1320-1341 | With distinct non-empty UIDs every subscriber is collected if and only if no page is hidden behind an empty one |
| TagResolver.UniqueStrings | internal/app/deliveryrouting.go:1488-1505 | Drops empty and repeated strings and keeps first occurrences in order |
| TagResolver.PartitionUIDs | internal/app/deliveryrouting.go:1350-1372 | One partition per assigned node in ascending order, each with exactly the UIDs whose slot that node leads, in order; everybody in the list is in one |
| TagResolver.PartitionConserves | internal/app/deliveryrouting.go:1350-1372 | The partitions together hold every UID exactly as often as the list |
| TagResolver.IndexAfterCursor | internal/app/deliveryrouting.go:1465-1475 | The index after the first occurrence of the cursor string, or the start |
| TagResolver.NextUIDPage | internal/app/deliveryrouting.go:1429-1444 | The next slice of at most the limit, and whether the list ends there |
| TagResolver.ResolveToken.Refresh | internal/app/deliveryrouting.go:1163-1179 | A replaced body is re-entered after the cursor string; an equal body does not move the token |
| TagResolver.ResolveToken.ResolvePage | internal/app/deliveryrouting.go:1118-1241 | A page followed by what is still owed is what was owed before, within the limit; a page that is not the last is full or reports somebody offline; the cursor string stays the last UID read; done implies nothing pending; a failing lookup loses exactly the pending routes and those of the UIDs moved past, at least one |
| TagResolver.BuildTag | internal/app/deliveryrouting.go:1243-1308 | The tag body is a permutation of the collected UIDs, without repetition |
| TagResolver.DrivePages | internal/app/deliveryrouting.go:1118-1241 | Driving a body to Done, with any limits and with equal bodies replaced at any time, yields its in-order expansion |
| TagResolver.Drive | internal/app/deliveryrouting.go:1118-1372 | The tag path delivers the same multiset of routes as the in-order expansion of all subscribers, which is what the local path delivers |
| TagResolver.FailedLookupLosesRoutes | internal/app/deliveryrouting.go:1118-1241 | A failed lookup after which the retry says done although a route was never returned |
| SubscriberSource.SnapshotPage | internal/usecase/delivery/subscriber.go:332-394 | The next unseen UIDs of a list after the cursor string, exactly the limit of them unless no unseen UID is left |
| SubscriberSource.SubscriberState.TakeOverlay | internal/usecase/delivery/subscriber.go:265-279 | The overlay's UIDs fill a page first, each once |
| SubscriberSource.SubscriberState.ReadAnswer | internal/usecase/delivery/subscriber.go:310-321 | An answer of the store adds exactly its UIDs that were not handed out, and only its last one can fill the page |
| SubscriberSource.SubscriberState.NextStorePage | internal/usecase/delivery/subscriber.go:253-330 | A page of overlay, list or snapshot; full unless it is the last; the snapshot is entered only by a first answer that lists nobody |
| SubscriberSource.SubscriberState.NextPage | internal/usecase/delivery/subscriber.go:243-330 | Every page before the last is full, the cursor string is the last UID handed out, and when done everything of overlay and list was handed out once, or of the overlay and the snapshot from its entry on |
| SubscriberSource.ReadAll | internal/usecase/delivery/subscriber.go:243-394 | The pages of a source repeat no UID, are all full but the last, and together are what the source has to hand out, for any limit and any cut of the store's answers |
| SubscriberSource.NobodyLeftOutExactly | internal/usecase/delivery/subscriber.go:287-309 | Every subscriber is handed out if and only if the store lists its subscribers or its snapshot has nobody new before the place where it is entered |
| SubscriberSource.SmallOverlaysLoseNobody | internal/usecase/delivery/subscriber.go:287-309 | So it is when the overlay fills no page alone |
| SubscriberSource.SnapshotEnteredTooLate | internal/usecase/delivery/subscriber.go:287-309 | An overlay and a snapshot of which one subscriber is left out |
| SubscriberSource.DeliverBothWays | internal/app/deliveryrouting.go:896-1372 | On any channel's subscriber source the tag path delivers the same multiset of routes as the local path, which delivers in order to everybody handed out, with no condition on the pages |
| Topology.CurrentTopology | internal/app/deliveryrouting.go:729-761 | Lists exactly the slots of the UIDs in ascending order, each with its current leader and the epoch and balance of its assignment, or zeros without one; fails exactly when some leader is unknown |
| Topology.ValidateTopology | internal/app/deliveryrouting.go:763-792 | Accepts exactly the versions whose table and every reference agree with the cluster; fails exactly when a leader lookup is the first thing wrong |
| Topology.CollectCovers | internal/app/deliveryrouting.go:808-823 | Despite its early end, the assignment map has exactly the required slots that some assignment names |
| Topology.CoveredExactly | internal/app/deliveryrouting.go:794-806 | The assignments cover the slots if and only if the cached list or the listed one assigns all of them |
| Topology.AssignmentsTaken | internal/app/deliveryrouting.go:794-823 | The assignments are those of the cached list if it names every required slot and of the listed one otherwise; of that list the last one of each required slot, up to the first point where every required slot is named |
| Topology.ValidatesExactlyTheCurrent | internal/app/deliveryrouting.go:729-844 | A version over ascending slots validates if and only if it is what building yields and its slots are covered |
| Topology.BuiltIsValidatedExactlyWhenCovered | internal/app/deliveryrouting.go:729-844 | What was built validates exactly when its slots have assignments; without slots it always does |
| Topology.ValidatedIsBuilt | internal/app/deliveryrouting.go:729-844 | A validated version over exactly the UIDs' slots is the one that building yields |
| Push.LocalPush | internal/app/deliveryrouting.go:1525-1585 | Every route lands under its own outcome, in order, and none is lost |
| Push.AcceptedAndUnreported | internal/app/deliveryrouting.go:1960-2004 | With a counted reply, the first routes not rejected are accepted and the rest are missing; with a listed reply, what is not named is missing |
| Push.ReplyAccounting | internal/app/deliveryrouting.go:1948-2004 | What a reply settles and leaves open is what was sent plus what it reports in excess |
| Push.ReplyParts | internal/app/deliveryrouting.go:1960-2004 | A listing reply accepts what it lists and leaves open what it does not name; a counting reply accepts the first routes it does not reject, as many as it counts, and leaves the others open |
| Push.CountedInOrder | internal/app/deliveryrouting.go:1960-1980 | A counting reply that rejects nothing splits the routes in order where its count says |
| Push.TakeRoutes | internal/app/deliveryrouting.go:2014-2024 | Takes exactly the routes that are still counted and lowers the counts by them |
| Push.PushItems | internal/app/deliveryrouting.go:1858-1919 | The items carry exactly the chunk's routes, each recipient with its own frame; fails exactly when a frame cannot be encoded |
| Push.SplitRoutes | internal/app/deliveryrouting.go:1609-1622 | Splits routes into the sender's, the local and the remote ones by node, in order: the sender's own session, routes on this node, and routes elsewhere under their own node |
| Push.NoExcessExactly | internal/app/deliveryrouting.go:1948-2004 | The total excess is empty if and only if no reply names a route more often than it was sent |
| Push.NoAnswerSettlesNothing | internal/app/deliveryrouting.go:1938-1940 | Calls that are not answered settle no route as accepted or dropped |
| Push.OverreportedRoute | internal/app/deliveryrouting.go:1948-2004 | A push of one route to a peer that reports it twice yields more routes than it was given |
| Push.DeliveryPush.PushLegacyItems | internal/app/deliveryrouting.go:1921-1946 | Every missing route is sent once more, and the result is what these calls settle: accepted and dropped as their replies say, retryable what replies list so or leave open and every route of a call that was not answered |
| Push.DeliveryPush.PushRemoteNodeChunk | internal/app/deliveryrouting.go:1761-1826 | One batch call with its fallback accounts for every route of the chunk, and the result is what the replies of these calls settle |
| Push.DeliveryPush.PushRemoteNode | internal/app/deliveryrouting.go:1739-1759 | Chunks of at most 1000 routes account for all routes of the node |
| Push.DeliveryPush.PushRemoteNodes | internal/app/deliveryrouting.go:1690-1737 | All nodes are tried; the push fails exactly when some frame cannot be encoded |
| Push.DeliveryPush.PushSingleRoute | internal/app/deliveryrouting.go:1663-1675 | The short path for one route gives what the long one would |
| Push.DeliveryPush.Push | internal/app/deliveryrouting.go:1601-1661 | Accepted, retryable and dropped routes together are the given routes plus the excess of the replies; remote ones are accepted or dropped exactly as a reply lists or counts them, and none is without an answer; each remote route goes out in exactly one batch call and at most one legacy call, to its own node, with its own frame, never to the sender |
| Dispatcher.RoutedInOrder | internal/app/deliveryrouting.go:270-360 | In every run, what is routed of a channel is an in-order subsequence of its accepted submissions, and only its own shard routes it |
| Dispatcher.OneGeneration | internal/app/deliveryrouting.go:151-247 | In every run at most one generation of workers is alive and no queue is over its depth |
| Dispatcher.NothingMissing | internal/app/deliveryrouting.go:270-286 | Routed, in hand and queued items are the accepted ones in order exactly when nothing was dropped |
| Dispatcher.RoomIsUsed | internal/app/deliveryrouting.go:328-348 | In every run, a submission to a running dispatcher whose shard has room is accepted by that shard |
| Dispatcher.QueuedItemIsRouted | internal/app/deliveryrouting.go:270-286 | An idle worker of an uncancelled generation takes exactly the first item of its queue and routes it |
| Dispatcher.DropsOnlyAfterCancel | internal/app/deliveryrouting.go:250-286 | Whatever step of a run drops an item, it is a worker or the stop of one generation, and that generation was cancelled before: by its stop or its parent context, and for a stop's own drop by that stop |
| Dispatcher.LateAbandonExactly | internal/app/deliveryrouting.go:192-268 | While a generation runs uncancelled, no continuation without a stop or the end of its parent context drops an item of a channel, if and only if no earlier stop still has to cancel its generation or to empty the queues |
| Dispatcher.LateAbandonHappens | internal/app/deliveryrouting.go:192-268 | A run in which an earlier stop empties the queue of the new generation |
| Dispatcher.LateCancelHappens | internal/app/deliveryrouting.go:192-268 | A run in which an item is queued under the new generation while an earlier stop has not even cancelled its own |
| Dispatcher.LateAbandonOnObject | internal/app/deliveryrouting.go:192-268 | The same loss through the dispatcher's own methods: started, stopped, finished by another thread, started again, and emptied by the first stop |
| Dispatcher.StepKeepsControl | internal/app/deliveryrouting.go:151-247 | Every step keeps the start, stop and generation invariant |
| Dispatcher.StepKeepsFlow | internal/app/deliveryrouting.go:270-360 | Every step keeps routed, held and queued items a subsequence of the accepted ones |
| Dispatcher.CommittedDispatcher.Start | internal/app/deliveryrouting.go:151-185 | Takes the machine's start step; a generation that starts finds no worker alive, has not been stopped, gets one idle worker per shard and one for the fallback if they are enabled, and admits submissions |
| Dispatcher.CommittedDispatcher.SubmitCommitted | internal/app/deliveryrouting.go:328-360 | A shard with fewer items than the depth gets the item at its end; if it is full and the fallback exists and has room, that gets it; otherwise no lane changes; no other lane ever does. It succeeds exactly while the dispatcher runs, never failing for a full queue |
| Dispatcher.CommittedDispatcher.StopBegin | internal/app/deliveryrouting.go:192-215 | Takes the machine's stop step; exactly one stopper of a running generation gets to cancel it, the generation is the latest, and nothing is admitted afterwards |
| Dispatcher.CommittedDispatcher.AbandonQueued | internal/app/deliveryrouting.go:250-268 | Empties every queue by the machine's abandon steps, counts all of it as dropped and leaves what was accepted and routed alone |
| Dispatcher.CommittedDispatcher.FinishStop | internal/app/deliveryrouting.go:239-247 | Takes the machine's finish step; for the latest generation a new start becomes possible, and a stop that comes late leaves the control of a later generation untouched |
| Subsequences.SubOnly | internal/app/deliveryrouting.go:431-439 | Choosing the items of one channel keeps the subsequence relation |
| AckRouting.AckIndex.LookupSessionRoute | internal/runtime/delivery/ackindex.go:181-201 | Lists exactly the bindings of one UID on one session, once each |
| AckRouting.AckIndex.RemoveRoute | internal/runtime/delivery/ackindex.go:227-254 | Removes exactly one binding and keeps the session index exact |
| AckRouting.AckIndex.Bind | internal/runtime/delivery/ackindex.go:34-43 | Adds or replaces one binding and keeps the session index exact |
| AckRouting.Remove | internal/runtime/delivery/ackindex.go:311-331 | Removes one key and returns to the inline form when a single key remains |
| AckRouting.AckRoute | internal/app/deliveryrouting.go:2033-2062 | A binding goes away if and only if its owner was told: a remote one by a notification, a local one, or one of owner 0, by the handler; the call fails exactly when it could not be |
| AckRouting.NotifyOwners | internal/app/deliveryrouting.go:2084-2097 | Every remote owner is notified once, and the bindings of those that were told are removed |
| AckRouting.SessionClosed | internal/app/deliveryrouting.go:2071-2113 | The bindings that remain are exactly those of other sessions or UIDs, and of owners whose notification or handler failed or is missing; exactly the remote owners of the session are notified, once each |
| ApplyLock.RunsExclude | internal/app/channelcluster.go:116-140 | In every run, live threads of a key share one lock object whose count is the number of its users, and at most one holds it |
| ApplyLock.RunsKeepLastApplied | internal/app/channelcluster.go:87-114 | In every run, a key that nobody is in the middle of holds what its last successful apply left |
| ApplyLock.NoThreadsNoLocks | internal/app/channelcluster.go:130-140 | When nobody is inside, the lock table is empty |
| ApplyLock.StepKeepsLocks | internal/app/channelcluster.go:116-140 | Every step keeps sharing, counting and holding, also while table entries are deleted |
| ApplyLock.StepKeepsMetas | internal/app/channelcluster.go:98-114 | Every step keeps snapshots and quiet metas equal to the last successful apply |
| ApplyLock.RollbackExactly | internal/app/channelcluster.go:98-114 | Whatever other threads do between the steps of a failing apply, the key gets its metadata of before back, and its active mark if and only if it was not the removal of an active channel |
| ApplyLock.RollbackLeavesOtherKeys | internal/app/channelcluster.go:98-114 | Without other threads a failing apply touches no other key |
| ApplyLock.ApplyExactly | internal/app/channelcluster.go:87-114 | Whatever other threads do in between, an apply that succeeds leaves what the service stored and an active mark exactly when it is no removal, and one that the service refuses leaves both as they were |
| ApplyLock.FailedRemovalLosesActiveMark | internal/app/channelcluster.go:98-114 | A run in which a failed removal leaves a channel with its metadata and without its active mark |
| AckBatcher.CommandsAreConserved | internal/app/delivery_ack_batcher.go:58-181 | In every run each accepted command is in exactly one of pending, cancelled and detached; detached batches followed by the pending one are the enqueue order less the cancelled; no batch is too large |
| AckBatcher.WrittenAtMostOnce | internal/app/delivery_ack_batcher.go:123-137 | A waiter's channel is written at most once, by the send of its own batch |
| AckBatcher.ClosedForGood | internal/app/delivery_ack_batcher.go:66-114 | After Close nothing is pending and nothing more is admitted, whatever follows |
| AckBatcher.StepKeepsNodes | internal/app/delivery_ack_batcher.go:58-181 | Every step keeps order, sizes and identities of every node's batches |
| AckBatcher.StepKeepsSends | internal/app/delivery_ack_batcher.go:123-137 | Every step keeps the count of writes of every waiter |
| AckBatcher.AckBatchNotifier.NotifyAck | internal/app/delivery_ack_batcher.go:58-94 | Queues the command as the node's last unless batching is off or the notifier closed; a batch is handed out to be sent exactly when it is full |
| AckBatcher.AckBatchNotifier.CancelWaiter | internal/app/delivery_ack_batcher.go:139-157 | Withdraws exactly a pending waiter, keeps the order of the others, and drops a batch that becomes empty |
| AckBatcher.AckBatchNotifier.Close | internal/app/delivery_ack_batcher.go:103-114 | Closes and takes out every pending batch, in any order of nodes |
| AckBatcher.AckBatchNotifier.FlushNode | internal/app/delivery_ack_batcher.go:116-121 | Takes out one node's pending batch |
| AckBatcher.AckBatchNotifier.FlushWaiters | internal/app/delivery_ack_batcher.go:123-137 | Sends the commands in order, and then takes the machine's send step by writing to one waiter after the other |
| AckBatcher.AckBatchNotifier.WriteOutcomes | internal/app/delivery_ack_batcher.go:134-136 | The loop over the waiters adds exactly one write for each of them |
| RouteAuthority.NewerIsAnOrder | internalv2/app/conversation_route_lifecycle.go:235-246 | Being newer is a strict order, total up to equal keys |
| RouteAuthority.LatestIsMaximal | internalv2/app/conversation_route_lifecycle.go:179-191 | The latest target of a slot is a lexicographic maximum of all its targets seen |
| RouteAuthority.LatestFieldByField | internalv2/app/conversation_route_lifecycle.go:235-246 | The latest target of a slot has the greatest revision seen there; of those with this revision the greatest configuration epoch, of those the greatest term, and of those the greatest authority epoch |
| RouteAuthority.ChainAscends | internalv2/app/conversation_route_lifecycle.go:179-191 | The accepted targets of a slot are strictly ascending, so the latest never moves back |
| RouteAuthority.OrderIndependentExactly | internalv2/app/conversation_route_lifecycle.go:179-191 | The latest targets are independent of order and duplication if and only if no slot has two different newest targets |
| RouteAuthority.EqualKeysSuffice | internalv2/app/conversation_route_lifecycle.go:235-246 | Newest targets are unique per slot when equal keys mean equal targets |
| RouteAuthority.InterleavingsAgree | internalv2/app/conversation_route_lifecycle.go:115-153 | Every interleaving of the watch and the reconcile stream gives the same latest targets |
| RouteAuthority.DrainedExactly | internalv2/app/conversation_route_lifecycle.go:155-177 | A drain starts exactly when a locally capable target is replaced by a strictly newer one led elsewhere |
| RouteAuthority.DrainedOnce | internalv2/app/conversation_route_lifecycle.go:155-177 | The drained targets of a slot are strictly ascending: none is drained twice |
| RouteAuthority.RouteLifecycle.Accept | internalv2/app/conversation_route_lifecycle.go:179-191 | Accepts a target exactly if it is the slot's first, or has a higher revision than its latest, or the same and a higher configuration epoch, or both the same and a higher term, or all the same and a higher authority epoch |
| RouteAuthority.RouteLifecycle.Handle | internalv2/app/conversation_route_lifecycle.go:155-177 | A target led here is marked active; one led elsewhere drains a previous target that was led here or by nobody, and one without leader is marked warming; a target that is not newer does nothing |
| CmdIntent.Normalize | internal/app/cmdsync_intent.go:214-244 | Accepts exactly the valid intents, trims channel and sender, and keeps, per trimmed UID, the greatest read sequence |
| CmdIntent.MaximumIsUnique | internal/app/cmdsync_intent.go:223-235 | There is one such result, whatever the iteration order |
| CmdIntent.Deployment.GroupByOwner | internal/app/cmdsync_intent.go:136-151 | Groups partition the UIDs by the owner that each one's own lookup named |
| CmdIntent.Deployment.SinkPush | internal/app/cmdsync_intent.go:179-197 | A stale-owner answer stored nothing and some UID was not owned; success stored every UID once at its validated owner; it fails only when a lookup or the store does |
| CmdIntent.Deployment.PushOrRetry | internal/app/cmdsync_intent.go:56-75 | One group is done only if every UID of it was stored exactly once at its owner, also when a stale owner makes it look up and push once more; it is not done only when a handler is missing, a call failed, or owners changed: without a retry once, with it twice |
| CmdIntent.Deployment.PushGroups | internal/app/cmdsync_intent.go:56-75 | All groups are pushed, also after one has failed, and they succeed only if every UID of all of them was stored exactly once |
| CmdIntent.Deployment.PushIntent | internal/app/cmdsync_intent.go:45-75 | Full acceptance means that every normalized UID's read sequence was stored exactly once and unchanged, nothing else was, and each at a node that a lookup during the push named as its owner; an acceptable intent is refused only when a handler is missing, a call failed, or owners changed twice while it was pushed; and either no UID was pushed because an owner was unknown, or every one was |
| RetentionBatch.EveryKeyIsListedFairly | internal/app/channelretention.go:47-79 | After k batches of size b over n keys every key was listed floor(kb/n) times, and once more exactly when it lies in the last incomplete round |
| RetentionBatch.NoRepeatWithinABatch | internal/app/channelretention.go:47-64 | No key repeats within a batch |
| RetentionBatch.BatchesAreOneRotation | internal/app/channelretention.go:66-79 | Batches continue where the one before ended |
| RetentionBatch.RetentionChannels.NextBatch | internal/app/channelretention.go:66-79 | A batch starts at the remembered position, or at 0 when the list became shorter, has the batch size if that is positive and smaller than the list and the whole list otherwise, and the next one starts behind it, wrapping at the end |
| RetentionBatch.RetentionChannels.ListRetentionChannels | internal/app/channelretention.go:36-64 | Lists exactly the batch's keys, succeeds exactly when all of them parse in time, and moves on even when it fails |
| RetentionBatch.RetentionChannels.ListBatches | internal/app/channelretention.go:36-79 | k successful calls list exactly the positions of k batches |
| NetworkBuckets.TrafficStore.Add | internal/app/network_observability.go:176-189 | Counts a sample and, when an interval has passed, takes out exactly the expired keys of its shard or of the whole store |
| NetworkBuckets.TrafficStore.PruneForWrite | internal/app/network_observability.go:222-238 | Prunes every shard when none was pruned yet, the clock went back or a second has passed, and changes nothing otherwise or while another writer prunes |
| NetworkBuckets.RecordedIs | internal/app/network_observability.go:176-189 | A recorded bucket counts exactly the bytes of its direction and type within its 100 ms |
| NetworkBuckets.UnexpiredIs | internal/app/network_observability.go:739-745 | A bucket is kept exactly while it ends after the cutoff |
| NetworkBuckets.TrafficStore.Snapshot | internal/app/network_observability.go:191-206 | Equals the unexpired part of one map that is never pruned if and only if everything taken out before is expired now, so it does when no earlier pruning used a higher cutoff; what it has ends after the cutoff and was recorded |
| NetworkBuckets.Replay | internal/app/network_observability.go:176-253 | Under a clock that never goes back, every read of a run is what the never-pruned map would give |
| NetworkBuckets.RewoundClock | internal/app/network_observability.go:191-206 | A read at an earlier time than the one before misses the sample exactly when the later time was past its window |
| NetworkBuckets.WindowBrackets | internal/app/network_observability.go:779-785 | The window total counts every sample at or after the cutoff and none at or before the cutoff less 100 ms |
| NetworkBuckets.Totals | internal/app/network_observability.go:347-352 | The totals are the sums of the snapshot's buckets by direction |
| NetworkBuckets.History | internal/app/network_observability.go:457-557 | The traffic points stand at ascending 5 s steps behind the cutoff, each with exactly the bytes of its own step, every bucket's step is shown unless it has no bytes, and they add up to the totals |
| NetworkBuckets.StepsAddUp | internal/app/network_observability.go:552-557 | Cutting buckets into steps loses nothing |
| PresenceCache.HitsAreRecentAnswers | internal/app/delivery_presence_cache.go:69-148 | In every run a hit is an answer the target gave for that UID less than ttl after the start of its fill |
| PresenceCache.SizeIsBounded | internal/app/delivery_presence_cache.go:131-133 | In every run the size is at most the limit or the largest number of fresh answers of one fill |
| PresenceCache.InvalidateExactly | internal/app/delivery_presence_cache.go:150-157 | Whatever happens after an invalidation, every later read of the UID finds only answers of fills that started after it, if and only if no fill of the UID was waiting and it is not the empty UID with an entry |
| PresenceCache.ClearExactly | internal/app/delivery_presence_cache.go:159-166 | After a clear this holds of a UID, also of the empty one, if and only if no fill of it was waiting |
| PresenceCache.NextReadAsksTarget | internal/app/delivery_presence_cache.go:47-57 | After a register or unregister of a non-empty UID the next read goes to the target, other UIDs are not affected, and with no fill waiting later hits are answers of later fills; after a replay the next read of every UID goes to the target |
| PresenceCache.StaleAnswerIsFound | internal/app/delivery_presence_cache.go:81-101 | A run in which a lookup that was waiting during an invalidation caches the answer of before |
| PresenceCache.EmptyUIDIsKept | internal/app/delivery_presence_cache.go:150-157 | A run in which the entry of the empty UID survives its invalidation |
| PresenceCache.StepKeeps | internal/app/delivery_presence_cache.go:69-166 | Every step keeps entries equal to given answers, and the size bound |
| PresenceCache.DeliveryPresenceCache.Store | internal/app/delivery_presence_cache.go:129-147 | Each UID of the list gets its answer until ttl after the start, or no entry if that is empty; all other entries stay, unless there would be more than the limit, and then they go |
| PresenceCache.DeliveryPresenceCache.EndpointsByUID | internal/app/delivery_presence_cache.go:69-101 | An entry that has not expired answers and nothing changes; otherwise the target's answer is returned and stored, and an error leaves the cache as it is |
| PresenceCache.DeliveryPresenceCache.EndpointsByUIDs | internal/app/delivery_presence_cache.go:103-148 | Each UID gets its hit or the target's answer; only the misses are asked for and stored |
| PresenceCache.DeliveryPresenceCache.InvalidateUID | internal/app/delivery_presence_cache.go:150-157 | Removes the UID's entry, except for the empty UID |
| PresenceCache.DeliveryPresenceCache.ClearAll | internal/app/delivery_presence_cache.go:159-166 | Removes every entry |

## Left out

- The run loop, dirty set and start and stop of the committed replayer: scheduling of passes over channels; a mark set during a pass of the same channel may be cleared, and only the full scan covers that.
- Push.DeliveryPush.PushRemoteNodes: the four concurrent workers are modelled one after another, because their calls share nothing but the reply channel.
- Push.LocalPush: the reuse of one frame for several recipients and the writing of frames to sockets; a connection is either writable or not.
- Dispatcher.RoutedInOrder: the routing of message-scoped events with its retries; such a submission is only counted as in flight.
- ApplyLock.RunsKeepLastApplied: changes of metadata by callers that do not go through ApplyMeta.
- AckRouting.SessionClosed: changes of the index by other calls while a session close is being routed.
- RouteAuthority.RouteLifecycle.Handle: the marks of the local authority are made outside the lock, so their order across goroutines, and the waiting for a drain to finish, are not modelled.
- CmdIntent.Deployment.PushIntent: what is stored when the push does not report full acceptance, beyond that it is a part of what was pushed by each call.
- PresenceCache.DeliveryPresenceCache.EndpointsByUID: the variant without a cache when the ttl is not positive, and heartbeats, which do not touch the cache.
- NetworkBuckets.History: the history of dials, queues and remote calls, which is built in the same way from other buckets; rates, percentiles, events and in-flight gauges.
- TagResolver.Drive: the tag manager's own reuse and versioning of tags; a page may find its body replaced by any other, and the equality with the local path is stated for equal bodies.
- SubscriberSource.SubscriberState.NextPage: errors of the subscriber store, and how the kind of a channel decides its overlay and its store; a list that changes between two pages.
- LocalResolver.ResolveToken.ResolvePage: a resolver without a presence authority, which answers at once that it is done.
- Person channels in the tag resolver, which delegates them to the local resolver.
- The remote forwarding of a retention request to the channel leader, and the conversion of its answers between packages.
- Integer overflow of counters other than message sequences, which are bounded by 64 bits.
- Configuration, wiring, logging, metrics, tracing, wire formats, and the stores, the presence directory, the channel runtime and the cluster behind the interfaces used here.

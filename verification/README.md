# Verified model of the mission, edge, model-registry and vision pipelines

A Dafny model of the parts of the system whose behaviour depends on histories, interleavings or arithmetic over
whole inputs, with proofs about them. `dafny verify dfyconfig.toml` checks everything.

What is modelled, by file:

- **Edge store-and-forward** - `EdgeBuffer` (the device's table as a class, batches, pruning, draining),
  `EdgeIngest` (the server's ingest and one sync cycle as methods), `EdgeDelivery` (both sides as one step system:
  overlapping cycles, lost requests and answers, prunes, ingests that interleave and break), `EdgeProgress` (what
  undisturbed cycles achieve).
- **Outbox** - `OutboxRows` (rows, topics, envelopes), `OutboxPublisher` (any number of publishers as steps with
  row locks, unconfirmed sends, rollbacks, crashes), `OutboxOrder` (when a partition is in order, and a consumer
  that skips repeats), `OutboxPoller` (the poll cycle as the loop it is), `EndToEnd` (device and missions to log).
- **Missions** - `Missions` (the service as a class: a check, then a transaction), `MissionRuns` (interleavings),
  `Retry`, `ProcessingWorker` (what one command emits), `ProcessingHandler` (the consumer with dedup, retry and
  dead letters), `ProcessingDeliveries` (its deliveries in flight, step by step), `ProcessingRuns` (an emission
  consumed).
- **Model registry** - `ModelRegistry` (the service as a class over its two tables), `ModelHistory` (against the
  plain history of promotions).
- **Tracking and detection** - `Geometry`, `StableSort`, `Tracking` (the tracker as a class),
  `StableMatching` (its matching is the only stable one), `TrackingRuns` (whole runs), `DetectionPipeline`.
- **Evaluation** - `Evaluation` (greedy matching), `AveragePrecision`, `EvaluationReport`, `SelfEvaluation`.
- **COCO** - `SortedNames`, `Coco` (reader and writer), `CocoReading` (any document), `CocoRoundTrip`.
- **Dataset split** - `Shuffle` (mulberry32 and the in-place shuffle; `Math.imul` as in section 21.3.2.19 of
  ECMA-262), `DatasetSplit`.
- `Wrappers` and `Sequences` hold stock types and slice equations.

Code that changes state is modelled by classes and loops, and each such method is proved equal to a function of
its old state. The properties are proved about those functions. The interleaved systems are total step functions:
a step that is not enabled changes nothing, and the theorems hold for every list of steps.

## Assumptions

- Each transaction body, and each single SQL statement outside one, is one atomic step. A read before a
  transaction is its own step. An error inside a transaction undoes it; the commit that succeeds but is reported
  as a failure is an explicit outcome where the model has faults (`ProcessingHandler`, `OutboxPublisher`).
- `promoted_at` and `created_at` come from strictly increasing clocks, so outbox rows are kept in creation order.
- Generated ids are fresh; JSON texts, hashes and object keys are abstract values; payload sizes are byte counts.
- Floats are reals. A JavaScript ratio may also be non-finite.
- A Kafka send either reaches the log before the call ends or never does. The publisher's log is one sequence; a
  partition is its share for one topic and key.

## Where the code and its own words differ

- The comment on the split's remainder says there is no risk of a negative test count. From 1,000,000 items on
  there is: the tolerance on the ratios can exceed one item (`DatasetSplit.TestCountSign`). The split is still a
  partition (`DatasetSplit.CutIsPartition`).
- Editing, deleting and attaching a video are documented as DRAFT-only. The status is checked before the
  transaction and not again inside, so all three can hit a queued mission (`MissionRuns.QueuedMissionIsRenamed`,
  `MissionRuns.QueuedMissionIsDeleted`, `MissionRuns.QueuedMissionGetsOtherVideo`). They do no harm exactly when the
  mission is still a draft at the time of the write, or the write changes nothing
  (`MissionRuns.AlwaysDraftOnlyIff`); use cases that do not overlap are one such case
  (`MissionRuns.SerialRunsAreDraftOnly`).
- The sync client says nothing is lost. An ingest that breaks between the record and the row loses the event, and
  nothing else does (`EdgeDelivery.LosesIff`); the retry is then answered as a duplicate
  (`EdgeDelivery.RetryOfLostIsAcknowledged`), which the server's own comment accepts. And a local-only row shadows
  a later append of the same id (`EdgeDelivery.LocalRowShadowsAppend`).
- Partition keys are documented as preserving the order per mission. On the commands topic they do, with any number
  of publishers, since a mission has one command (`EndToEnd.MissionIsCommandedOnce`). A device's events keep theirs
  exactly when no publisher sends past an earlier row of the device (`OutboxOrder.KeyOrderIff`), and two publishers
  can (`EndToEnd.DeviceEventsReorder`).
- An event that ends as a dead letter may have moved its mission, exactly when the commit was reported as a failure
  (`ProcessingDeliveries.DeadLetteredThoughMovedIff`).
- An explicit rollback target need not ever have been in production: any registered version is accepted
  (`ModelHistory.ExplicitRollback`, `ModelHistory.RollbackToCandidate`).

## Model

| member | source | states |
|---|---|---|
| EdgeBuffer.NextBatchIsLongest | apps/edge-agent/src/event-buffer.ts:124-146 | a batch is the longest prefix of the unsynced rows, oldest first, within both caps, or one oversized row; it is empty only if nothing is unsynced or the event cap is 0 |
| EdgeBuffer.NextBatchMeans | apps/edge-agent/src/event-buffer.ts:124-146 | the same in plain numbers: the batch is a prefix of the unsynced rows, of at most maxEvents rows and, unless it is a single row, maxBytes payload bytes, and any longer prefix breaks one of the two caps |
| EdgeBuffer.TakeBatch | apps/edge-agent/src/event-buffer.ts:135-145 | the accumulation loop stops exactly where that longest prefix ends |
| EdgeBuffer.PruneIsBounded | apps/edge-agent/src/event-buffer.ts:172-204 | pruning keeps every unsynced row in order, leaves at most max(maxRows, unsynced) rows, drops exactly the rows synced before the cutoff and then, oldest first, as many synced rows as the table is over its cap |
| EdgeBuffer.CycleShortens | apps/edge-agent/src/sync-client.ts:45-96 | an acknowledged cycle takes exactly its batch off the front of the unsynced rows |
| EdgeBuffer.CyclesDrain | apps/edge-agent/src/sync-client.ts:40-105 | as many acknowledged cycles as there are unsynced rows empty the buffer, and what they sent is those rows in append order; with an event cap of 0 they do not |
| EdgeBuffer.InsertKeepsValid | apps/edge-agent/src/event-buffer.ts:77-106 | both appends keep row ids fresh and event ids unique |
| EdgeBuffer.MarkAt | apps/edge-agent/src/event-buffer.ts:149-159 | marking changes the named rows, only those, and only their sync time |
| EdgeBuffer.EdgeEventBuffer.Append | apps/edge-agent/src/event-buffer.ts:77-84 | an append adds an unsynced row, or nothing if the event id is already in the table |
| EdgeBuffer.EdgeEventBuffer.AppendLocalOnly | apps/edge-agent/src/event-buffer.ts:99-106 | a local row is born synced and never becomes something to send |
| EdgeBuffer.EdgeEventBuffer.CountUnsynced | apps/edge-agent/src/event-buffer.ts:109-114 | the result is the number of positions whose row has no sync time, which is also how many rows there are to send |
| EdgeBuffer.EdgeEventBuffer.NextUnsyncedBatch | apps/edge-agent/src/event-buffer.ts:124-146 | returns that longest batch and changes nothing |
| EdgeBuffer.EdgeEventBuffer.MarkSynced | apps/edge-agent/src/event-buffer.ts:149-159 | the new table is the old one with the given rows marked |
| EdgeBuffer.EdgeEventBuffer.Prune | apps/edge-agent/src/event-buffer.ts:172-204 | the new table is the pruned one, the bound holds, and the result is the number of rows removed |
| EdgeIngest.RunSyncCycle | apps/edge-agent/src/sync-client.ts:40-105 | rows are marked only after a confirmed answer, and then exactly the batch; on a network error, a refusal or an unreadable body the table is unchanged |
| EdgeIngest.EdgeEventsService.MarkProcessed | apps/api/src/processed-events/processed-events.repository.ts:23-31 | insert-if-absent: the answer is whether the id was absent |
| EdgeIngest.EdgeEventsService.IngestOne | apps/api/src/edge/edge-events.service.ts:64-83 | the id is recorded before the row is written: a failed insert leaves the record without a row |
| EdgeIngest.EdgeEventsService.IngestAll | apps/api/src/edge/edge-events.service.ts:61-84 | the loop handles every event up to where it breaks, and counts each as accepted or duplicate |
| EdgeIngest.EdgeEventsService.Ingest | apps/api/src/edge/edge-events.service.ts:45-89 | each first occurrence of an unrecorded id handled gives one row, in order, with the device's id as its key, the event's payload and the request's correlation id; a batch with an unsupported type changes nothing; the counters add up to the batch and accepted is the number of new ids |
| EdgeIngest.HandleFirstAre | apps/api/src/edge/edge-events.service.ts:61-84 | handling events one by one records all their ids and adds one row per first occurrence, repeats inside the batch included |
| EdgeIngest.NovelIds | apps/api/src/edge/edge-events.service.ts:65-72 | the events that get rows have pairwise different ids: the batch's ids that were not recorded |
| EdgeIngest.NovelAreFirsts | apps/api/src/edge/edge-events.service.ts:61-84 | those events are the batch's first occurrences of unrecorded ids, in order |
| EdgeIngest.RowsCarryEvents | apps/api/src/edge/edge-events.service.ts:75-82 | each event's row has the request's row id, the device's id, the event's type and payload, and the request's correlation id |
| EdgeDelivery.NextKeepsInv | apps/edge-agent/src/sync-client.ts:40-105 | every step of the device, the network and the ingests keeps the account below |
| EdgeDelivery.MarkConserves | apps/edge-agent/src/sync-client.ts:92-95 | marking by row id never marks an event that the server has not recorded, although batches go stale under other cycles and prunes |
| EdgeDelivery.RowsCarryEnteredEvents | apps/api/src/edge/edge-events.service.ts:71-82 | in every run each outbox row carries the payload of an event that append took in under the row's id, and only such events are ever sent |
| EdgeDelivery.PruneStepIsBounded | apps/edge-agent/src/event-buffer.ts:172-204 | a prune between any two steps keeps what is unsynced and bounds the table |
| EdgeDelivery.UnansweredMarksNothing | apps/edge-agent/src/sync-client.ts:57-92 | an answer that comes after the device gave up marks nothing, and a lost request never reaches the server |
| EdgeDelivery.NothingIsLostOrDoubled | apps/api/src/edge/edge-events.service.ts:45-89 | after any interleaving, an id taken in by append is unsynced or recorded; a recorded id has one row, or is in flight, or is one of at most as many lost ids as ingests failed; no id has two rows and no row comes from an id never taken in |
| EdgeDelivery.QuietMeansExactlyOnce | apps/api/src/edge/edge-events.service.ts:45-89 | with nothing in flight and nothing unsynced, each id taken in has one row or is lost, never both, so rows and lost ids add up to the ids taken in; the rows are those ids, once each, if and only if nothing is lost |
| EdgeDelivery.AppendIsAccountedIff | apps/edge-agent/src/event-buffer.ts:77-106 | after an append the event is pending or recorded if and only if its id was new to the table, pending there, or recorded |
| EdgeDelivery.LocalRowShadowsAppend | apps/edge-agent/src/event-buffer.ts:77-106 | a counterexample: an id first written as local-only makes a later append do nothing, and it is never sent |
| EdgeDelivery.LostStaysLost | apps/api/src/edge/edge-events.service.ts:64-83 | no steps that may follow ever give a lost id a row |
| EdgeDelivery.LosesIff | apps/api/src/edge/edge-events.service.ts:64-83 | a step loses an id if and only if it breaks an ingest between an event's record and its row, and then exactly that id |
| EdgeDelivery.BrokenIngestLoses | apps/api/src/edge/edge-events.service.ts:64-83 | a counterexample to 'nothing is lost': a run of five steps that loses the one event taken in |
| EdgeDelivery.RetryOfLostIsAcknowledged | apps/edge-agent/src/sync-client.ts:40-105 | and its continuation: the next cycle sends the lost event again, is answered that it is a duplicate and marks it synced, and there is no row |
| EdgeDelivery.UninterruptedIngestIsHandle | apps/api/src/edge/edge-events.service.ts:64-83 | the record step and the insert step, uninterrupted, are the ingest's handling of one event |
| EdgeProgress.CleanCycleDelivers | apps/edge-agent/src/sync-client.ts:40-105 | after any run, a sync cycle with a supported batch that nothing disturbs takes its batch off the device's list, records its ids, gives each new one its row and loses nothing |
| EdgeProgress.EverythingDrains | apps/edge-agent/src/sync-client.ts:40-105 | after any run, however disturbed, if everything unsynced is a health report, some further cycles empty the device's list, record all its ids and lose nothing more |
| EndToEnd.EveryMessageHasAnEvent | apps/api/src/edge/edge-events.service.ts:45-89 | in device, network, ingest and publishers together, each device message in the log is that of one outbox row of one event taken in: its key is the device and its payload that event's |
| EndToEnd.OneEventOneMessage | apps/outbox-publisher/src/outbox-poller.ts:40-93 | two device messages are the same message if and only if they come from the same event |
| EndToEnd.QuietEventsAreLoggedIff | apps/outbox-publisher/src/outbox-poller.ts:40-93 | with nothing under way and every row published, an event taken in is in the log if and only if it is not lost |
| EndToEnd.MissionIsCommandedOnce | apps/api/src/missions/missions.service.ts:125-201 | in missions, ingests and any number of publishers together, a mission's share of the commands topic is in order; it has no message in DRAFT, at most one distinct message afterwards, exactly one once every row is published, and that is a request for the video the mission had when it left DRAFT |
| EndToEnd.DeviceEventsReorder | apps/outbox-publisher/src/outbox-poller.ts:7-15 | a counterexample: a run of the whole system in which two publishers put two events of one device on its partition in the wrong order |
| EndToEnd.EveryRowHasTopic | apps/outbox-publisher/src/envelope-builder.ts:12-26 | topicForEventType is defined for every row the API inserts |
| OutboxRows.TopicIff | apps/outbox-publisher/src/envelope-builder.ts:12-26 | the commands topic is for processing requests, the device topic for health reports, and no other event type has one |
| OutboxRows.MessageCarriesRow | apps/outbox-publisher/src/envelope-builder.ts:36-62 | a message repeats its row: key, ids, type, payload, the row's correlation id or else its event id, and api as the producer of what the API writes |
| OutboxPublisher.FirstFreeAre | apps/outbox-publisher/src/outbox-poller.ts:7-15 | a claim takes at most the limit of rows, in creation order, none published and none locked |
| OutboxPublisher.ClaimIsFull | apps/outbox-publisher/src/outbox-poller.ts:7-15 | a claim skips no free row before its last, and one below the limit takes every free row; its size is the smaller of the limit and the number of free rows |
| OutboxPublisher.NextKeepsInv | apps/outbox-publisher/src/outbox-poller.ts:40-93 | every insert, claim, send, commit, rollback or crash of any publisher keeps claims disjoint, the log faithful and the copies counted |
| OutboxPublisher.NoRowIsClaimedTwice | apps/outbox-publisher/src/outbox-poller.ts:7-93 | with any number of publishers no row is in two open batches; published rows are in the log; a row's copies are the rolled-back sends of it, plus one if published, plus one if an open batch has sent it; copies of a row are identical and different rows differ in event id |
| OutboxPublisher.RolledBackRowsAreFree | apps/outbox-publisher/src/outbox-poller.ts:40-93 | a batch that is aborted, or whose commit fails, gives its rows back: none is published and each is free to be claimed again |
| OutboxOrder.SinglePublisherKeepsOrder | apps/outbox-publisher/src/outbox-poller.ts:40-93 | with one open batch at a time the log without repeats is the messages of a prefix of the outbox in creation order, and so is every partition key's share; the published rows are a prefix of that prefix |
| OutboxOrder.KeyOrderIff | apps/outbox-publisher/src/outbox-poller.ts:7-93 | with any number of publishers, a partition's log without repeats is the messages of its first rows in creation order if and only if no send of the run ever came before those of all earlier rows of the partition |
| OutboxOrder.SoloNeverSkips | apps/outbox-publisher/src/outbox-poller.ts:40-93 | with one open batch at a time no send does |
| OutboxOrder.OneRowIsInOrder | apps/outbox-publisher/src/outbox-poller.ts:7-93 | a partition with at most one row is always in order |
| OutboxOrder.FreshClaimKeepsOrderIff | apps/outbox-publisher/src/outbox-poller.ts:7-15 | while the first t rows have been sent in order, a new claim's first send keeps the order if and only if the claim starts at row t or before, that is, if and only if one of the rows up to t is neither published nor locked |
| OutboxOrder.DedupForKey | apps/outbox-publisher/src/outbox-poller.ts:55-68 | removing repeats and picking one topic and key commute |
| OutboxOrder.ConsumerAppliesInOrder | apps/vision-service/src/vision_service/kafka/idempotency.py:19-34 | on a partition that is in order, a consumer that records ids, restarts from any earlier offset and may crash after recording applies each row at most once and in creation order; without such crashes it leaves no gap |
| OutboxOrder.CrashedMessageIsNeverApplied | apps/vision-service/src/vision_service/kafka/idempotency.py:19-34 | a crash between the record of a new message and its effect loses it: whatever is read again, it is never applied |
| OutboxOrder.RewoundIsReadAgain | apps/vision-service/src/vision_service/kafka/idempotency.py:19-34 | a restart from an earlier offset reads from there on, with what was recorded kept |
| OutboxOrder.ReaderAppliesInOrderIff | apps/vision-service/src/vision_service/kafka/idempotency.py:19-34 | a consumer that just reads on applies the rows in creation order without a gap if and only if the partition is in order |
| OutboxOrder.TwoPublishersReorder | apps/outbox-publisher/src/outbox-poller.ts:7-15 | a counterexample: two rows of one partition claimed by two publishers are logged in the wrong order |
| OutboxPoller.Publisher.PollOnce | apps/outbox-publisher/src/outbox-poller.ts:40-93 | the cycle is the claim, the sends and the commit as steps; it ends with no lock held and returns the number of rows it published, or 0; undisturbed, that is the smaller of the batch size and the number of free rows |
| OutboxPoller.Publisher.SendAndMark | apps/outbox-publisher/src/outbox-poller.ts:50-70 | one turn of the loop is one send step; an unknown topic, a failed or an unconfirmed send ends the batch |
| OutboxPoller.Publisher.SendRows | apps/outbox-publisher/src/outbox-poller.ts:50-70 | the loop sends the claimed rows in order and stops at the first failure |
| OutboxPoller.CleanPollPublishes | apps/outbox-publisher/src/outbox-poller.ts:40-93 | an undisturbed cycle publishes exactly the claimed rows in outbox order and releases its locks |
| OutboxPoller.CleanPollIsFull | apps/outbox-publisher/src/outbox-poller.ts:40-93 | and it publishes the smaller of the batch size and the number of free rows |
| OutboxPoller.PolledKeepsInv | apps/outbox-publisher/src/outbox-poller.ts:40-93 | a cycle, however it ends, keeps the table consistent |
| Missions.MissionsService.Create | apps/api/src/missions/missions.service.ts:51-70 | a new mission is a draft without video, with its audit row |
| Missions.MissionsService.Write | apps/api/src/missions/missions.repository.ts:129-204 | a guarded update writes the named fields of the one row, and reports whether the row is still visible |
| Missions.MissionsService.EditBody | apps/api/src/missions/missions.service.ts:218-332 | an edit and its audit row commit together, or the row is gone and nothing changes |
| Missions.MissionsService.TransitionBody | apps/api/src/missions/missions.service.ts:146-200 | a transition commits status, audit row and, from DRAFT, command row together, and only if the status is still the one that was checked |
| Missions.MissionsService.Perform | apps/api/src/missions/missions.service.ts:84-332 | a use case with nothing in between either fails its check and changes nothing, or always commits what it asks for |
| Missions.LegalEdges | apps/api/src/missions/mission-state-machine.ts:11-26 | the legal edges are DRAFT-QUEUED, QUEUED-PROCESSING, PROCESSING-COMPLETED, PROCESSING-FAILED and FAILED-QUEUED; only COMPLETED has none |
| Missions.TransitionAcceptedIff | apps/api/src/missions/missions.service.ts:125-201 | a transition is accepted for a live mission along one of those edges, out of DRAFT only with a video; it changes the status alone, records the edge, and writes the command row exactly when it leaves DRAFT; otherwise the error says which check failed |
| Missions.EditAcceptedIff | apps/api/src/missions/missions.service.ts:84-332 | every other use case is accepted for a live mission, three of them only in DRAFT; it changes the fields it names and nothing else, and is recorded |
| Missions.LateWriteIff | apps/api/src/missions/missions.service.ts:84-332 | whether a write still takes place after its check: a transition only at the status it saw, a deletion whenever the row is there, every other write on a mission that is not deleted; otherwise the error is that of the missing or changed row |
| Missions.FailedIsRetried | apps/api/src/missions/mission-state-machine.ts:11-18 | a failed mission can be queued again, and no second command is written |
| MissionRuns.FailedMissionCompletes | apps/api/src/missions/missions.service.ts:125-201 | a run from DRAFT through QUEUED, PROCESSING, FAILED, QUEUED and PROCESSING to COMPLETED, with one command in all |
| MissionRuns.DroppedCallIsGone | apps/api/src/missions/missions.service.ts:84-332 | a use case that never gets to its transaction leaves no trace, and any other can go on |
| MissionRuns.NextKeepsInv | apps/api/src/missions/missions.service.ts:84-332 | every check, transaction or abandoned call, in any interleaving, keeps every mission's audit path and command |
| MissionRuns.StatusFollowsAudit | apps/api/src/missions/missions.service.ts:125-201 | in every interleaving a mission's transition rows are a path of legal edges from DRAFT to its status, and it has exactly one command, with a key that was attached to it, if and only if it has left DRAFT |
| MissionRuns.CommandsHaveKeys | apps/api/src/missions/missions.service.ts:302-332 | if every attached key is non-empty, so is every command's key |
| MissionRuns.DraftHasNoEdges | apps/api/src/missions/mission-state-machine.ts:11-26 | no legal edge leads back to DRAFT |
| MissionRuns.CommandIsAsQueued | apps/api/src/missions/missions.service.ts:125-201 | in every interleaving a mission leaves DRAFT at most once, and its one command asks for the video it had then |
| MissionRuns.StepIsDraftOnlyIff | apps/api/src/missions/missions.service.ts:84-332 | one more step keeps the DRAFT-only rules for a mission (once queued it is not deleted and keeps its title, description and video) if and only if it is no deletion, and no update or attachment that changes anything, of a mission that has left DRAFT by the time of the write |
| MissionRuns.AlwaysDraftOnlyIff | apps/api/src/missions/missions.service.ts:84-332 | in every interleaving those rules hold throughout if and only if each deletion, update and attachment still finds a draft when it writes, or changes nothing |
| MissionRuns.SerialRunsAreDraftOnly | apps/api/src/missions/missions.service.ts:84-332 | when use cases do not overlap they hold throughout |
| MissionRuns.QueuedMissionIsDeleted | apps/api/src/missions/missions.service.ts:218-238 | a counterexample: with interleaving a queued mission is deleted |
| MissionRuns.QueuedMissionIsRenamed | apps/api/src/missions/missions.service.ts:84-113 | a counterexample: with interleaving a queued mission is renamed |
| MissionRuns.QueuedMissionGetsOtherVideo | apps/api/src/missions/missions.service.ts:302-332 | a counterexample: with interleaving a queued mission's video is replaced after its command went out with another |
| Retry.WithBoundedRetry | apps/api/src/kafka/retry.util.ts:16-33 | the action runs up to its first success and at most the given number of times; every other run is reported; no attempts means no run |
| ProcessingWorker.Worker.HandleCommandMessage | apps/vision-service/src/vision_service/kafka/commands_consumer.py:136-369 | a new command writes exactly the emission of its attempts, is dead-lettered if none succeeds, and raises exactly if then the dead letter cannot be sent; a repeated or unknown one writes nothing |
| ProcessingWorker.EmissionIsShapedIff | apps/vision-service/src/vision_service/kafka/commands_consumer.py:167-369 | an emission is STARTED^k, k within the retry budget, then at most one of COMPLETED and FAILED, if and only if there is no attempt, reached without a success, that writes its completion without learning of it while a later attempt, also reached, writes anything, or none ever succeeds and the final PROCESSING_FAILED is written |
| ProcessingWorker.UnconfirmedCompletionRepeats | apps/vision-service/src/vision_service/kafka/commands_consumer.py:167-369 | a counterexample to the shape alone: STARTED, COMPLETED, STARTED, COMPLETED |
| ProcessingWorker.EmissionCounts | apps/vision-service/src/vision_service/kafka/commands_consumer.py:167-369 | an emission has one STARTED for each attempt made that gets as far as writing it, one COMPLETED for each that writes its completion, known or not, and one FAILED exactly if none succeeds and the final event is written |
| ProcessingHandler.ProcessingEventsHandler.MarkProcessed | apps/api/src/processed-events/processed-events.repository.ts:23-31 | insert-if-absent: the answer is whether the id was absent |
| ProcessingHandler.ProcessingEventsHandler.DriveTransition | apps/api/src/kafka/processing-events.handler.ts:83-102 | up to three tries on the mission service, stopping at the first that returns |
| ProcessingHandler.ProcessingEventsHandler.HandleProcessingEventMessage | apps/api/src/kafka/processing-events.handler.ts:46-136 | a known new event is recorded and relayed after its transition, or dead-lettered with its number of attempts; any other event changes nothing |
| ProcessingHandler.TriesMoveOnce | apps/api/src/kafka/processing-events.handler.ts:83-102 | the tries move the mission at most once, exactly when the transition is possible and some try gets through, and return exactly when the first to get through is not reported as a failure |
| ProcessingHandler.MovedButFailedIff | apps/api/src/kafka/processing-events.handler.ts:83-102 | the tries fail although they moved the mission if and only if it is there, the transition is legal and the first try that gets through commits and then raises |
| ProcessingHandler.KnownIff | apps/api/src/kafka/processing-events.handler.ts:17-21 | the three event types the handler knows, and the status each leads to |
| ProcessingHandler.EventSettles | apps/api/src/kafka/processing-events.handler.ts:46-136 | in plain terms: of three tries the first that the database lets through decides; the event's mission moves exactly if it is there and the transition is legal, and the event returns exactly if that try is not reported as a failure |
| ProcessingDeliveries.NextKeepsBalance | apps/api/src/kafka/processing-events.handler.ts:46-136 | each record, check, transaction, failed try, dead letter, crash or write from elsewhere keeps the account, with any number of deliveries in flight |
| ProcessingDeliveries.EveryEventEndsOnce | apps/api/src/kafka/processing-events.handler.ts:59-130 | with deliveries interleaved step by step, under any redelivery, faults, crashes and other writers even between a check and its transaction, each recorded id is in flight or has ended exactly one way, and recorded ids = transitions + dead letters + lost + in flight - commits reported as failures |
| ProcessingDeliveries.CleanIff | apps/api/src/kafka/processing-events.handler.ts:59-130 | a run has no step that loses an event or hides a transition if and only if nothing is lost and no commit was reported as a failure; then recorded ids = transitions + dead letters + in flight |
| ProcessingDeliveries.UninterruptedIsHandled | apps/api/src/kafka/processing-events.handler.ts:46-136 | the steps of one delivery with nothing in between are the handler: same tables, same record, same end |
| ProcessingDeliveries.DeadLetteredThoughMovedIff | apps/api/src/kafka/processing-events.handler.ts:83-127 | a new event delivered without interruption is dead-lettered although it moved its mission if and only if the dead letter goes out, the mission is there, the transition is legal, and the first try that gets through commits and then raises |
| ProcessingDeliveries.WriterBetweenFailsTry | apps/api/src/kafka/processing-events.handler.ts:83-102 | another writer that changes the status between a try's check and its transaction makes the try fail, and keeps its own work |
| ProcessingDeliveries.FailedTryCounts | apps/api/src/kafka/retry.util.ts:16-33 | a try that fails before its check or before its transaction counts, and writes nothing |
| ProcessingRuns.UnreportedCommitIsDeadLettered | apps/api/src/kafka/processing-events.handler.ts:83-127 | a counterexample: a queued mission's STARTED is dead-lettered although it moved the mission |
| ProcessingRuns.LegalIff | apps/api/src/missions/mission-state-machine.ts:11-18 | from QUEUED, an event's transition is legal when it comes if and only if it is the first STARTED, or a terminal event that comes after a STARTED while no terminal event has come after one before |
| ProcessingRuns.RejectedIff | apps/api/src/missions/mission-state-machine.ts:11-26 | of distinct events exactly those others are rejected |
| ProcessingRuns.EmissionVerdict | apps/vision-service/src/vision_service/kafka/commands_consumer.py:167-369 | whatever a command's attempts did, the mission's end is decided by which events were written: COMPLETED, else FAILED with a STARTED, else PROCESSING, else QUEUED |
| ProcessingRuns.HandlerFollowsMachine | apps/api/src/kafka/processing-events.handler.ts:46-136 | alone, under any faults that the tries get over, the handler follows the transition table over the distinct events: redeliveries change nothing, and the dead letters are, in order, exactly the events that are illegal when they come |
| ProcessingRuns.CommandDecidesMission | apps/api/src/kafka/processing-events.handler.ts:46-136 | a queued mission whose command's emission is delivered any number of times in order ends as the emission says, and an event is dead-lettered if and only if it does not move the mission |
| ProcessingRuns.ShapedCommandDecidesMission | apps/api/src/kafka/processing-events.handler.ts:17-136 | with k STARTED: for k > 0 the last event's status, and the dead letters are the second to the k-th STARTED; for k = 0 QUEUED, and they are all events |
| ModelRegistry.ModelRegistryService.Register | apps/api/src/model-registry/model-registry.service.ts:27-37 | a version of a completed run is added as a candidate, or nothing changes |
| ModelRegistry.ModelRegistryService.Promote | apps/api/src/model-registry/model-registry.service.ts:73-78 | the promotion transaction on the two tables, or nothing for an unknown id |
| ModelRegistry.ModelRegistryService.Rollback | apps/api/src/model-registry/model-registry.service.ts:86-119 | the rollback transaction to the given or the recovered target, or nothing |
| ModelRegistry.ModelRegistryService.ApplyProductionTransition | apps/api/src/model-registry/model-registry.service.ts:143-183 | demotion, promotion and audit row in one new state |
| ModelHistory.EveryRunIsConsistent | apps/api/src/model-registry/model-registry.service.ts:27-183 | over every run the rows, the promotion times and the audit chain agree with the plain history of promotions |
| ModelHistory.ProductionIsLatest | apps/api/src/model-registry/model-registry.repository.ts:85-102 | at most one production version, one as soon as anything was promoted, and it is the latest of the history |
| ModelHistory.RollbackTargetIsPrevious | apps/api/src/model-registry/model-registry.repository.ts:104-133 | the timestamp query finds exactly the version in production before the current one, and finds one if and only if there was one |
| ModelHistory.RollbackRestoresPrevious | apps/api/src/model-registry/model-registry.service.ts:86-119 | a rollback without target succeeds exactly when there was a previous version, and puts that back |
| ModelHistory.RollbackTwiceRestores | apps/api/src/model-registry/model-registry.service.ts:86-119 | after any run two such rollbacks restore the production version |
| ModelHistory.ExplicitRollback | apps/api/src/model-registry/model-registry.service.ts:86-119 | a rollback to a named version succeeds exactly when the version is registered, and puts it into production; it was there before exactly when it is not a candidate any more |
| ModelHistory.RollbackToCandidate | apps/api/src/model-registry/model-registry.service.ts:86-119 | a counterexample to 'back': a run that rolls back to a version that has never been in production |
| ModelHistory.TwoVersionsHavePrevious | apps/api/src/model-registry/model-registry.repository.ts:104-133 | there is a previous version exactly when two different ones have been in production |
| ModelHistory.PreviousIsLatest | apps/api/src/model-registry/model-registry.repository.ts:104-133 | the previous version is the one, apart from the current, that was promoted last |
| ModelHistory.ProductionChanges | apps/api/src/model-registry/model-registry.service.ts:143-183 | the production transaction stages what was in production, promotes the target with the time and the actor, and leaves every other version as it was |
| ModelHistory.PromoteIff | apps/api/src/model-registry/model-registry.service.ts:73-78 | in any state a run can reach, a promotion succeeds exactly for a registered version, and then that version is in production |
| ModelHistory.RegisterIff | apps/api/src/model-registry/model-registry.service.ts:27-37 | a version is registered exactly if its training run exists and is completed and its id is new, as a candidate that was never promoted |
| Geometry.IouLaws | apps/vision-service/src/vision_service/detection/tracker.py:17-34 | on positive-area boxes both IoU functions agree, are symmetric, lie in [0, 1] and are 1 exactly on equal boxes |
| Geometry.IouIsShare | apps/vision-service/src/vision_service/training/evaluate.py:38-57 | on positive-area boxes both are the common area as a share of the area covered by either box |
| Geometry.OverlapIsLength | apps/vision-service/src/vision_service/detection/tracker.py:22-28 | where the common area's sides are the lengths of the stretches common to both |
| Geometry.IouIsZeroIff | apps/vision-service/src/vision_service/detection/tracker.py:17-34 | it is 0 exactly when no point lies inside both boxes |
| Geometry.IouOfInnerBox | apps/vision-service/src/vision_service/detection/tracker.py:17-34 | for a box inside another it is the inner area's share of the outer |
| Geometry.DegenerateIouIsZero | apps/vision-service/src/vision_service/detection/tracker.py:17-34 | a box with a side that is not positive has IoU 0 with every box, for both functions |
| StableSort.SortIsStableSort | apps/vision-service/src/vision_service/detection/tracker.py:83 | the descending sort permutes, orders by key and keeps the input order among equal keys |
| Tracking.GreedyServes | apps/vision-service/src/vision_service/detection/tracker.py:85-91 | the greedy pass is injective, takes only candidates, and for each candidate takes one no later in the order that shares an end with it |
| Tracking.MatchIsStable | apps/vision-service/src/vision_service/detection/tracker.py:75-91 | the frame's matching is a class-respecting partial injection at or above the threshold without blocking pairs |
| StableMatching.StableIsMatch | apps/vision-service/src/vision_service/detection/tracker.py:75-91 | the frame's matching is the only one-to-one matching of compatible pairs in which every other compatible pair loses an end to a better one: greater IoU, or equal IoU and found earlier |
| Tracking.CollectCandidates | apps/vision-service/src/vision_service/detection/tracker.py:75-83 | the candidate loops find the pairs of the specification, track by track |
| StableMatching.CandidatesAreInOrder | apps/vision-service/src/vision_service/detection/tracker.py:75-83 | that is the order: track by track, and for each track detection by detection |
| Tracking.MatchGreedily | apps/vision-service/src/vision_service/detection/tracker.py:85-91 | the loop over sorted pairs computes the greedy matching and the set of its tracks |
| Tracking.AgeUnmatched | apps/vision-service/src/vision_service/detection/tracker.py:93-102 | the ageing loop keeps the unmatched tracks within the miss limit, one miss older |
| Tracking.Tracker.Update | apps/vision-service/src/vision_service/detection/tracker.py:70-124 | one frame's new state and labelled detections are those of the specification |
| StableMatching.FrameMeans | apps/vision-service/src/vision_service/detection/tracker.py:70-124 | in plain terms: with that matching, the unmatched tracks within the miss limit live on in order, a miss older, followed by each detection's track: its match moved to it, or a new one, numbered on in the order of the detections; each detection is shown unchanged but for its track's id |
| TrackingRuns.RunIsFaithful | apps/vision-service/src/vision_service/detection/tracker.py:70-124 | over any frames an id is shown once per frame, consecutive showings agree on class, overlap at the threshold or more and are at most maxMisses + 1 frames apart, and every live track is where it was last shown |
| TrackingRuns.IdKeepsItsClass | apps/vision-service/src/vision_service/detection/tracker.py:70-124 | a track id keeps one class for the whole run |
| TrackingRuns.TrackFate | apps/vision-service/src/vision_service/detection/tracker.py:93-124 | a matched track moves to its detection; an unmatched one lives on with one more miss exactly within the limit; every detection's track is live afterwards |
| TrackingRuns.EveryIdIsShown | apps/vision-service/src/vision_service/detection/tracker.py:104-124 | every id ever handed out was shown |
| TrackingRuns.DroppedStaysDropped | apps/vision-service/src/vision_service/detection/tracker.py:93-124 | no frame after a track is dropped shows its id |
| TrackingRuns.LiveTracksAreBounded | apps/vision-service/src/vision_service/detection/tracker.py:93-124 | live tracks never outnumber the detections of the last maxMisses + 1 frames |
| DetectionPipeline.FilterKeepsRetained | apps/vision-service/src/vision_service/detection/filters.py:13-27 | filtering keeps exactly the detections at the threshold and on the allow-list, unchanged and in order |
| DetectionPipeline.EveryRetainedIsReported | apps/vision-service/src/vision_service/detection/pipeline.py:134-149 | each frame's output is its retained detections in order, and the events are the outputs in order: frame index, time, track id, class, confidence and box of each |
| DetectionPipeline.ConsecutiveShowingsMatch | apps/vision-service/src/vision_service/detection/pipeline.py:118-139 | with the pipeline's tracker, consecutive showings of an id agree on the class, overlap by at least 0.3 and are at most 6 frames apart |
| DetectionPipeline.IdsAreContiguous | apps/vision-service/src/vision_service/detection/pipeline.py:121-139 | the ids shown are exactly 1 up to the number of tracks ever created |
| DetectionPipeline.ReportIsAccurate | apps/vision-service/src/vision_service/detection/pipeline.py:118-167 | events are in frame order with distinct ids per frame, each reports a retained detection of its frame at the frame's time, and their ids are exactly 1 to track_count, the number of tracks created |
| DetectionPipeline.ReportFrame | apps/vision-service/src/vision_service/detection/pipeline.py:137-149 | the inner loop gives one event per tracked detection |
| DetectionPipeline.RunDetectionPipeline | apps/vision-service/src/vision_service/detection/pipeline.py:118-167 | the frame loop computes that report |
| Evaluation.FindBestIsBest | apps/vision-service/src/vision_service/training/evaluate.py:84-95 | the search finds the first of the free slots that no free slot beats, or none if no free slot overlaps |
| Evaluation.HitIff | apps/vision-service/src/vision_service/training/evaluate.py:81-103 | a prediction is a true positive exactly when a free slot of its class and file overlaps it at the threshold; it then takes the first best one, and otherwise none |
| Evaluation.ScanIsGreedy | apps/vision-service/src/vision_service/training/evaluate.py:78-103 | over a whole ranking the true positives are the claims made in rank order: each prediction claims the first of the entries of its file and class, not claimed before, that overlap it most, if that is at the threshold or more |
| Evaluation.MatchesAreSlots | apps/vision-service/src/vision_service/training/evaluate.py:78-103 | matched slots are real and as many as the true positives: nothing is matched twice |
| Evaluation.HitsWithinSupport | apps/vision-service/src/vision_service/training/evaluate.py:69-103 | never more true positives than ground-truth detections of the class |
| AveragePrecision.AreaWithinRecall | apps/vision-service/src/vision_service/training/evaluate.py:115-123 | at every rank 0 <= AP <= recall, with equality exactly when no hit follows a miss |
| AveragePrecision.LeadingHits | apps/vision-service/src/vision_service/training/evaluate.py:105-123 | all hits lead and exhaust the support exactly when the first support predictions are hits |
| AveragePrecision.ScoreBounds | apps/vision-service/src/vision_service/training/evaluate.py:105-123 | 0 <= AP <= recall <= 1, precision in [0, 1], and AP is 1 exactly when the first support predictions are hits |
| AveragePrecision.SharesOfHits | apps/vision-service/src/vision_service/training/evaluate.py:105-113 | precision at a rank is the share of true positives among the predictions so far, recall their share of the support |
| AveragePrecision.AreaIsMeanPrecision | apps/vision-service/src/vision_service/training/evaluate.py:115-119 | AP is the mean, over the support, of the precisions reached at the true positives |
| EvaluationReport.RankedByConfidence | apps/vision-service/src/vision_service/training/evaluate.py:72-76 | a class's predictions are ranked by confidence, highest first, none lost or repeated, and in their original order where confidences are equal |
| EvaluationReport.FlattenLists | apps/vision-service/src/vision_service/training/evaluate.py:138-142 | the predictions are listed file by file and in each file in order |
| EvaluationReport.ScoreForBounds | apps/vision-service/src/vision_service/training/evaluate.py:60-123 | those bounds for any predictions, truth, class and threshold |
| EvaluationReport.MatchAndScore | apps/vision-service/src/vision_service/training/evaluate.py:60-123 | the two passes compute the specified score, within those bounds |
| EvaluationReport.MatchRanked | apps/vision-service/src/vision_service/training/evaluate.py:81-103 | the nested matching loops compute the greedy scan |
| EvaluationReport.CumulativeColumns | apps/vision-service/src/vision_service/training/evaluate.py:105-113 | the cumulative loop gives precision and recall at each rank |
| EvaluationReport.AreaUnder | apps/vision-service/src/vision_service/training/evaluate.py:115-119 | the second loop is the rectangle rule over the columns |
| EvaluationReport.ColumnAreaIsCurveArea | apps/vision-service/src/vision_service/training/evaluate.py:105-119 | and over those columns that is the area under the ranked list's curve |
| EvaluationReport.ReportIsSane | apps/vision-service/src/vision_service/training/evaluate.py:166-182 | mAP lies in [0, 1] and not every scored class is flagged |
| EvaluationReport.ReportMeans | apps/vision-service/src/vision_service/training/evaluate.py:166-182 | mAP is the mean AP of the classes with support, 0 if there are none, and a class is flagged exactly when it is one of those and its AP is below 0.8 of the mean |
| EvaluationReport.EntriesMean | apps/vision-service/src/vision_service/training/evaluate.py:143-164 | each entry has the precision, the recall and the AP of the greedy claims along its class's ranking, and the class's number of ground-truth detections |
| EvaluationReport.ClassesAre | apps/vision-service/src/vision_service/training/evaluate.py:143-149 | the classes reported on are those of the ground truth's detections |
| EvaluationReport.EvaluationIsSane | apps/api/src/training-runs/dto/evaluation-report.dto.ts:12-60 | any report has one entry per class in name order with all numbers in range, mAP the mean of the APs and in [0, 1], flags exactly the classes below 0.8 of it, in name order, and never flags every class |
| EvaluationReport.CollectMetrics | apps/vision-service/src/vision_service/training/evaluate.py:143-164 | the loop over the classes |
| EvaluationReport.Evaluate | apps/vision-service/src/vision_service/training/evaluate.py:126-189 | the report is the specified one, complete and in range |
| SelfEvaluation.CopiesScorePerfectly | apps/vision-service/src/vision_service/training/evaluate.py:72-123 | predictions that are the truth's boxes, with any confidences and any number of copies, score 1 in every class, although copies may be paired crosswise |
| SelfEvaluation.SelfEvaluationIsPerfect | apps/vision-service/src/vision_service/training/evaluate.py:126-189 | evaluating a non-empty truth of positive-area boxes against itself is perfect if and only if the threshold is at most 1 |
| Coco.IndexImagesLoop | apps/vision-service/src/vision_service/training/coco.py:176-181 | the image index loop, errors included |
| Coco.IndexCategoriesLoop | apps/vision-service/src/vision_service/training/coco.py:184-189 | the category index loop, errors included |
| Coco.ParseCocoAnnotations | apps/vision-service/src/vision_service/training/coco.py:45-107 | the reader's loops compute the specified result, or the first error in document order |
| CocoReading.ImagesAreIndexed | apps/vision-service/src/vision_service/training/coco.py:176-181 | the images are indexed exactly when each has all its keys, and each id then stands for its last entry |
| CocoReading.CategoriesAreIndexed | apps/vision-service/src/vision_service/training/coco.py:184-189 | likewise the categories |
| CocoReading.MissingImageKeyIsFirst | apps/vision-service/src/vision_service/training/coco.py:176-181 | the first image without all its keys is the one reported |
| CocoReading.MissingCategoryKeyIsFirst | apps/vision-service/src/vision_service/training/coco.py:184-189 | likewise the first category |
| CocoReading.AnnotationIsReadIff | apps/vision-service/src/vision_service/training/coco.py:67-105 | an annotation is read exactly when its image and category are listed, the class is one of the twelve allowed, and its box is four numbers x, y, width, height with positive sides that leave the image by at most 0.001; it is read as that box at confidence 1 |
| CocoReading.RefusalIs | apps/vision-service/src/vision_service/training/coco.py:67-97 | otherwise the first check that fails decides the error |
| CocoReading.FirstBadAnnotationDecides | apps/vision-service/src/vision_service/training/coco.py:67-105 | the first annotation that cannot be read decides the document's error |
| CocoReading.ReadIff | apps/vision-service/src/vision_service/training/coco.py:45-107 | a document is read exactly when it has its three keys, both indices can be built and every annotation can be read |
| CocoReading.ReadingMeans | apps/vision-service/src/vision_service/training/coco.py:45-107 | and the result then lists, for each file with an image, that file's detections in document order |
| Coco.WriteFile | apps/vision-service/src/vision_service/training/coco.py:150-161 | the inner annotation loop numbers on from the files before |
| Coco.WriteCocoAnnotations | apps/vision-service/src/vision_service/training/coco.py:110-167 | the writer's loops compute the specified document |
| CocoRoundTrip.WritingMeans | apps/vision-service/src/vision_service/training/coco.py:110-167 | a written document numbers the files and the labels from 1 in ascending order and the detections from 1, file by file and in each file in order; each annotation has its file's and its label's number and its box as x, y, width, height |
| CocoRoundTrip.AnnotationReadsBack | apps/vision-service/src/vision_service/training/coco.py:79-107 | the annotation written for an entry reads back as that entry, or fails exactly when the entry is not readable |
| CocoRoundTrip.ParseOfWrite | apps/vision-service/src/vision_service/training/coco.py:45-167 | reading a written document succeeds exactly when every listed detection is allowed and in bounds, and then gives each image's detections back in order with confidence 1 and no track id |
| CocoRoundTrip.WriteOfParse | apps/vision-service/src/vision_service/training/coco.py:45-167 | writing that again gives the same document exactly when every label is used by a file that has an image, in particular for detections keyed within the images |
| SortedNames.SortedIsAscending | apps/vision-service/src/vision_service/training/coco.py:123-133 | sorted names are in strictly ascending order and are the set's elements |
| SortedNames.LessIff | apps/vision-service/src/vision_service/training/coco.py:123-133 | where one name is less than another if it has the smaller character at the first difference, or is a proper prefix |
| Shuffle.IndexIsInRange | apps/api/src/datasets/split.util.ts:103-104 | every swap index is in bounds |
| Shuffle.SwapExchanges | apps/api/src/datasets/split.util.ts:105-111 | a swap exchanges two items and moves no other |
| Shuffle.ScaleIsShare | apps/api/src/datasets/split.util.ts:103-104 | the index is the whole part of the draw's share of the remaining items |
| Shuffle.ChoiceAt | apps/api/src/datasets/split.util.ts:45-104 | the k-th swap index comes from the k-th word of the generator |
| Shuffle.SeedsWrap | apps/api/src/datasets/split.util.ts:45-46 | seeds that differ by a multiple of 2^32 are the same seed, negative ones included |
| Shuffle.KnownWords | apps/api/src/datasets/split.util.ts:45-53 | the generator's first two words for the seeds 0, 1 and 42 |
| Shuffle.KnownOrder | apps/api/src/datasets/split.util.ts:99-112 | and the order that seed 42 gives three items |
| Shuffle.ApplyPermutes | apps/api/src/datasets/split.util.ts:99-112 | a run of swaps loses and repeats nothing, whatever the draws |
| Shuffle.ApplyIsInjective | apps/api/src/datasets/split.util.ts:99-112 | different draws of distinct items give different orders |
| Shuffle.ApplyIsOnto | apps/api/src/datasets/split.util.ts:99-112 | every order is reached by some draws |
| Shuffle.ShuffleInPlace | apps/api/src/datasets/split.util.ts:45-112 | the loop, drawing from the mulberry32 generator, applies in place exactly the swaps that the generator's successive words choose |
| DatasetSplit.TestCountSign | apps/api/src/datasets/split.util.ts:114-119 | the computed test count is non-negative for all accepted ratios if and only if there are fewer than 1,000,000 items |
| DatasetSplit.AcceptedIff | apps/api/src/datasets/split.util.ts:55-75 | the ratios are accepted exactly when they are finite, in [0, 1] and sum to 1 up to a millionth; otherwise the error names the first that is not, or the sum |
| DatasetSplit.CountsAreShares | apps/api/src/datasets/split.util.ts:117-119 | the train and validation counts are the whole parts of their shares, and the three counts add up |
| DatasetSplit.CutIsPartition | apps/api/src/datasets/split.util.ts:114-128 | whatever the sign of the test count the three slices are the shuffled items in order |
| DatasetSplit.SplitIsPartition | apps/api/src/datasets/split.util.ts:83-129 | a split exists exactly for non-empty, duplicate-free items and accepted ratios; its parts are the shuffled items in order, a permutation of the items, and the training and validation parts are the whole parts of their shares as far as there are items left |
| DatasetSplit.RefusalIs | apps/api/src/datasets/split.util.ts:88-97 | otherwise the error is: no items, the number of repeats, or that of the ratios, in this order |
| DatasetSplit.GenerateDeterministicSplit | apps/api/src/datasets/split.util.ts:83-129 | the same input gives the same split, or the first failed check's error |

## Left out

- OpenCV decoding and annotation, ONNX inference and its non-maximum suppression: library calls; the detector's
  answers are an input of `DetectionPipeline.RunDetectionPipeline`.
- HTTP, NestJS wiring, Prisma and SQL text, MinIO, Kafka client internals, Socket.IO: only the step effects above.
- Authentication, device tokens, roles and guards: single-branch checks over library calls.
- The web app, the map and its nearest-point scan: a user interface, or a plain minimum loop.
- Telemetry parsing: results rest on the host's date and number conversion.
- The detections handler: the same shape as the processing-events handler.
- Training, model download, sidecar supervision, health reports and configuration: no state to reason about.
- Log lines, durations, timestamps of rows other than the ones named, and error texts.
- Listing missions, created-by and updated-at fields: they decide nothing modelled here.
- Event types that name a property every JavaScript object inherits, such as `constructor`: the lookup tables of
  the publisher and the handler would find it; the model treats such types as unknown.
- EdgeDelivery.NothingIsLostOrDoubled: one device; another device that reused an event id would look like a
  duplicate to the server.
- EdgeIngest.RunSyncCycle: the answer is a parameter; the step system in `EdgeDelivery` produces it.
- OutboxPublisher.NoRowIsClaimedTwice: a message that reaches the log after its send was reported as failed, and
  after later sends, is not modelled.
- OutboxPoller.Publisher.PollOnce: no other publisher works during the call; interleaved cycles are the steps of
  `OutboxPublisher`.
- ProcessingWorker.Worker.HandleCommandMessage: download, metadata, detection messages and upload only decide how
  an attempt goes; a detection may be published again by a later attempt.
- ProcessingWorker.EmissionIsShapedIff: a crash in the middle of a command is the list of the attempts made so far.
- ProcessingHandler.ProcessingEventsHandler.DriveTransition: in this method no other writer comes between the tries
  of one event; the steps of `ProcessingDeliveries` have other writers between any two of them.
- ProcessingRuns.HandlerFollowsMachine: no other writer; with others the account of `ProcessingDeliveries` holds.
- ModelHistory.EveryRunIsConsistent: concurrent promotions are not interleaved; each transaction is one step.
- StableSort.SortIsStableSort: Python's sort is modelled by a stable insertion sort with the same result.
- EvaluationReport.Evaluate: the ground truth has one entry per file name, as a Python dictionary has.

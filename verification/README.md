# Codex app server: models and proofs

A Dafny model of the parts of the Codex app server, its clients and its analytics where
correctness depends on whole runs or on a transformation keeping its meaning.

| files | what they model |
|---|---|
| `EventForwarder` | the in-process client's worker between the event source and a bounded channel: lossless and lossy events, `Lagged` markers, rejected requests |
| `RemoteWorker`, `RemoteProtocol`, `RemoteEvents` | the remote client: request table and drain, the two-party protocol over FIFO wires, the handshake and the order of events |
| `Analytics`, `AnalyticsHistory`, `AnalyticsJoin` | the reducer that joins facts into turn and steer events, what it knows told by the facts themselves, and the confluence of the join |
| `SchemaRefs`, `FlatSchema` | reference closure, pruning and flattening of JSON Schema bundles |
| `TypeText`, `TypeNesting`, `TypeFields`, `FieldNames`, `NestedFiles` | the bracket- and string-aware scanner of generated TypeScript, the splitter and the filters that rejoin its parts, the braces of a type in its file, the names of its fields, and all of these on properly nested text |
| `SchemaFixtures`, `JsonText`, `Ordering` | the canonical form of schema fixtures, serialized JSON, sorting |
| `Toml`, `ConfigEdits`, `ConfigLayers` | configuration values, edits by path with their recorded log, layers and the override status of a write |
| `CommandOutput`, `CommandSessions`, `CommandChannels` | the capped output of `command/exec`, the shared table of running commands and their control channels |

Code that updates state step by step is a class or a method with loops, each proved
against a pure function; the theorems are about those functions, over every input and
every run. Input and output, clocks and scheduling are parameters: the outcome of a write,
whether a reader is still there, the chunks a pipe delivers, the next step of any task.

Some promised properties do not hold for every input. For those there is a concrete input
that breaks them and a proof of exactly when the code meets them:

- A server request can be neither received nor rejected, when the channel's receiver goes
  away as it is being forwarded or while it lies in the channel (`StrandedRequest`,
  `QueuedRequestLost`, `RequestConservation`).
- An edit can change a configuration and be recorded as no change, when its path reads
  through an array and the value read is the value written (`MissedEditExists`, `RecordedReplays`).
- A write can report `Ok` although another layer overrides the path, when that layer uses
  a legacy key name (`LegacyKeyUnreported`, `UnreportedExactly`).
- Pruning can remove a definition that is still referred to, when the reference sits in a
  nested object under the name of a definition map (`NestedMapLosesDefinition`, `PruneKeepsResolution`).
- Flattening can change what a reference means, when one name is defined both in the
  namespace and at the root (`ClashChangesMeaning`, `FlatteningMeaning`).
- Filtering fields can lose the braces of their type, when a field that is dropped closed a
  brace too many and one that stays opens one too many (`DroppedFieldLosesBody`, `BodyFoundAgain`).
- Turn events depend on the order of facts, when the request and the resolved
  configuration disagree (`TwoOrdersTwoReports`, `OrderMattersUnlessAgreed`).
- A command started with the key of one that is not cleaned up, which a closed connection
  can do, can lose its table entry (`RestartAfterCloseLosesEntry`, `OwnershipExactly`).

Where comments and code differ the model follows the code. The comment on the in-process
client's `start` says that server requests are rejected and never silently dropped; the
first point above is the exception. The comment on `merge_toml_values` does not mention
that it renames legacy keys.

## Model

| member | source | states |
|---|---|---|
| `EventForwarder.LossAccounting` | codex-rs/app-server-client/src/lib.rs:225-291 | for every run, capacity and consumer schedule: an event the consumer reads came from the input position equal to the real events before it plus the losses announced by worker-made markers before it |
| `EventForwarder.LossBalance` | codex-rs/app-server-client/src/lib.rs:234-291 | every event handed to the forwarder is delivered, announced as lost, still counted in `skipped_events`, or in the hands of a stopped forwarder; the counter loses a count only past `usize::MAX` |
| `EventForwarder.LosslessTier` | codex-rs/app-server-client/src/lib.rs:170-204 | while the receiver is open the must-deliver notifications sent equal those received, in order; when it has closed, all but those of the last event |
| `EventForwarder.LosslessToConsumer` | codex-rs/app-server-client/src/lib.rs:170-204 | the must-deliver notifications the consumer has read are a beginning of those taken from the source, and all of them once everything is read and the receiver open |
| `EventForwarder.TranscriptIsSent` | codex-rs/app-server-client/src/lib.rs:170-204 | each of the six kinds named lossless (turn and item completions, agent message, plan and the two reasoning deltas), once seen, is on the channel at its own position exactly unless its sending met a closed receiver |
| `EventForwarder.RequestConservation` | codex-rs/app-server-client/src/lib.rs:554-600 | a server request seen is read by the consumer, rejected, or lost, and only one of these; it is lost exactly when its sending met a closed receiver or it still lies in the channel; token refresh requests are always rejected and never put there |
| `EventForwarder.SeenIs` | codex-rs/app-server-client/src/lib.rs:263-291 | the worker sees its inputs in order up to the first whose marker or own sending is answered with a closed receiver, and that is the one left in hand |
| `EventForwarder.StrandedRequest` | codex-rs/app-server-client/src/lib.rs:263-291 | a request met by a closed receiver is neither delivered nor rejected |
| `EventForwarder.QueuedRequestLost` | codex-rs/app-server-client/src/lib.rs:279-291 | a request sent before the receiver closed and not read by then is neither received nor rejected |
| `EventForwarder.ForwardKeeps` | codex-rs/app-server-client/src/lib.rs:225-291 | one call of the forwarder keeps places, order, balance, the lossless tier and the conservation of requests |
| `EventForwarder.RunKeeps` | codex-rs/app-server-client/src/lib.rs:554-600 | these hold after every run |
| `EventForwarder.Channel.constructor` | codex-rs/app-server-client/src/lib.rs:494-500 | the channel holds at least one event |
| `EventForwarder.Channel.TrySend` | codex-rs/app-server-client/src/lib.rs:279-291 | appends, or reports a full queue or a closed receiver, whatever the consumer does meanwhile |
| `EventForwarder.Channel.Send` | codex-rs/app-server-client/src/lib.rs:270-277 | waits for room: it is never refused as full |
| `EventForwarder.Worker.constructor` | codex-rs/app-server-client/src/lib.rs:494-520 | nothing sent, skipped or rejected, the stream enabled, and a channel of the requested capacity but at least 1 |
| `EventForwarder.Worker.DropEvent` | codex-rs/app-server-client/src/lib.rs:255-262 | a dropped event is counted, saturating, and a dropped request is rejected |
| `EventForwarder.Worker.SendEvent` | codex-rs/app-server-client/src/lib.rs:270-291 | the event in hand is sent, dropped or left in hand as the specification says for the channel's answer; the answer is `Full` only for a best-effort event and a queue that was at capacity, and closed exactly when the receiver is gone |
| `EventForwarder.Worker.ReportLag` | codex-rs/app-server-client/src/lib.rs:234-269 | the marker for the losses so far goes on the channel and clears the count, or neither; it waits for room exactly if the event must arrive |
| `EventForwarder.Worker.ForwardEvent` | codex-rs/app-server-client/src/lib.rs:225-291 | lag is reported first, then the event is sent or dropped, as the specification step says for the channel's answers; an answer `Full` means there was no room, and the stream is disabled exactly when the receiver is gone |
| `EventForwarder.Worker.HandleEvent` | codex-rs/app-server-client/src/lib.rs:554-600 | refresh requests are rejected and touch nothing else; any other event goes on the channel, after the report of the losses, whenever the queue had room for both and the receiver is open |
| `EventForwarder.Worker.HandleEvents` | codex-rs/app-server-client/src/lib.rs:554-600 | the worker's run is that of the specification up to a closed receiver; as many events as the channel holds, with the receiver open, lose nothing: only refresh requests are rejected and the others are sent in order |
| `RemoteWorker.AnsweredExactlyOnce` | codex-rs/app-server-client/src/remote.rs:199-433 | at worker exit, on every exit path, each caller has as many answers as commands taken, and the requests settled are exactly those written, by id and caller |
| `RemoteWorker.AlwaysAccounted` | codex-rs/app-server-client/src/remote.rs:199-308 | in every reachable state, for every caller, the commands taken are those answered plus those pending |
| `RemoteWorker.StepAccounts` | codex-rs/app-server-client/src/remote.rs:205-421 | each turn of the loop keeps that count |
| `RemoteWorker.PendingIsUnanswered` | codex-rs/app-server-client/src/remote.rs:209-308 | in every reachable state the pending table holds, id by id and caller by caller, exactly the requests accepted and not answered |
| `RemoteWorker.StepExact` | codex-rs/app-server-client/src/remote.rs:205-421 | each turn of the loop keeps that |
| `RemoteWorker.DuplicateRefused` | codex-rs/app-server-client/src/remote.rs:209-240 | over every run a request reaches the wire if and only if it can be written and every request accepted before under its id has been answered; otherwise a duplicate is refused at once and changes neither table nor wire |
| `RemoteWorker.TurnShows` | codex-rs/app-server-client/src/remote.rs:205-421 | in every run, what one turn adds to what callers hear, what is written and what the consumer of events sees, by the kind of command or frame, and which turns are the last |
| `RemoteWorker.RunsUntilEnded` | codex-rs/app-server-client/src/remote.rs:205-421 | the worker runs exactly until a shutdown, the end of commands, a lost connection or an event nobody takes |
| `RemoteWorker.Worker.constructor` | codex-rs/app-server-client/src/remote.rs:196-204 | the worker starts with nothing pending |
| `RemoteWorker.Worker.HandleCommand` | codex-rs/app-server-client/src/remote.rs:205-293 | refines the specification of a command, with every outcome of its write |
| `RemoteWorker.Worker.Complete` | codex-rs/app-server-client/src/remote.rs:299-308 | an answer goes to the waiter of its id, which is no longer pending; unknown ids change nothing |
| `RemoteWorker.Worker.HandleFrame` | codex-rs/app-server-client/src/remote.rs:295-421 | every kind of frame does to table, answers, wire and events what the specification says, whose answers `RemoteProtocol.CallersHearDecisions` ties to the server's decisions |
| `RemoteWorker.Worker.Turn` | codex-rs/app-server-client/src/remote.rs:205-421 | one turn of the loop refines the step of the specification |
| `RemoteWorker.Worker.DeliverEvent` | codex-rs/app-server-client/src/remote.rs:832-842 | delivery fails exactly when the consumer has gone |
| `RemoteWorker.Worker.Drain` | codex-rs/app-server-client/src/remote.rs:427-433 | every pending request, in any order, is told once that the worker has closed, and nothing else changes |
| `RemoteWorker.Worker.Loop` | codex-rs/app-server-client/src/remote.rs:199-433 | the loop ends in the drained state of a run |
| `RemoteProtocol.AnswersReachTheirCallers` | codex-rs/app-server-client/src/remote.rs:209-308 | with a server that answers each request it reads once, in any order, every waiter gets the answer to its own request, also when ids are reused |
| `RemoteProtocol.CallersHearDecisions` | codex-rs/app-server-client/src/remote.rs:299-308 | in every behaviour, the requests the server has granted or refused are, one for one, those whose callers were told `Answered` or `Refused` and those whose answer is still on the wire |
| `RemoteProtocol.AnsweredMeansGranted` | codex-rs/app-server-client/src/remote.rs:299-308 | a caller told `Answered` had that request granted by an earlier move of the server, and one told `Refused` had it refused |
| `RemoteProtocol.OneInFlightPerId` | codex-rs/app-server-client/src/remote.rs:209-240 | across both wires and the server a request is in flight exactly once if it is pending and not at all otherwise, so at most one per id |
| `RemoteProtocol.AllAnsweredAtRest` | codex-rs/app-server-client/src/remote.rs:209-308 | with both wires and the server empty nothing is pending, every accepted request has the server's answer to it, and the answers given are the server's decisions |
| `RemoteProtocol.NextSettles` | codex-rs/app-server-client/src/remote.rs:209-308 | every move keeps written requests equal to settled plus pending ones, and settles them only by answers of the server |
| `RemoteProtocol.NextKeeps` | codex-rs/app-server-client/src/remote.rs:205-421 | every move of client, server or wire keeps requests in flight equal to the pending table |
| `RemoteProtocol.BehaviorInvariant` | codex-rs/app-server-client/src/remote.rs:199-433 | so does every behaviour |
| `RemoteProtocol.AnsweringTwiceMisleads` | codex-rs/app-server-client/src/remote.rs:299-308 | with a server that answers twice, a reused id brings a waiter another's answer |
| `RemoteEvents.InitializeRemoteConnection` | codex-rs/app-server-client/src/remote.rs:700-823 | the handshake loop computes the specified outcome, failing also when either of its own writes fails |
| `RemoteEvents.ShakeKeepsOrder` | codex-rs/app-server-client/src/remote.rs:720-804 | the first deciding frame decides; a connected client holds exactly the events of all frames read, in wire order |
| `RemoteEvents.HandshakeByKind` | codex-rs/app-server-client/src/remote.rs:720-804 | the handshake succeeds at a frame if and only if that answers `initialize` and every frame before it is of a kind it reads past; it then holds the events of those |
| `RemoteEvents.StreamByKind` | codex-rs/app-server-client/src/remote.rs:309-345 | the events of the wire, by the kinds of frame: as many as known notifications and known requests, each at its own rank with its own content |
| `RemoteEvents.WorkerDelivers` | codex-rs/app-server-client/src/remote.rs:309-421 | a running worker has delivered the events of every frame it took; a stopped one these and perhaps one `Disconnected`, or all but the last, which it could not deliver |
| `RemoteEvents.HowItEnds` | codex-rs/app-server-client/src/remote.rs:309-421 | when the worker ends its consumer has seen every event received before, and then `Disconnected` exactly if the connection was found lost and the consumer was there |
| `RemoteEvents.AllEvents` | codex-rs/app-server-client/src/remote.rs:309-421 | the same of handshake events followed by worker events, over the whole wire |
| `RemoteEvents.EventOrder` | codex-rs/app-server-client/src/remote.rs:568-573 | any beginning of these is a beginning of the wire's events, each once and in order, or all of them and a single last `Disconnected` |
| `RemoteEvents.Session` | codex-rs/app-server-client/src/remote.rs:436-573 | handshake, worker and consumer together: what is yielded is in wire order, a beginning of all events, and at least as many as were last asked for and there |
| `RemoteEvents.StreamNeverDisconnects` | codex-rs/app-server-client/src/remote.rs:825-830 | no frame stands for a `Disconnected`, so the one that ends the events is the worker's |
| `RemoteEvents.Client.constructor` | codex-rs/app-server-client/src/remote.rs:436-441 | the client starts with the handshake's events pending |
| `RemoteEvents.Client.NextEvent` | codex-rs/app-server-client/src/remote.rs:568-573 | yields the oldest event not yet yielded, across the switch, and none only when none is left |
| `RemoteEvents.NextEvents` | codex-rs/app-server-client/src/remote.rs:568-573 | asking `n` times yields the next events in order, as many as were asked for and there, and loses none |
| `RemoteEvents.Client.Arrive` | codex-rs/app-server-client/src/remote.rs:832-842 | an event the worker delivers comes after all others |
| `Analytics.TurnsReportedOnce` | codex-rs/analytics/src/reducer.rs:519-543 | over every run, turn events for an id, plus one if it can still be reported, never exceed its start responses that matched a pending start |
| `Analytics.TurnStep` | codex-rs/analytics/src/reducer.rs:805-859 | each fact keeps that count |
| `Analytics.SteersReportedOnce` | codex-rs/analytics/src/reducer.rs:742-803 | for any class of steer data, steer events plus waiting requests of the class never exceed recorded requests of the class: each event carries one request's data |
| `Analytics.SteerStep` | codex-rs/analytics/src/reducer.rs:554-602 | each fact keeps that count |
| `Analytics.SteerCountExact` | codex-rs/analytics/src/reducer.rs:742-765 | a turn's `steer_count`, also as reported, is the matched accepted steers since its entry was created |
| `Analytics.SteerCountStep` | codex-rs/analytics/src/reducer.rs:742-859 | each fact adds one to the count exactly when it is a matched accepted steer |
| `Analytics.ThreadsAlwaysKnown` | codex-rs/analytics/src/reducer.rs:663-699 | in every reachable state threads with metadata are exactly those with a connection, and that connection is known |
| `Analytics.IngestKeepsThreads` | codex-rs/analytics/src/reducer.rs:157-234 | every fact keeps that |
| `Analytics.DroppedOnlyWhenUnknown` | codex-rs/analytics/src/reducer.rs:701-740 | in every reachable state a compaction or guardian review is dropped exactly when its thread has no metadata |
| `AnalyticsHistory.KnowsWhatWasSaid` | codex-rs/analytics/src/reducer.rs:236-336 | over every run the reducer knows of a connection the last `initialize`, of a thread the last announcement on a known connection, and of a request id the last request not answered since, images counted, and nothing else |
| `AnalyticsHistory.SteersReportedExactly` | codex-rs/analytics/src/reducer.rs:554-602 | an answer to a steer is reported as one event with the data of its request and the outcome if its connection and thread are known, and as none otherwise; no other fact reports one |
| `AnalyticsHistory.ThreadsReportedExactly` | codex-rs/analytics/src/reducer.rs:663-740 | a thread announced on a known connection, a compaction and a review of a known thread are reported as one event with what was last said, and as none otherwise |
| `AnalyticsHistory.ImagesCounted` | codex-rs/analytics/src/reducer.rs:1015-1020 | the number of input images is how many inputs are images of either kind |
| `AnalyticsHistory.EndingIs` | codex-rs/analytics/src/reducer.rs:627-656 | the ending of a turn by its completion: no status while in progress, times that are negative or missing left out, and zero for the completion |
| `AnalyticsHistory.DetailsExact` | codex-rs/analytics/src/reducer.rs:604-625 | a turn event carries the start time and token usage last given since its entry was created |
| `Analytics.AnalyticsReducer.constructor` | codex-rs/analytics/src/reducer.rs:73-80 | all five maps start empty |
| `Analytics.AnalyticsReducer.Entry` | codex-rs/analytics/src/reducer.rs:344-350 | the entry of a turn is found, or created with nothing known |
| `Analytics.AnalyticsReducer.MaybeEmitTurnEvent` | codex-rs/analytics/src/reducer.rs:805-859 | emits and forgets a turn exactly when it is complete, with a known connection and thread |
| `Analytics.AnalyticsReducer.EmitTurnSteerEvent` | codex-rs/analytics/src/reducer.rs:767-803 | a steer event is appended when connection and thread are known, and nothing changes otherwise |
| `Analytics.AnalyticsReducer.IngestRequest` | codex-rs/analytics/src/reducer.rs:307-336 | records start and steer requests and touches nothing else |
| `Analytics.AnalyticsReducer.IngestThreadResponse` | codex-rs/analytics/src/reducer.rs:663-699 | a thread response is recorded in both thread maps or in neither |
| `Analytics.AnalyticsReducer.IngestStartResponse` | codex-rs/analytics/src/reducer.rs:519-543 | consumes the matching pending start, fills the turn, may report it |
| `Analytics.AnalyticsReducer.IngestSteerAnswer` | codex-rs/analytics/src/reducer.rs:554-602 | consumes the matching pending steer, counts it if accepted, reports it |
| `Analytics.AnalyticsReducer.IngestTurnStarted` | codex-rs/analytics/src/reducer.rs:604-625 | records the start time of a turn |
| `Analytics.AnalyticsReducer.IngestTurnFact` | codex-rs/analytics/src/reducer.rs:338-381 | configuration, completion and token usage fill the turn's entry and may report it |
| `Analytics.AnalyticsReducer.IngestThreadDetail` | codex-rs/analytics/src/reducer.rs:271-305 | compactions and guardian reviews of known threads are reported |
| `Analytics.AnalyticsReducer.IngestFact` | codex-rs/analytics/src/reducer.rs:157-234 | the dispatcher refines the specification of every fact and keeps the thread invariant |
| `AnalyticsJoin.TurnJoins` | codex-rs/analytics/src/reducer.rs:805-859 | in every interleaving of the start response, the configuration and the completion with any other facts, agreeing or not, the turn is reported once if a moment has come at which its event is complete, not at all before, with the thread and images last written by then |
| `AnalyticsJoin.DueExactly` | codex-rs/analytics/src/reducer.rs:805-859 | a report is due exactly when, with all three facts there, one of them or a token usage of the turn has come while the connection and the thread last named were known |
| `AnalyticsJoin.ReportedAtTheLast` | codex-rs/analytics/src/reducer.rs:338-381 | once the connection and both threads are known, exactly one event has come out if all three facts have arrived and none otherwise, whether or not the facts agree |
| `AnalyticsJoin.UnknownThreadIsSilent` | codex-rs/analytics/src/reducer.rs:805-859 | if the thread last named is unknown when the last of the three arrives, nothing is reported until a token usage of the turn |
| `AnalyticsJoin.OrderDoesNotMatter` | codex-rs/analytics/src/reducer.rs:805-859 | if the facts agree on thread and images, every interleaving reports the same required fields |
| `AnalyticsJoin.JoinStep` | codex-rs/analytics/src/reducer.rs:519-543 | each fact of an interleaving keeps the turn's entry in step with what has been collected, and reports exactly at the first complete moment |
| `AnalyticsJoin.OtherStep` | codex-rs/analytics/src/reducer.rs:157-234 | facts of other turns, requests, threads and connections, and this turn's start time and steers, leave what was collected as it is and report nothing for the turn |
| `AnalyticsJoin.LastWriterWins` | codex-rs/analytics/src/reducer.rs:338-381 | in every interleaving the reported thread and images are those last written when the last of the three facts arrives |
| `AnalyticsJoin.OrderMattersUnlessAgreed` | codex-rs/analytics/src/reducer.rs:338-381 | the facts agree on thread and images if and only if all interleavings report the same |
| `AnalyticsJoin.ReportsDiffer` | codex-rs/analytics/src/reducer.rs:338-381 | two given interleavings report the same if and only if the same thread and images were last written in both |
| `AnalyticsJoin.TwoOrdersTwoReports` | codex-rs/analytics/src/reducer.rs:338-381 | a turn whose request has one image and whose configuration has two reports either number, by order |
| `AnalyticsJoin.LateConnectionNotRetried` | codex-rs/analytics/src/reducer.rs:236-259 | a complete turn whose connection arrives last is reported not then but at the next fact of the turn |
| `SchemaRefs.CollectDefinitionDependencies` | codex-rs/app-server-protocol/src/export.rs:1116-1136 | terminates on cyclic schemas with the least set of names that holds the starting names and is closed under references |
| `SchemaRefs.ReachableLocalDefinitions` | codex-rs/app-server-protocol/src/export.rs:1380-1395 | the same for local definitions, from the references outside the definition maps |
| `SchemaRefs.StripMethodVariants` | codex-rs/app-server-protocol/src/export.rs:1344-1362 | a schema without a variant list is untouched; otherwise the listed methods go and definitions are cut down to the least closed set |
| `SchemaRefs.StrippedFields` | codex-rs/app-server-protocol/src/export.rs:1344-1362 | of a schema with variants the wanted ones stay in order, every field but the definitions stays as it was, and no definition is changed |
| `SchemaRefs.ReferredStays` | codex-rs/app-server-protocol/src/export.rs:1380-1420 | a definition referred to from a place outside the definition maps resolves as before |
| `SchemaRefs.MethodVariantIs` | codex-rs/app-server-protocol/src/export.rs:1364-1378 | the variants that go are those whose `method` property has a listed `const` or, without a text there, a listed first `enum` member, read place by place |
| `SchemaRefs.KeptMembers` | codex-rs/app-server-protocol/src/export.rs:1352 | exactly the variants of listed methods go |
| `SchemaRefs.KeptInOrder` | codex-rs/app-server-protocol/src/export.rs:1352 | the others stay in their order, each once |
| `SchemaRefs.PruneKeepsResolution` | codex-rs/app-server-protocol/src/export.rs:1344-1464 | pruning keeps exactly the reachable definitions, and every reference that remains resolves as before if and only if every defined name that only hidden references mention is reachable anyway |
| `SchemaRefs.NothingHidden` | codex-rs/app-server-protocol/src/export.rs:1397-1420 | nothing is hidden when nested objects do not use the definition-map keys |
| `SchemaRefs.VisibleAll` | codex-rs/app-server-protocol/src/export.rs:1397-1464 | without such keys the excluding collector finds every reference |
| `SchemaRefs.RefsByPlace` | codex-rs/app-server-protocol/src/export.rs:1397-1464 | the references of a value are the texts at its `$ref` places, at any depth; the visible ones are those at places not below a `definitions` or `$defs` key |
| `SchemaRefs.LocalNamesAre` | codex-rs/app-server-protocol/src/export.rs:1444-1464 | the local names of references are their first segments after the definitions prefix |
| `SchemaRefs.NonV2NamesAre` | codex-rs/app-server-protocol/src/export.rs:1094-1114 | the names outside the namespace are those of references with the definitions prefix and without the namespaced one |
| `SchemaRefs.NestedMapLosesDefinition` | codex-rs/app-server-protocol/src/export.rs:1344-1420 | a schema with variants, none of them removed, in which stripping leaves a reference without its definition |
| `SchemaRefs.LeastClosedUnique` | codex-rs/app-server-protocol/src/export.rs:1116-1136 | there is one least closed set, so the order of the work list is immaterial |
| `FlatSchema.BuildFlatV2Schema` | codex-rs/app-server-protocol/src/export.rs:1038-1086 | each refusal exactly when its check finds something; a flat bundle has no namespaced and no dangling reference; a well-formed bundle is flattened to the definitions of `v2`, the shared ones and what these need, each the same at every place but for references, with the title suffixed and every other field unchanged |
| `FlatSchema.UncheckedIsFlat` | codex-rs/app-server-protocol/src/export.rs:1038-1086 | that description of the flat bundle, place by place |
| `FlatSchema.ChecksAreSound` | codex-rs/app-server-protocol/src/export.rs:1157-1228 | the two final checks find nothing if and only if no reference at any place is namespaced and each local one resolves; the missing names are exactly those of dangling references |
| `FlatSchema.FlatteningSucceeds` | codex-rs/app-server-protocol/src/export.rs:1157-1228 | on a reference-closed bundle whose v2 definitions refer only to v2, no check fails |
| `FlatSchema.FlatteningMeaning` | codex-rs/app-server-protocol/src/export.rs:1038-1155 | a kept reference, rewritten, resolves to the rewriting of its old target if and only if its name does not clash in the direction that loses |
| `FlatSchema.ClashChangesMeaning` | codex-rs/app-server-protocol/src/export.rs:1038-1086 | a well-formed bundle with one name at the root and in the namespace, whose root reference finds the other definition once flat |
| `FlatSchema.FlatteningPreservesMeaning` | codex-rs/app-server-protocol/src/export.rs:1038-1155 | with no name in both root and v2, flattening succeeds and every kept reference keeps its meaning |
| `FlatSchema.KeptRefResolves` | codex-rs/app-server-protocol/src/export.rs:1184-1228 | every kept reference resolves in the flat map, to the rewriting of the definition that won its name |
| `FlatSchema.RefsRewrite` | codex-rs/app-server-protocol/src/export.rs:1138-1155 | the references of a rewritten schema are the rewritten references, at any depth |
| `FlatSchema.RewriteAt` | codex-rs/app-server-protocol/src/export.rs:1138-1155 | rewriting keeps every key, list length and leaf at every place, and changes the text of `$ref` places only |
| `FlatSchema.RewriteFixed` | codex-rs/app-server-protocol/src/export.rs:1138-1155 | a value whose references stay is left alone |
| `FlatSchema.ReplaceFirst` | codex-rs/app-server-protocol/src/export.rs:1138-1145 | the first occurrence of the prefix is replaced, what precedes it stays and what follows is treated the same way |
| `FlatSchema.ReplaceAbsent` | codex-rs/app-server-protocol/src/export.rs:1138-1145 | a text without the prefix stays |
| `FlatSchema.RewriteV2` | codex-rs/app-server-protocol/src/export.rs:1138-1155 | a namespaced reference becomes the root reference of the same name |
| `FlatSchema.RewriteRoot` | codex-rs/app-server-protocol/src/export.rs:1138-1155 | root references are left alone |
| `TypeText.SplitJoinRoundTrip` | codex-rs/app-server-protocol/src/export.rs:754-777 | for any text, joining any in-order selection of its top-level parts with a delimiter and blanks and splitting again gives that selection |
| `TypeText.SplitTopLevelMulti` | codex-rs/app-server-protocol/src/export.rs:758-777 | the loop computes the specified split |
| `TypeText.PiecesProper` | codex-rs/app-server-protocol/src/export.rs:880-941 | the scanner is in its starting state at every split point, and no piece can be cut again |
| `TypeText.PiecesCover` | codex-rs/app-server-protocol/src/export.rs:758-777 | pieces and cut characters, woven together, are the text: nothing is lost or invented |
| `TypeNesting.CutsAreTopLevel` | codex-rs/app-server-protocol/src/export.rs:758-777 | properly nested text, with brackets of all four kinds, both quotes, escapes and lone closing brackets, is cut exactly at the delimiters that stand by themselves |
| `TypeNesting.EnclosedIsUncut` | codex-rs/app-server-protocol/src/export.rs:887-941 | a group or a literal is one closed piece whatever delimiters it holds |
| `TypeNesting.SplitsNested` | codex-rs/app-server-protocol/src/export.rs:758-777 | its parts are the trimmed pieces that are not empty |
| `TypeText.TrimIs` | codex-rs/app-server-protocol/src/export.rs:763-775 | trimming takes off all blanks at both ends and nothing else |
| `TypeText.SplitSeparable` | codex-rs/app-server-protocol/src/export.rs:754-777 | parts of a split are non-empty, trimmed and cannot run into each other when joined |
| `TypeText.SelectSeparable` | codex-rs/app-server-protocol/src/export.rs:305-328 | neither can any selection of them |
| `TypeText.FilterKeepsExactly` | codex-rs/app-server-protocol/src/export.rs:305-328 | reading the filtered file again gives exactly the kept arms in order, with the same text around them; a file without an alias is left alone |
| `TypeText.FilterMembers` | codex-rs/app-server-protocol/src/export.rs:305-328 | an arm is in the result if and only if it was there and is kept |
| `TypeText.FilterIdempotent` | codex-rs/app-server-protocol/src/export.rs:305-328 | filtering twice is filtering once, character by character, before unused imports are removed |
| `TypeText.FieldsKeptExactly` | codex-rs/app-server-protocol/src/export.rs:370-395 | split, filtered, joined and split again, the text between the braces gives exactly the kept fields, in order |
| `TypeFields.BodyFoundAgain` | codex-rs/app-server-protocol/src/export.rs:370-395 | for every file and every choice of fields, after filtering the braces of the type are found where they were, around the kept fields, if and only if the last kept field, read inside the type unless an earlier kept field closed it, leaves open no brace of its own |
| `TypeFields.FileFieldsKeptExactly` | codex-rs/app-server-protocol/src/export.rs:370-395 | then reading the filtered file finds exactly the kept fields, in order |
| `NestedFiles.FilterNestedFile` | codex-rs/app-server-protocol/src/export.rs:370-395 | for every nested file, character by character: the fields are the stretches between delimiters that stand by themselves between the braces, and the filtered file is the same file with the joined unlisted fields there |
| `NestedFiles.FirstGroupFound` | codex-rs/app-server-protocol/src/export.rs:735-752 | in nested text the braces found are those of the first group in braces at top level |
| `NestedFiles.AnchorIsHead` | codex-rs/app-server-protocol/src/export.rs:718-733 | the search for them starts after the first `=` or, without any, after the first mention of an exported interface, and nowhere else |
| `TypeFields.BalancedIsSafe` | codex-rs/app-server-protocol/src/export.rs:370-395 | if the last field of the file closes the braces it opens, the condition holds whatever is kept |
| `FieldNames.DroppedFieldLosesBody` | codex-rs/app-server-protocol/src/export.rs:370-395 | for any names, listed and not listed, of two fields with unbalanced braces: the listed one is dropped and the braces of the type are not found around the other |
| `FieldNames.ListedFieldsGone` | codex-rs/app-server-protocol/src/export.rs:370-395 | with the filter by name, the fields of the filtered file are those without a listed name, in order, under the condition of `TypeFields.BodyFoundAgain` |
| `FieldNames.NamedField` | codex-rs/app-server-protocol/src/export.rs:796-849 | a field written as an identifier, optional or not, and a colon has that name |
| `FieldNames.NamedFieldStays` | codex-rs/app-server-protocol/src/export.rs:379-386 | so it is kept exactly when its name is not listed |
| `FieldNames.IdentifierName` | codex-rs/app-server-protocol/src/export.rs:827-848 | an identifier is a name exactly when a colon follows it, after blanks and perhaps a question mark |
| `NestedFiles.QuotedName` | codex-rs/app-server-protocol/src/export.rs:820-826 | a quoted name is what the quotes hold, escapes and all, exactly when a colon follows |
| `FieldNames.NamelessStays` | codex-rs/app-server-protocol/src/export.rs:379-386 | a field without a name stays, whatever is listed |
| `FieldNames.CommentSkipped` | codex-rs/app-server-protocol/src/export.rs:802-813 | a leading comment does not matter |
| `FieldNames.NoCommentSkipped` | codex-rs/app-server-protocol/src/export.rs:802-813 | text without one, or with one that does not end, is only trimmed |
| `FieldNames.IdentCharsAre` | codex-rs/app-server-protocol/src/export.rs:876-878 | names are of ASCII letters, digits and underscores |
| `FieldNames.ParsePropertyName` | codex-rs/app-server-protocol/src/export.rs:815-849 | the loop reads the specified name: a literal or identifier, perhaps marked optional, before a colon, and none otherwise |
| `FieldNames.ParseStringLiteral` | codex-rs/app-server-protocol/src/export.rs:851-874 | the loop finds the first closing quote that is not escaped |
| `FieldNames.StripLeadingBlockComments` | codex-rs/app-server-protocol/src/export.rs:802-813 | the loop removes every leading comment that ends |
| `TypeFields.Replaced` | codex-rs/app-server-protocol/src/export.rs:718-752 | the same for any text put between the braces |
| `TypeFields.SpanIs` | codex-rs/app-server-protocol/src/export.rs:735-752 | braces that are found open at top level, close to it, and in between none does either |
| `TypeFields.FindTopLevelBraceSpan` | codex-rs/app-server-protocol/src/export.rs:735-752 | the loop computes the specified span |
| `TypeFields.SelectQuiet` | codex-rs/app-server-protocol/src/export.rs:370-395 | dropping fields cannot make another field open or close a brace at top level |
| `TypeFields.JoinReads` | codex-rs/app-server-protocol/src/export.rs:370-395 | joined fields leave the scanner where the last of them does, from inside the type or, once a field has closed it, from outside |
| `TypeFields.AnchorStays` | codex-rs/app-server-protocol/src/export.rs:718-733 | a change after the `=` or the interface marker leaves the place the search starts from |
| `TypeText.AliasRoundTrip` | codex-rs/app-server-protocol/src/export.rs:706-716 | replacing the body of a type alias by any text and splitting again gives that body with the same surroundings |
| `TypeText.AliasExactly` | codex-rs/app-server-protocol/src/export.rs:706-716 | the alias found is what lies between the first `=` and the last `;`, if and only if the text has that form |
| `TypeText.ScanState.Observe` | codex-rs/app-server-protocol/src/export.rs:887-922 | refines the scanner's step and keeps its state sane |
| `TypeText.ScanState.IsTopLevel` | codex-rs/app-server-protocol/src/export.rs:924-941 | top level means outside strings and with all depths zero |
| `TypeText.ScanState.constructor` | codex-rs/app-server-protocol/src/export.rs:880-886 | scanning starts at top level, outside any string |
| `SchemaFixtures.CanonIsNormalForm` | codex-rs/app-server-protocol/src/schema_fixtures.rs:152-208 | two values have the same canonical form if and only if they differ only in the order of object entries and of arrays whose every element is null, a bool, a number, a string or an object with a string `$ref` or `title` |
| `SchemaFixtures.CanonAscends` | codex-rs/app-server-protocol/src/schema_fixtures.rs:174-195 | an array of such elements comes out ascending: bools, numbers, nulls, references, strings and titled objects, each kind by its text; any other array keeps its order |
| `SchemaFixtures.CanonForgetsOrder` | codex-rs/app-server-protocol/src/schema_fixtures.rs:184-195 | the order in which such an array is written does not matter |
| `SchemaFixtures.CanonKeysAscend` | codex-rs/app-server-protocol/src/schema_fixtures.rs:196-207 | objects come out with their keys strictly ascending |
| `SchemaFixtures.KeyedAreOrderable` | codex-rs/app-server-protocol/src/schema_fixtures.rs:210-227 | exactly nulls, bools, numbers, strings and objects with a string `$ref` or `title` have a sort key |
| `SchemaFixtures.CanonEqualSame` | codex-rs/app-server-protocol/src/schema_fixtures.rs:152-208 | equal canonical forms come from values equal up to that order |
| `SchemaFixtures.SameCanonEqual` | codex-rs/app-server-protocol/src/schema_fixtures.rs:184-195 | and conversely, also where keys tie |
| `SchemaFixtures.CanonIdempotent` | codex-rs/app-server-protocol/src/schema_fixtures.rs:152-208 | canonical forms are fixed points |
| `SchemaFixtures.CanonKeepsElements` | codex-rs/app-server-protocol/src/schema_fixtures.rs:152-195 | an array keeps the multiset of its canonical elements |
| `SchemaFixtures.CanonKeepsKey` | codex-rs/app-server-protocol/src/schema_fixtures.rs:210-227 | canonical form does not change a sort key |
| `SchemaFixtures.LookupCanon` | codex-rs/app-server-protocol/src/schema_fixtures.rs:196-207 | an object keeps its keys, each with its canonical value |
| `SchemaFixtures.CollectSortKeys` | codex-rs/app-server-protocol/src/schema_fixtures.rs:174-182 | keys are collected for all elements or, if one has none, not at all |
| `SchemaFixtures.CanonicalizeJson` | codex-rs/app-server-protocol/src/schema_fixtures.rs:152-208 | the recursive loops compute the canonical form, which is valid, has the same sort key and equals the value up to that order |
| `JsonText.TextInjective` | codex-rs/app-server-protocol/src/schema_fixtures.rs:174-182 | serialized values are equal only for equal values, so the tie-break is total |
| `JsonText.TextDecodes` | codex-rs/app-server-protocol/src/schema_fixtures.rs:174-182 | serialized text can be read back from the front in one way only |
| `JsonText.TextForms` | codex-rs/app-server-protocol/src/schema_fixtures.rs:174-182 | the compact text of each kind of value: quoted strings, lists in brackets, entries in braces, commas between |
| `Ordering.SortForgetsOrder` | codex-rs/app-server-protocol/src/schema_fixtures.rs:184-195 | sorting two arrangements of the same elements gives the same sequence |
| `Ordering.SortSorts` | codex-rs/app-server-protocol/src/schema_fixtures.rs:184-195 | the result is in order |
| `Ordering.LexIsDictionary` | codex-rs/app-server-protocol/src/schema_fixtures.rs:184-195 | the order of strings is that of dictionaries |
| `Toml.ValueAtPath` | codex-rs/app-server/src/config_manager_service.rs:548-564 | reads a value through tables and array indices |
| `Toml.IndexReads` | codex-rs/app-server/src/config_manager_service.rs:548-564 | a segment that writes an index reads that element, and nothing past the end |
| `Toml.IndexExactly` | codex-rs/app-server/src/config_manager_service.rs:548-564 | the segments that are indices: digits that fit in 63 bits, with a plus or none, and zero with a minus |
| `Toml.NotAnIndex` | codex-rs/app-server/src/config_manager_service.rs:548-564 | nothing else is an index |
| `Toml.MergedReads` | codex-rs/config/src/merge.rs:6-30 | what can be read from a merge over a value without legacy keys can be read from that value or, its legacy keys renamed, from the other |
| `Toml.MergedEntry` | codex-rs/config/src/merge.rs:10-30 | a merged table has the keys of both sides, the upper ones renamed; shared ones are merged in turn |
| `Toml.OverlayWins` | codex-rs/config/src/merge.rs:5-30 | a value other than a table that the overlay says anywhere is what the merge says there, whatever the base |
| `Toml.BaseShows` | codex-rs/config/src/merge.rs:5-30 | where the overlay says nothing, nor anything in the way, the merge says what the base does |
| `Toml.MergedIsModern` | codex-rs/config/src/merge.rs:6-30 | merging leaves no legacy key |
| `Toml.ModernIsNormalized` | codex-rs/config/src/key_aliases.rs:24-59 | a value without legacy keys is its own normal form |
| `Toml.NormalizedIsModern` | codex-rs/config/src/key_aliases.rs:39-59 | a normal form has no legacy key |
| `Toml.LegacyKeysMove` | codex-rs/config/src/key_aliases.rs:11-37 | in their two tables the legacy keys give their values to the new names unless these are there, and no other key is touched |
| `Toml.OtherTablesKeepTheirKeys` | codex-rs/config/src/key_aliases.rs:24-37 | no other table is touched |
| `ConfigEdits.RecordedReplays` | codex-rs/app-server/src/config_manager_service.rs:232-275 | replaying what one edit records gives the edited configuration if and only if the edit is not missed |
| `ConfigEdits.BatchReplays` | codex-rs/app-server/src/config_manager_service.rs:232-275 | for every batch that succeeds with no missed edit, replaying the log over the start gives exactly the final configuration |
| `ConfigEdits.NoArraysNoneMissed` | codex-rs/app-server/src/config_manager_service.rs:420-475 | with no array on an edited path no edit is missed |
| `ConfigEdits.MissedEditExists` | codex-rs/app-server/src/config_manager_service.rs:256-275 | an edit through an array that changes the configuration and records nothing |
| `ConfigEdits.ApplyEdits` | codex-rs/app-server/src/config_manager_service.rs:232-275 | the loop runs the batch, and its log replays |
| `ConfigEdits.RunBatchPush` | codex-rs/app-server/src/config_manager_service.rs:232-275 | a batch with one edit more is the batch and then that edit, on configuration, log and paths |
| `ConfigEdits.WhenOneFails` | codex-rs/app-server/src/config_manager_service.rs:232-258 | one edit fails exactly for a blank path, an unparsable value or a parent that is not as needed, and with a path not found exactly for clears |
| `ConfigEdits.ParseTwo` | codex-rs/app-server/src/config_manager_service.rs:404-412 | a key path with one dot is its two segments |
| `ConfigEdits.ApplyMerge` | codex-rs/app-server/src/config_manager_service.rs:420-475 | the descending cursor computes the recursive set, upsert or clear, failures included |
| `ConfigEdits.ClearValue` | codex-rs/app-server/src/config_manager_service.rs:477-499 | the same for clearing |
| `ConfigEdits.FailedEditUntouched` | codex-rs/app-server/src/config_manager_service.rs:420-499 | a failing edit leaves the whole tree as it was |
| `ConfigEdits.WhenEditsFail` | codex-rs/app-server/src/config_manager_service.rs:420-499 | setting fails exactly when the parent exists and is not a table, clearing exactly when it is not an existing table |
| `ConfigEdits.SetReadsBack` | codex-rs/app-server/src/config_manager_service.rs:420-475 | a successful set reads back as the merged value, a replace as the value itself |
| `ConfigEdits.UpsertReadsBack` | codex-rs/app-server/src/config_manager_service.rs:456-465 | a table upserted over a table: its values other than tables read back, and the old table shows where it is silent |
| `ConfigEdits.UpsertReplaces` | codex-rs/app-server/src/config_manager_service.rs:456-475 | any other upsert reads back as the value given |
| `ConfigEdits.ChangedExactly` | codex-rs/app-server/src/config_manager_service.rs:456-499 | a clear has changed something exactly if there was something, a replacement exactly if it was not there already |
| `ConfigEdits.ClearReadsBack` | codex-rs/app-server/src/config_manager_service.rs:477-499 | a successful clear reads back as absent |
| `ConfigEdits.SetFrames` | codex-rs/app-server/src/config_manager_service.rs:420-475 | diverging paths are untouched when no array is on the edited path |
| `ConfigEdits.ClearFrames` | codex-rs/app-server/src/config_manager_service.rs:477-499 | clearing leaves every diverging path untouched |
| `ConfigEdits.SetIsReplace` | codex-rs/app-server/src/config_manager_service.rs:256-275 | an upsert recorded as its whole resulting value has the same effect |
| `ConfigEdits.SetSame` | codex-rs/app-server/src/config_manager_service.rs:256-275 | setting what is already read changes nothing if and only if no array is on the path |
| `ConfigLayers.Write` | codex-rs/app-server/src/config_manager_service.rs:193-340 | a write is refused exactly for a failing edit or a configuration not accepted; it is `Ok` exactly when every edited path reads the same in the user layer and in the effective configuration or is hidden, and otherwise names the highest layer with a value at the first that does not; its log replays unless an edit was missed |
| `ConfigLayers.OkMeansEffective` | codex-rs/app-server/src/config_manager_service.rs:302-323 | without legacy keys `Ok` is reported exactly when every edited path reads the same in the user layer and in the effective configuration |
| `ConfigLayers.UnreportedExactly` | codex-rs/app-server/src/config_manager_service.rs:594-649 | a difference goes unreported exactly at a path the effective configuration has and no enabled layer has, and then some enabled layer has it by a legacy key |
| `ConfigLayers.LegacyKeyUnreported` | codex-rs/app-server/src/config_manager_service.rs:302-323 | a write that clears a path in the user layer and reports `Ok`, after which the path still has a value from a legacy key of a lower layer |
| `ConfigLayers.ClearsThreadsByName` | codex-rs/app-server/src/config_manager_service.rs:404-412 | the key path `agents.max_threads` is such a request, under either strategy |
| `ConfigLayers.EffectiveHasLayer` | codex-rs/config/src/state.rs:272-281 | without legacy keys every effective value is in some enabled layer as it stands |
| `ConfigLayers.EffectiveHasSource` | codex-rs/config/src/state.rs:272-281 | for every stack each effective value is in the normal form of some enabled layer |
| `ConfigLayers.EffectiveConfig` | codex-rs/config/src/state.rs:272-281 | the loop merges the enabled layers from the lowest up; by `ConfigLayers.HighestLayerWins` the higher one wins |
| `ConfigLayers.HighestLayerWins` | codex-rs/config/src/state.rs:272-281 | the effective value at a path is that of the highest enabled layer that says one other than a table there, when the layers above it are silent |
| `ConfigLayers.TopLayerWins` | codex-rs/config/src/state.rs:272-281 | in particular what the topmost enabled layer says is in effect |
| `ConfigLayers.PrecedenceOrder` | codex-rs/app-server-protocol/src/protocol/v2.rs:618-632 | the order of the seven kinds of layer |
| `ConfigLayers.WithUserConfigValid` | codex-rs/config/src/state.rs:221-266 | replacing or inserting the user layer keeps the layers in order and the others as they were |
| `ConfigLayers.FindEffectiveLayer` | codex-rs/app-server/src/config_manager_service.rs:638-649 | finds the highest enabled layer with a value at the path, or none exactly when there is none |
| `ConfigLayers.ComputeOverrideMetadata` | codex-rs/app-server/src/config_manager_service.rs:594-623 | reports a path exactly when it reads differently and some enabled layer has it |
| `ConfigLayers.FirstOverriddenEdit` | codex-rs/app-server/src/config_manager_service.rs:625-636 | reports the first such path, or none exactly when there is none |
| `CommandOutput.ReportIsCappedPrefix` | codex-rs/app-server/src/command_exec.rs:577-627 | for every split into chunks the reported bytes are the first min(cap, total) bytes, only the last delta can carry `cap_reached`, and it does exactly when the cap is met |
| `CommandOutput.ReportIgnoresChunking` | codex-rs/app-server/src/command_exec.rs:577-627 | two splits of one stream report the same bytes |
| `CommandOutput.ReportOutput` | codex-rs/app-server/src/command_exec.rs:577-627 | the reading loop reports the capped prefix, as deltas or in the buffer, for any chunks and any schedule of the drain timeout; it is cut short only if the timeout fires |
| `CommandOutput.ReadSome` | codex-rs/app-server/src/command_exec.rs:581-593 | joins chunks that are ready while they are small and loses none |
| `CommandOutput.CapChunk` | codex-rs/app-server/src/command_exec.rs:594-604 | a chunk is cut to the room left under the cap |
| `CommandOutput.FullIsEnough` | codex-rs/app-server/src/command_exec.rs:604-625 | stopping at the cap loses nothing that reading on would report |
| `CommandOutput.StartAndReport` | codex-rs/app-server/src/command_exec.rs:159-163 | a command may start exactly if it has a process id or needs none; its kept bytes go to the deltas if it has a terminal or streams, and to the buffer otherwise, all of them unless the drain timeout fires |
| `CommandSessions.OwnershipExactly` | codex-rs/app-server/src/command_exec.rs:173-306 | over every run each key is owned by at most one command that is not cleaned up if and only if no start takes the key of such a command |
| `CommandSessions.TerminationExactly` | codex-rs/app-server/src/command_exec.rs:375-402 | over every run each live active command of a closed connection has been told to terminate or has that queued or about to be sent, if and only if no active command is started on a closed connection |
| `CommandSessions.QuietAfterClose` | codex-rs/app-server/src/command_exec.rs:173-306 | connections that start nothing once closed meet both conditions |
| `CommandChannels.ReadInOrder` | codex-rs/app-server/src/command_exec.rs:404-541 | nothing is lost, repeated or reordered on the way to a live command: what was put in its channel is what it has read and then what waits there |
| `CommandChannels.StoppedExactly` | codex-rs/app-server/src/command_exec.rs:498-541 | a command is stopped if and only if it has read an order to terminate, its time ran out or nobody could send to it any more |
| `CommandChannels.ControlFindsItsCommand` | codex-rs/app-server/src/command_exec.rs:404-439 | a control request on an open connection is for the command with the process id it names, and for nobody if there is none |
| `CommandChannels.ChannelBounded` | codex-rs/app-server/src/command_exec.rs:243 | a control channel never holds more than 32 requests, and one that finds it full waits |
| `CommandChannels.AbandonedOnlyWhenClosed` | codex-rs/app-server/src/command_exec.rs:524-528 | only a command of a closed connection can be stopped because nobody can send to it |
| `CommandSessions.OpenIsFresh` | codex-rs/app-server/src/command_exec.rs:173-240 | on an open connection no start takes the key of a command that is not cleaned up |
| `CommandSessions.EntriesAreKept` | codex-rs/app-server/src/command_exec.rs:173-306 | while no start takes the key of a command that is not cleaned up, an entry is removed only by its own command's end or by the close of its connection |
| `CommandSessions.ReuseCanLoseEntry` | codex-rs/app-server/src/command_exec.rs:284-306 | after any other start at most two steps of the older command take away the newer one's entry while that is alive |
| `CommandSessions.StepKeepsBase` | codex-rs/app-server/src/command_exec.rs:143-439 | every step of any task keeps entries with their owners, registered commands of open connections in the table, and generated ids unique |
| `CommandSessions.RunBase` | codex-rs/app-server/src/command_exec.rs:143-439 | so does every run |
| `CommandSessions.OwnEntry` | codex-rs/app-server/src/command_exec.rs:284-306 | an entry found at a command's key is that command's own |
| `CommandSessions.RestartAfterCloseLosesEntry` | codex-rs/app-server/src/command_exec.rs:375-402 | a run, with a start on a closed connection, after which a live command has no entry |
| `CommandSessions.SessionTable.Register` | codex-rs/app-server/src/command_exec.rs:173-240 | a taken key is refused and the table unchanged |
| `CommandSessions.SessionTable.Remove` | codex-rs/app-server/src/command_exec.rs:284-306 | removes one key and no other |
| `CommandSessions.SessionTable.ConnectionClosed` | codex-rs/app-server/src/command_exec.rs:375-402 | removes exactly the connection's entries and returns each of their controls once |
| `CommandSessions.SessionTable.constructor` | codex-rs/app-server/src/command_exec.rs:53-61 | the table starts empty |
| `CommandSessions.SessionTable.Close` | codex-rs/app-server/src/command_exec.rs:375-402 | the commands a closing connection has to tell are exactly the active ones whose entries it took out |
| `CommandSessions.SessionTable.Perform` | codex-rs/app-server/src/command_exec.rs:173-402 | for every step of a run the calls it makes leave the table that the step specifies |
| `CommandSessions.StepTable` | codex-rs/app-server/src/command_exec.rs:173-402 | the table changes only by registration of a free key, removal of a command's own key and removal of a connection's keys |

## Left out

- Websocket, TLS, process spawning, files, timers and HTTP: their outcomes are parameters or arbitrary choices.
- Parsing and printing of JSON, TOML and base64: values are taken as parsed; a JSON number is its text. NaN, which a TOML float can hold and which differs from itself, is not in the model.
- Update in place: `apply_merge`, `clear_path`, `rewrite_ref_prefix`, the retain calls and the sort work on mutable trees in the source and on values here; sorting is insertion sort, which `Ordering.SortForgetsOrder` makes equal to any other.
- The scanner's depth counters are unbounded integers; the source's are 32 bit.
- Reading the method name of one arm (`extract_method_from_arm`): the filter of arms takes any predicate on arms.
- Removing unused imports after filtering.
- Building the schema bundle, titles, index files, headers and directory walks.
- Version conflicts, the check of the target path and feature requirements before a configuration write: one guard each, in front of what `ConfigLayers.Write` models.
- What a running command does with a write or a resize once it has read it, and its exit code.
- Reducer events made from a single fact (skills, apps, hooks, plugins, subagent threads), and the labels and optional fields of turn events.
- Command handling, shutdown and typed requests of the in-process client.
- The remote client's public methods, which pass commands to the worker.
- ConfigEdits.BatchReplays: one direction only for a batch, because later edits of the same path can make up for a missed one; for a single edit `ConfigEdits.RecordedReplays` is exact.
- Liveness: nothing is claimed about steps happening eventually.

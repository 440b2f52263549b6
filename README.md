# RevisionTen CQRS core, modelled in Dafny

This project models the consistency engine of the RevisionTen CQRS bundle, an
event-sourcing runtime. It covers these pieces:

- **Command bus.** `execute` and `dispatch` build the aggregate a command targets, then run the command's handler. The handler's three-way decision gives a version CONFLICT, an applied event, or an invalid command. The bus publishes the collected pending events and returns the verdict: accepted iff the first message correlated to the command has code OK.
- **Abstract handler `__invoke`**, a template with the same branching. The model plugs the hooks of the bundle's example `PageCreateHandler` (`validateCommand`, `createEvent`, `execute`) into it. That class implements the handler interface directly rather than extending `Handler`; the command bus runs the same hooks itself in `handleCommand`.
- **Aggregate factory.** `build` overlays the latest snapshot, replays the canonical stream rows above it, records `streamVersion`, and then, for one user, replays that user's queued rows on top. `loadFromHistory`, `loadFromSnapshot`, `apply`, `applyChanges` and `findAggregates` are modelled too.
- **Event bus.** `publish` stages one stream row per event into the stream or the queue and logs one OK message per event. It then saves, passes every event to the listeners, and (when not queueing) sends one aggregate-updated notification per aggregate. `publishQueued` moves queued rows to the stream in two phases.
- **Event store and snapshot store** as in-memory tables guarded by their unique constraints:
  - (version, uuid) for the stream;
  - (version, uuid, user) for the queue;
  - (version, uuid) for snapshots.

  Changes are staged and become visible on `save`. A flush that would break a constraint fails as a whole.
- **Message bus**: an append-only log with order-preserving filters by command and by aggregate.
- **Records**: aggregate, stream row, queue row, snapshot, command, event and message, with their setters and conversions.

Each component is one module (one file). Objects whose fields the source updates in place are classes:

- `Aggregate`, `EventStreamObject`, `EventQueueObject`, `Snapshot`;
- the services `MessageBus`, `EventStore`, `SnapshotStore`, `AggregateFactory`, `EventBus`, `CommandBus` and `Handler`.

Each state-changing method is specified by a pure function of the old state, such as `ApplySpec`, `LoadFromHistorySpec`, `BuildSpec`, `Flush`, `HandleSpec` or `PublishQueuedSpec`. The properties the bundle promises are proved as lemmas about those functions. Values the source assigns once (commands, events, messages, table rows) are datatypes.

The status codes are the closed set the bundle defines: BAD_REQUEST 400, OK 200, CREATED 201, ERROR 500, DEFAULT 0, CONFLICT 409.

The environment is modelled as follows:

- Every "now" and every generated uuid is a parameter.
- A flush fails when it would break a unique constraint or, for a snapshot, leave a NOT NULL column null. The exception the database raises is a constant `Fault` of the store.
- The event dispatcher is an append-only `notifications` log. Which dispatches make a listener throw is a constant function of the event bus, so the `catch` blocks the source has for listener exceptions are reachable.

As written in the source, these failures are absorbed and do not change the outcome:

- `EventStore::save` catches a failed flush itself and only logs a message correlated to nothing. `publish` therefore still goes on to the listeners and notifications.
- A store conflict never changes the dispatch verdict. The message it logs is not correlated to the command.

Because the model keeps using the entity manager after a failed flush, a later `publishQueued` in the model still removes the queue rows and can return true; in PHP the closed entity manager makes that removal throw (see "## Left out").

## Model

| member | source | states |
|---|---|---|
| Codes.Code.Value | CQRSBundle.php:17-35 | every code constant is one of 0, 200, 201, 400, 409, 500 |
| Codes.FromValue | CQRSBundle.php:17-35 | the constants are pairwise distinct: an integer names at most one code, and an integer no constant has maps to none |
| Values.Title | Tests/Examples/Handler/PageCreateHandler.php:24-26 | `$payload['title']` is present iff the key is, and is then the payload's entry |
| Messages.FaultMessage | Services/EventStore.php:212-220 | a caught collaborator exception becomes a message with its text and code, correlated to no command and no aggregate |
| Commands.AsCommandClass | Services/CommandBus.php:64-66 | a class implements the command interface iff it is the known command class |
| Commands.NewCommand | Command/Command.php:55-67 | a given uuid is kept, a null one is replaced by the fresh uuid; user, aggregate uuid, target version, payload and listener are stored unchanged |
| Aggregates.NewState | Model/Aggregate.php:12-35 | a new aggregate has the given class and uuid, version 0, null snapshot/stream versions and timestamps, no pending events and no history |
| Aggregates.ShouldTakeSnapshot | Model/Aggregate.php:147-150 | with a non-negative snapshot version (null as 0): true iff the stream version is set and at least 10 above it; with a null stream version it is false except for snapshot version -10 (the PHP null comparison) |
| Aggregates.Aggregate.constructor | Model/Aggregate.php:32-35 | the new object's state is `NewState` of its class and uuid |
| Aggregates.Aggregate.SetUuid | Model/Aggregate.php:42-47 | only the uuid changes, to the value given |
| Aggregates.Aggregate.SetVersion | Model/Aggregate.php:54-59 | only the version changes, to the value given |
| Aggregates.Aggregate.SetSnapshotVersion | Model/Aggregate.php:66-71 | only the snapshot version changes |
| Aggregates.Aggregate.SetStreamVersion | Model/Aggregate.php:78-83 | only the stream version changes |
| Aggregates.Aggregate.SetCreated | Model/Aggregate.php:90-95 | only `created` changes |
| Aggregates.Aggregate.SetModified | Model/Aggregate.php:102-107 | only `modified` changes |
| Aggregates.Aggregate.SetPendingEvents | Model/Aggregate.php:114-119 | the pending list is replaced wholesale (empty for `[]`); nothing else changes |
| Aggregates.Aggregate.AddPendingEvent | Model/Aggregate.php:121-126 | exactly the event is appended at the end of pending, earlier events kept in order; nothing else changes |
| Aggregates.Aggregate.SetHistory | Model/Aggregate.php:133-138 | the history is replaced wholesale; nothing else changes |
| Aggregates.Aggregate.AddToHistory | Model/Aggregate.php:140-145 | history grows by exactly the entry, at the end; nothing else changes |
| Aggregates.Aggregate.SetTitle | Tests/Examples/Model/Page.php:11 | only the Page's public `title` changes |
| StreamObjects.EventStreamObject.constructor | Model/EventStreamObject.php:76-79 | construction records the creation time |
| StreamObjects.EventStreamObject.SetUuid | Model/EventStreamObject.php:91-96 | the row's uuid becomes the value given, all other columns kept |
| StreamObjects.EventStreamObject.SetCommandUuid | Model/EventStreamObject.php:103-108 | the command uuid becomes the value given, all other columns kept |
| StreamObjects.EventStreamObject.SetVersion | Model/EventStreamObject.php:115-120 | the version becomes the value given, all other columns kept |
| StreamObjects.EventStreamObject.SetCreated | Model/EventStreamObject.php:127-132 | `created` becomes the value given, all other columns kept |
| StreamObjects.EventStreamObject.SetEvent | Model/EventStreamObject.php:139-144 | the event class becomes the value given, all other columns kept |
| StreamObjects.EventStreamObject.SetAggregateClass | Model/EventStreamObject.php:151-156 | the aggregate class becomes the value given, all other columns kept |
| StreamObjects.EventStreamObject.SetUser | Model/EventStreamObject.php:163-168 | the user becomes the value given, all other columns kept |
| StreamObjects.EventStreamObject.SetPayload | Model/EventStreamObject.php:170-180 | the column holds the payload's encoding, and reading it back gives the payload |
| StreamObjects.EventStreamObject.SetMessage | Model/EventStreamObject.php:187-192 | the message becomes the value given, all other columns kept |
| QueueObjects.EventQueueObject.constructor | Model/EventQueueObject.php:76-87 | the queue row copies all nine columns of the stream row |
| QueueObjects.EventQueueObject.GetEventStreamObject | Model/EventQueueObject.php:95-109 | returns a new stream row field-equal to the queue row, which is left unchanged |
| QueueObjects.EventQueueObject.SetPayload | Model/EventQueueObject.php:200-210 | the payload round-trips through its encoding; other columns kept |
| QueueObjects.QueueRoundTrip | Model/EventQueueObject.php:76-109 | a stream row queued and converted back is field-equal to the original |
| Snapshots.Snapshot.constructor | Model/Snapshot.php:18-98 | construction records the creation time; every other column, the NOT NULL ones included, starts null |
| Snapshots.NewSnapshot | Model/Snapshot.php:95-286 | after construction and one setter per column, the record is accepted by the database and its getters give back exactly the values set, with the construction time |
| Snapshots.Snapshot.SetUuid | Model/Snapshot.php:121-126 | the uuid column is set to the value given, every other column kept |
| Snapshots.Snapshot.SetVersion | Model/Snapshot.php:141-146 | the version becomes the value given, every other column kept |
| Snapshots.Snapshot.SetAggregateClass | Model/Snapshot.php:161-166 | the class becomes the value given, every other column kept |
| Snapshots.Snapshot.SetPayload | Model/Snapshot.php:171-186 | the payload decodes to the value given, every other column kept |
| Snapshots.Snapshot.SetAggregateData | Model/Snapshot.php:191-206 | the aggregate data decodes to an equal aggregate, every other column kept |
| Snapshots.Snapshot.SetAggregateCreated | Model/Snapshot.php:241-246 | the aggregate's creation time is stored, every other column kept |
| Snapshots.Snapshot.SetAggregateModified | Model/Snapshot.php:261-266 | the aggregate's modification time is stored, every other column kept |
| Snapshots.Snapshot.SetHistory | Model/Snapshot.php:271-286 | the history decodes to the value given, every other column kept |
| Snapshots.FirstUndefined | Model/Snapshot.php:95-286 | the first call, if any, to a method the record does not define; none iff every call is defined |
| MessageBusService.Keep | Services/MessageBus.php:85-96 | a filter never returns more messages than the log holds |
| MessageBusService.KeepCounts | Services/MessageBus.php:85-116 | every kept message satisfies the test, and each satisfying message is kept as often as it occurs (no other) |
| MessageBusService.KeepAppend | Services/MessageBus.php:85-116 | filtering distributes over concatenation, so the order of the log is preserved |
| MessageBusService.ByCommandAppend | Services/MessageBus.php:85-96 | dispatching one message extends a command's messages by it exactly when it is correlated to that command |
| MessageBusService.ByAggregateAppend | Services/MessageBus.php:105-116 | dispatching one message extends an aggregate's messages by it exactly when it is correlated to that aggregate |
| MessageBusService.ByCommandAppendSeq | Services/MessageBus.php:85-96 | a command's messages in a concatenated log are its messages in each part, in order |
| MessageBusService.MessageBus.constructor | Services/MessageBus.php:21-24 | the log starts empty |
| MessageBusService.MessageBus.Dispatch | Services/MessageBus.php:31-34 | exactly one message is appended at the end |
| MessageBusService.MessageBus.Clear | Services/MessageBus.php:39-42 | the log is emptied |
| MessageBusService.MessageBus.GetMessages | Services/MessageBus.php:49-52 | every message in dispatch order; the log is not modified |
| MessageBusService.MessageBus.GetMessagesByCommand | Services/MessageBus.php:85-96 | the order-preserving subsequence correlated to the command (loop proved against `ByCommand`); the log is not modified |
| MessageBusService.MessageBus.GetMessagesByAggregate | Services/MessageBus.php:105-116 | the order-preserving subsequence correlated to the aggregate; the log is not modified |
| EventStoreService.BuildEvent | Services/EventStore.php:29-39 | the rebuilt event has the row's class, aggregate uuid, command uuid, version, user and payload |
| EventStoreService.Filter | Services/EventStore.php:111-128 | a row is in the result iff it is in the table and passes the test |
| EventStoreService.FilterCounts | Services/EventStore.php:111-128 | each passing row is kept as often as it occurs in the table, others not at all |
| EventStoreService.FilterAppend | Services/EventStore.php:111-128 | filtering distributes over concatenation (table order kept) |
| EventStoreService.FilterKeepsStreamUnique | Model/EventStreamObject.php:17-20 | a sub-table of a table unique on (version, uuid) is unique too |
| EventStoreService.FilterKeepsQueueUnique | Model/EventQueueObject.php:17-20 | a sub-table of a table unique on (version, uuid, user) is unique too |
| EventStoreService.Insert | Services/EventStore.php:129 | inserting into an ascending list keeps it ascending and adds exactly that row |
| EventStoreService.SortByVersion | Services/EventStore.php:129 | the result is ascending by version and a permutation of the input |
| EventStoreService.FindEventObjects | Services/EventStore.php:111-139 | ascending by version, and a row is returned iff it has the uuid, version at most max and at least min when given, and the user when given |
| EventStoreService.FindEventObjectsCounts | Services/EventStore.php:111-139 | every matching row is returned as often as it occurs in the table, and no other row |
| EventStoreService.FindAggregateRows | Services/EventStore.php:46-62 | exactly the version-1 rows, restricted to the class when one is given |
| EventStoreService.Flush | Services/EventStore.php:208-211 | the flush succeeds iff the staged changes applied in order keep both unique constraints; then the tables are the result, otherwise they are unchanged; consistency is preserved either way |
| EventStoreService.Discards | Services/EventStore.php:183-185 | one removal per found queue row, in order |
| EventStoreService.CommitDiscards | Services/EventStore.php:169-172 | writing the removals leaves the stream alone and the queue without exactly those rows, in order |
| EventStoreService.DiscardEffect | Services/EventStore.php:180-203 | discarding a user's queue rows of an aggregate from a version on always flushes and leaves exactly the other queue rows, in order |
| EventStoreService.DiscardQueuedKeepsOthers | Services/EventStore.php:180-187 | `discardQueued` removes exactly the user's rows of the aggregate; other users' and other aggregates' rows stay, the stream is untouched |
| EventStoreService.DiscardLatestQueuedRemovesFrom | Services/EventStore.php:196-203 | `discardLatestQueued` removes exactly the user's rows of the aggregate with version at least the given one |
| EventStoreService.EventStore.constructor | Services/EventStore.php:23-27 | empty tables, nothing staged, constraints hold |
| EventStoreService.EventStore.Find | Services/EventStore.php:73-76 | the stream query of `FindEventObjects` with no user |
| EventStoreService.EventStore.FindQueued | Services/EventStore.php:88-98 | the user's queue rows of the aggregate with the same filter and order, as stream rows |
| EventStoreService.EventStore.FindAggregates | Services/EventStore.php:46-62 | the version-1 rows of the stream for the class |
| EventStoreService.EventStore.Add | Services/EventStore.php:147-150 | a persist of the row is staged; the committed tables do not change |
| EventStoreService.EventStore.Queue | Services/EventStore.php:158-161 | a queue insert is staged; the committed tables do not change |
| EventStoreService.EventStore.Remove | Services/EventStore.php:169-172 | a queue removal is staged; the committed tables do not change |
| EventStoreService.EventStore.RemoveAll | Services/EventStore.php:183-185 | one removal per row is staged, in order; the tables do not change |
| EventStoreService.EventStore.Save | Services/EventStore.php:208-221 | never fails: the tables become `Flush` of the staged changes, nothing stays staged, and a failed flush adds one message correlated to nothing |
| EventStoreService.EventStore.DiscardQueued | Services/EventStore.php:180-187 | the tables become the flush of everything staged plus the removals of the found rows |
| EventStoreService.EventStore.DiscardLatestQueued | Services/EventStore.php:196-203 | as `DiscardQueued`, from the given version on |
| SnapshotStoreService.Latest | Services/SnapshotStore.php:35-54 | an eligible snapshot (the uuid, version at most the ceiling when given) of highest version; none iff no snapshot is eligible |
| SnapshotStoreService.SnapshotOf | Services/SnapshotStore.php:61-70 | the corrected record copies the aggregate's uuid, version, class, timestamps, history and the aggregate itself, with an empty payload; none when a timestamp is null |
| SnapshotStoreService.SaveSpec | Services/SnapshotStore.php:61-84 | a successful save appends exactly the aggregate's record; a failed one leaves the table; uniqueness is preserved |
| SnapshotStoreService.SavedSnapshotFound | Services/SnapshotStore.php:35-84 | after a successful save, `find` at the aggregate's version returns exactly that snapshot, and `find` without ceiling one at least as recent |
| SnapshotStoreService.SaveWithCalls | Services/SnapshotStore.php:61-84 | an undefined setter call aborts the save with an error naming it; a record with a NOT NULL column left null fails at the flush, leaving the table; otherwise the save is `SaveSpec` |
| SnapshotStoreService.SaveAsWrittenNeverStores | Services/SnapshotStore.php:70 | as written, `save` always ends in an error on `setAggregate`, even where the intended save stores a row |
| SnapshotStoreService.RenamedSaveStillFails | Services/SnapshotStore.php:63-84 | with only `setAggregate` renamed to `setAggregateData`, the payload column stays null and no save ever stores, even where the intended save does |
| SnapshotStoreService.IntendedSaveRuns | Services/SnapshotStore.php:63-84 | with `setAggregateData` and an empty payload, `save` is the intended `SaveSpec` |
| SnapshotStoreService.SnapshotStore.constructor | Services/SnapshotStore.php:21-25 | an empty table |
| SnapshotStoreService.SnapshotStore.Find | Services/SnapshotStore.php:35-54 | `find` is `Latest` over the table |
| SnapshotStoreService.SnapshotStore.Save | Services/SnapshotStore.php:61-84 | the corrected `save` (aggregate data and an empty payload set): the table becomes `SaveSpec`'s; a failure is not rethrown but logged once, correlated to the aggregate's uuid |
| HandlerKinds.Resolve | Services/CommandBus.php:185-200 | a handler class resolves iff it is the known handler class |
| HandlerKinds.HandlerOf | Services/AggregateFactory.php:213-228 | an event's handler class always resolves, to its handler |
| HandlerKinds.ValidateCommand | Tests/Examples/Handler/PageCreateHandler.php:48-71 | BAD_REQUEST iff the title is empty (checked first); CONFLICT iff titled and the aggregate's version is not 0; true iff titled and version 0; the error names the command |
| HandlerKinds.CreateEvent | Tests/Examples/Handler/PageCreateHandler.php:34-43 | the event's version is the target version plus one; aggregate uuid, command uuid, user and payload come from the command |
| HandlerKinds.Execute | Tests/Examples/Handler/PageCreateHandler.php:22-29 | the title becomes the payload's title; nothing else changes |
| HandlerKinds.ExecuteOn | Tests/Examples/Handler/PageCreateHandler.php:22-29 | the same aggregate object is returned, changed as `Execute` says |
| AggregateFactoryService.ApplySpec | Services/AggregateFactory.php:250-257 | the version becomes the event's, the event is appended at the end of pending, no other field changes |
| AggregateFactoryService.ExecuteAllEffect | Services/AggregateFactory.php:213-231 | running the handlers of a batch in order leaves the last event's title and keeps every other field |
| AggregateFactoryService.ApplyChangesSpec | Services/AggregateFactory.php:210-237 | pending is empty afterwards |
| AggregateFactoryService.ApplyChangesEffect | Services/AggregateFactory.php:210-237 | `applyChanges` empties pending and leaves the title of the last pending event; nothing else changes |
| AggregateFactoryService.Entries | Services/AggregateFactory.php:157-163 | one history entry per row, in order, with the row's user, version, message, time and payload |
| AggregateFactoryService.EventsOf | Services/AggregateFactory.php:152 | one rebuilt event per row, in order |
| AggregateFactoryService.MatchingAll | Services/AggregateFactory.php:138-140 | no row of the aggregate itself is skipped |
| AggregateFactoryService.StepFacts | Services/AggregateFactory.php:134-164 | one iteration: a row of another aggregate changes nothing; a matching row applies its event and adds exactly one history entry |
| AggregateFactoryService.ReplayKeeps | Services/AggregateFactory.php:134-164 | the replay loop never changes uuid, class, snapshot and stream versions or the title |
| AggregateFactoryService.ReplayHistory | Services/AggregateFactory.php:138-163 | each non-skipped row adds exactly one history entry, in input order |
| AggregateFactoryService.ReplayPending | Services/AggregateFactory.php:138-154 | each non-skipped row adds its event to pending, in input order |
| AggregateFactoryService.ReplayVersion | Services/AggregateFactory.php:138-154 | the version is that of the last non-skipped row, or unchanged when all are skipped |
| AggregateFactoryService.ReplayLog | Services/AggregateFactory.php:134-164 | history, pending and version after the loop, together |
| AggregateFactoryService.ReplayTimestamps | Services/AggregateFactory.php:142-150 | `created` is set only from the row at index 0 and only when still null; `modified` only from the row at the last index |
| AggregateFactoryService.LoadFromHistorySpec | Services/AggregateFactory.php:128-167 | pending is empty afterwards; uuid, class, snapshot and stream versions are kept |
| AggregateFactoryService.LoadFromHistoryOfMatchingRows | Services/AggregateFactory.php:128-167 | over rows of the aggregate: version is the last row's (bounding every row's when ascending), history grows by one entry per row, pending is empty, the title and `modified` are the last row's |
| AggregateFactoryService.LoadFromSnapshotSpec | Services/AggregateFactory.php:177-199 | version and snapshot version become the snapshot's; uuid, timestamps and history come from it; the title is overlaid only when both classes have it; class, pending and stream version are kept |
| AggregateFactoryService.CanonicalState | Services/AggregateFactory.php:76-90 | the canonical aggregate has the uuid and class asked for and no pending events |
| AggregateFactoryService.BuildSpec | Services/AggregateFactory.php:70-118 | never null: for an aggregate class no message and that class; otherwise a generic aggregate and exactly one error message correlated to the uuid; pending always empty |
| AggregateFactoryService.CanonicalRowsMatch | Services/AggregateFactory.php:80-87 | the stream query returns rows of the aggregate only, strictly above the snapshot when there is one |
| AggregateFactoryService.CanonicalVersion | Services/AggregateFactory.php:80-90 | the canonical version is the last replayed row's, else the snapshot's, else 0; it bounds every replayed row; the snapshot version is the snapshot's |
| AggregateFactoryService.CanonicalReplay | Services/AggregateFactory.php:87-90 | replaying ascending rows of the aggregate reaches the last row's version and keeps the snapshot version |
| AggregateFactoryService.BuildWatermark | Services/AggregateFactory.php:92-101 | `streamVersion` is the canonical version; without a user the version stays there; with one it rises exactly when queued rows above it exist, to the last one's |
| AggregateFactoryService.QueuedReplay | Services/AggregateFactory.php:95-101 | replaying a user's queued rows above the watermark leaves `streamVersion` and raises the version above it |
| AggregateFactoryService.LoadFromSnapshotWithCalls | Services/AggregateFactory.php:179-196 | an undefined getter aborts with an error naming it; otherwise the overlay is `LoadFromSnapshotSpec` |
| AggregateFactoryService.BuildWithCalls | Services/AggregateFactory.php:70-118 | `build` fails iff the class is an aggregate, a snapshot is found and a getter is undefined; otherwise it is `BuildSpec` |
| AggregateFactoryService.LoadFromSnapshotAsWrittenRaises | Services/AggregateFactory.php:179 | as written, `loadFromSnapshot` always ends in an error on `getAggregate` |
| AggregateFactoryService.BuildAsWrittenRaisesOnSnapshot | Services/AggregateFactory.php:80-83 | as written, `build` fails whenever a snapshot is found, although the intended build starts from it |
| AggregateFactoryService.IntendedBuildRuns | Services/AggregateFactory.php:70-118 | with `getAggregateData`, `build` is the intended `BuildSpec` |
| AggregateFactoryService.StatesOf | Services/AggregateFactory.php:46-58 | one state per aggregate |
| AggregateFactoryService.BuildEach | Services/AggregateFactory.php:46-58 | one built aggregate per row |
| AggregateFactoryService.BuildEachFacts | Services/AggregateFactory.php:52-54 | the i-th aggregate is built from the i-th row's uuid and class, with no ceiling and no user, and has no pending events |
| AggregateFactoryService.BuildEachStep | Services/AggregateFactory.php:52-54 | building one more row extends the states and the log by that row's build |
| AggregateFactoryService.AggregateFactory.constructor | Services/AggregateFactory.php:31-37 | the factory is wired to the given bus and stores |
| AggregateFactoryService.AggregateFactory.Apply | Services/AggregateFactory.php:250-257 | the same aggregate object is returned, changed as `ApplySpec` says |
| AggregateFactoryService.AggregateFactory.ApplyChanges | Services/AggregateFactory.php:210-237 | the loop leaves the aggregate as `ApplyChangesSpec` says |
| AggregateFactoryService.AggregateFactory.LoadFromHistory | Services/AggregateFactory.php:128-167 | the loop leaves the aggregate as `LoadFromHistorySpec` says |
| AggregateFactoryService.AggregateFactory.LoadFromSnapshot | Services/AggregateFactory.php:177-199 | the aggregate is overlaid as `LoadFromSnapshotSpec` says |
| AggregateFactoryService.AggregateFactory.LoadCanonical | Services/AggregateFactory.php:76-90 | a fresh aggregate in the canonical state |
| AggregateFactoryService.AggregateFactory.LoadQueued | Services/AggregateFactory.php:95-101 | the user's queued rows above the current version are replayed, or nothing changes when there are none |
| AggregateFactoryService.AggregateFactory.Build | Services/AggregateFactory.php:70-118 | a fresh aggregate in `BuildSpec`'s state, with `BuildSpec`'s messages logged |
| AggregateFactoryService.AggregateFactory.BuildRow | Services/AggregateFactory.php:52-54 | one loop iteration of `findAggregates` |
| AggregateFactoryService.AggregateFactory.BuildRows | Services/AggregateFactory.php:51-55 | one fresh aggregate per row, built as `BuildEach` says, with its messages logged |
| AggregateFactoryService.AggregateFactory.FindAggregates | Services/AggregateFactory.php:46-58 | one aggregate per version-1 row of the class, each built from that row's uuid and class |
| HandlerService.VersionConflict | Handler/Handler.php:120-128 | a CONFLICT message correlated to the command and the aggregate |
| HandlerService.InvalidCommand | Handler/Handler.php:155-164 | a BAD_REQUEST message correlated to the command and the aggregate |
| HandlerService.InvokeSpec | Handler/Handler.php:105-165 | an uncaught validation error, a logged message and an appended aggregate exclude each other |
| HandlerService.InvokeOutcomes | Handler/Handler.php:105-165 | the validation error escapes iff validation throws; one CONFLICT iff valid but the version differs; an aggregate is appended iff valid and the version matches, at the target version plus one with the created event pending; never "Invalid Command" |
| HandlerService.Handler.constructor | Handler/Handler.php:29-33 | the handler is wired to the given bus and factory |
| HandlerService.Handler.ExecuteHandler | Handler/Handler.php:72-76 | returns exactly what `execute` returns |
| HandlerService.Handler.GetAggregate | Handler/Handler.php:89-92 | the aggregate is built with the command's user and no ceiling |
| HandlerService.Handler.Decide | Handler/Handler.php:114-164 | the decision on a built aggregate: the caller's list is unchanged unless the applied aggregate is appended in place |
| HandlerService.Handler.Invoke | Handler/Handler.php:105-165 | `__invoke`: logs the build's and the decision's messages, appends a fresh aggregate iff `InvokeSpec` says so, otherwise leaves the caller's list |
| CommandBusService.NoneCorrelated | Services/CommandBus.php:230 | a log of messages correlated to no command has no message for the command |
| CommandBusService.VerdictIgnoresUncorrelated | Services/CommandBus.php:230-233 | messages correlated to no command never change a verdict |
| CommandBusService.VerdictOfParts | Services/CommandBus.php:230-233 | the verdict over the whole log is the verdict over the handling and publishing messages alone |
| CommandBusService.ValidationMessage | Services/CommandBus.php:109-119 | a caught validation exception becomes a message with its text and code, correlated to its command |
| CommandBusService.HandleSpec | Services/CommandBus.php:97-166 | every message is correlated to the command; an appended aggregate comes with no message |
| CommandBusService.PendingOf | Services/CommandBus.php:206-211 | the events gathered from the collected aggregates |
| CommandBusService.HandlerMissing | Services/CommandBus.php:214-227 | an ERROR InterfaceException message correlated to the command |
| CommandBusService.HandleOutcomes | Services/CommandBus.php:97-166 | an aggregate is collected iff the command is valid and the version matches, then with exactly the created event pending; otherwise a first message that is not OK and nothing to publish |
| CommandBusService.KeptVerdict | Services/CommandBus.php:134-143 | a valid command on the right version is accepted |
| CommandBusService.RefusedVerdict | Services/CommandBus.php:106-133 | an invalid command, or one on the wrong version, is refused |
| CommandBusService.OwnVerdict | Services/CommandBus.php:97-233 | accepted iff valid and the version matches |
| CommandBusService.HandledVerdict | Services/CommandBus.php:203-233 | the same with the build's and the store's messages around it |
| CommandBusService.DispatchAcceptedIff | Services/CommandBus.php:177-234 | `dispatch` accepts iff the aggregate built for the command validates it and has its target version, whatever the store and listeners do |
| CommandBusService.RefusalCode | Services/CommandBus.php:106-133 | a refused create's first message is BAD_REQUEST when the title is empty, else CONFLICT |
| CommandBusService.PageCreateAcceptedIff | Tests/Examples/Handler/PageCreateHandler.php:48-71 | a create is accepted iff titled, the page does not exist yet and the command targets version 0 |
| CommandBusService.CommandBus.constructor | Services/CommandBus.php:37-43 | the bus is wired; no aggregate collected |
| CommandBusService.CommandBus.HandleBuilt | Services/CommandBus.php:106-165 | the decision on a built aggregate, logged and collected as `HandleSpec` says |
| CommandBusService.CommandBus.HandleCommand | Services/CommandBus.php:97-166 | `handleCommand`: the build for the command's user, then `HandleSpec`, with a fresh aggregate collected when one is appended |
| CommandBusService.CommandBus.GatherPending | Services/CommandBus.php:206-211 | the concatenation of the collected aggregates' pending events, in collection order |
| CommandBusService.CommandBus.HandleAndPublish | Services/CommandBus.php:182-213 | the collected list is reset, the command handled, and exactly its events published |
| CommandBusService.CommandBus.Dispatch | Services/CommandBus.php:177-234 | a missing handler logs one ERROR message and changes nothing else; otherwise the whole log, tables and notifications; the result is the verdict of the log |
| CommandBusService.DispatchSpec | Services/CommandBus.php:177-234 | a handler class that does not resolve logs exactly one ERROR message and changes no table and no notification |
| CommandBusService.DispatchVerdict | Services/CommandBus.php:177-234 | `dispatch` accepts iff the handler resolves and the aggregate built for the command's user validates it and has its target version; store and listener faults never change that |
| CommandBusService.ExecuteUser | Services/CommandBus.php:69-73 | `execute` builds for the user iff queueing for a real user (not -1) |
| CommandBusService.ExecutedCommand | Services/CommandBus.php:75-81 | the dispatched command has the fresh uuid, the user, the aggregate uuid and the payload given, and no listener |
| CommandBusService.ExecuteTargetsHandledVersion | Services/CommandBus.php:68-83 | the command `execute` sends targets the version `handleCommand` finds iff the class is not an aggregate, `execute` built for the user, or the user has no queued rows above the canonical version |
| CommandBusService.ExecuteVerdict | Services/CommandBus.php:59-84 | `execute` accepts iff the handler resolves, the command validates and one of those three holds: a user with queued rows is refused when not queueing |
| CommandBusService.CommandBus.Execute | Services/CommandBus.php:59-84 | a non-command class is an error the caller receives, with nothing logged or stored; otherwise the aggregate is built for the user only when queueing, the command targets its version, and tables, notifications, log and verdict are `dispatch`'s for that command |
| EventBusService.StreamRowOf | Services/EventBus.php:46-56 | the stream row of an event rebuilds to that event, with the event's aggregate class and message |
| EventBusService.StreamRowsOf | Services/EventBus.php:44-59 | one stream row per event, in order |
| EventBusService.StagedChanges | Services/EventBus.php:61-69 | one staged change per event, in order |
| EventBusService.Persists | Services/EventBus.php:122-124 | one persist per row, in order |
| EventBusService.PublishMessage | Services/EventBus.php:65-79 | an OK message prefixed "Queued event: " or "Persisted event: ", correlated to the event's command and aggregate |
| EventBusService.PublishMessages | Services/EventBus.php:71-79 | one such message per event, in order |
| EventBusService.Reported | Services/EventBus.php:95-104 | a caught exception adds exactly one message correlated to nothing; none otherwise |
| EventBusService.DeliverFacts | Services/EventBus.php:189-196 | dispatch stops at the first listener exception: a prefix of the dispatches is delivered, all but the last without exception |
| EventBusService.DeliverStops | Services/EventBus.php:189-196 | once a listener throws, later dispatches are not made |
| EventBusService.DeliverSnoc | Services/EventBus.php:192-195 | one more dispatch after a quiet prefix |
| EventBusService.Listened | Services/EventBus.php:192-195 | every event is dispatched, in batch order |
| EventBusService.Updates | Services/EventBus.php:179-183 | one aggregate-updated notification per row, carrying its rebuilt event |
| EventBusService.KeyIndex | Services/EventBus.php:175 | the position of the uuid's entry in the dictionary, or none iff no entry has it |
| EventBusService.AssignEntries | Services/EventBus.php:175 | assigning a row keeps keys distinct and replaces only that uuid's entry |
| EventBusService.AssignCovers | Services/EventBus.php:174-176 | every uuid seen so far has an entry |
| EventBusService.LastRowsFacts | Services/EventBus.php:170-184 | one entry per distinct uuid of the batch, and it is the last row of that uuid |
| EventBusService.Enqueues | Services/EventBus.php:62-64 | one queue insert per row, in order |
| EventBusService.CommitPersists | Services/EventStore.php:147-150 | writing persists appends the rows to the stream |
| EventBusService.CommitEnqueues | Services/EventStore.php:158-161 | writing queue inserts appends the rows to the queue |
| EventBusService.PublishCommits | Services/EventBus.php:44-83 | the batch lands in the queue when queueing and in the stream otherwise, never both; each row rebuilds to its event |
| EventBusService.PublishQueuedSpec | Services/EventBus.php:115-165 | `publishQueued` keeps both constraints |
| EventBusService.PublishQueuedMoves | Services/EventBus.php:115-165 | when the rows fit and no listener throws: true, the rows appended to the stream and removed from the queue, one update per aggregate, nothing logged |
| EventBusService.PublishDispatchFacts | Services/EventBus.php:82-94 | every event goes to the listeners; aggregate updates follow only for a persisted batch and only when no listener threw |
| EventBusService.EventBus.constructor | Services/EventBus.php:25-30 | the bus is wired; nothing dispatched yet |
| EventBusService.EventBus.Notify | Services/EventBus.php:182 | one dispatch appended to the notifications |
| EventBusService.EventBus.DispatchAll | Services/EventBus.php:189-196 | the loop dispatches as `Deliver` says |
| EventBusService.EventBus.InvokeListeners | Services/EventBus.php:189-196 | every event dispatched in order, stopping at a listener exception |
| EventBusService.EventBus.SendAggregateUpdates | Services/EventBus.php:170-184 | one update per distinct aggregate, carrying its last row, stopping at a listener exception |
| EventBusService.EventBus.StageEvent | Services/EventBus.php:46-79 | one row staged to the queue or the stream, one OK message logged, the committed tables unchanged |
| EventBusService.EventBus.StageEvents | Services/EventBus.php:44-80 | the loop stages every event and logs its message, in order |
| EventBusService.EventBus.Publish | Services/EventBus.php:40-105 | the tables become the flush of the staged batch; the notifications and the log (OK messages, then a store message, then a listener message) are exactly those stated |
| EventBusService.EventBus.DispatchPublished | Services/EventBus.php:88-94 | the listeners, then the updates for a persisted batch |
| EventBusService.EventBus.PublishQueued | Services/EventBus.php:115-165 | result, tables, notifications and log are `PublishQueuedSpec`'s |
| EventBusService.EventBus.PersistQueued | Services/EventBus.php:117-127 | phase one: the rows are persisted and flushed, a failure logged |
| EventBusService.EventBus.RemoveQueued | Services/EventBus.php:145-150 | phase two: the rows are removed from the queue and flushed |
| EventBusService.EventBus.AddQueued | Services/EventBus.php:117-124 | each queued row, converted back, is staged for the stream |
| EventBusService.QueueRows | Services/EventBus.php:117-119 | the stream rows of the queued rows, in order |
| Scenarios.CreatePage | Tests/Examples/Command/PageCreateCommand.php:12-29 | a create-page command with the given uuid, payload and target version |
| Scenarios.EmptyStoreBuildsVersionZero | Services/AggregateFactory.php:70-101 | with nothing stored the page builds at version 0 |
| Scenarios.PersistedBuildsVersionOne | Services/AggregateFactory.php:70-101 | after the first create is persisted the page builds at version 1 |
| Scenarios.FirstCreateAccepted | Services/CommandBus.php:177-234 | the first titled create on empty stores is accepted and yields version 1 |
| Scenarios.SecondCreateConflicts | Services/CommandBus.php:177-234 | a second create is refused with a first message CONFLICT, whatever version it targets |
| Scenarios.UntitledCreateRefused | Services/CommandBus.php:177-234 | a create without title is refused with a first message BAD_REQUEST on any stores |

## Left out

- The Doctrine entity manager, Criteria queries and connections are replaced by in-memory tables and a staged change list. A flush fails only by breaking a unique constraint or, for a snapshot, a NOT NULL column. The source's entity manager is closed after a failed flush; the model keeps using it.
- JSON and PHP `serialize` encodings are not modelled: a column holds the value it was encoded from.
- The Symfony container lookup with the `new $class()` fallback is a total resolver over the known classes. The reflection overlay in `loadFromSnapshot` (`get_object_vars`/`property_exists`) is an overlay of the one public business property, `title`.
- The event dispatcher, its listeners and subscribers are outside the model. They appear as the `notifications` log and a constant function saying which dispatch throws.
- The clock and the uuid generator are parameters.
- `MessageBus::getMessagesJson` (debug rendering) is not modelled.
- The command-carried listener is stored and never invoked, as in the source.
- Interfaces/EventInterface.php and Event/Event.php (an event built from a command) are not part of this model; events have the AggregateEvent shape. The example event class Tests/Examples/Event/PageCreateEvent.php does not define `getCommandClass`, `getListenerClass`, `getCode` or `getCommand`, which Interfaces/EventInterface.php declares. Its inherited five-argument constructor (Event/AggregateEvent.php:26) also does not match the interface's `__construct(CommandInterface)`. So PHP refuses the class when it is loaded. That load failure is not modelled.
- Cross-request concurrency is out of scope; only the unique constraints are modelled.
- Code generation (Maker, skeleton templates), bundle and dependency-injection wiring, the HTTP controller and the test harness are not part of this model.
- The InterfaceException that `handleCommand` and `__invoke` raise when `createEvent` returns a non-event cannot happen in PHP: `createEvent` declares its return type as EventInterface. It is not modelled.
- HandlerService.Handler.Decide: the "Invalid Command" branch is unreachable with PageCreateHandler, whose `validateCommand` returns true or throws. The model asserts that, and `InvokeOutcomes` proves that message never appears.
- AggregateFactoryService.BuildSpec: the AggregateException source is not part of this model, so its code is taken as CODE_ERROR.
- EventBusService.LastRowsFacts: does not state the order in which the per-aggregate updates are sent (PHP array insertion order), only that there is one per aggregate, carrying its last row.
- CommandBusService.CommandBus.Execute: `execute` takes a nullable payload and user (Services/CommandBus.php:59), but a null for either is a TypeError when the command is constructed (Command/Command.php:55); the model takes them non-null.
- Values.Title: a payload is a map from strings to strings, so the PHP `empty()` test on a title that is not a string (0, false, an array, null) is not expressible; the model tests a missing title, "" and "0".
- SnapshotStoreService.SaveWithCalls: the nullable aggregate-data column is treated as required, because the snapshot row always carries the aggregate; a record that sets every NOT NULL column but no aggregate data is modelled as not stored, where the database would store it with null data.
- The only concrete aggregate, command, event and handler are the example Page classes. `Other(name)` stands for any other class name, whether or not a class has that name. Where constructing it would throw in PHP, the model does not follow the source; the `AggregateFactoryService.BuildSpec` and `CommandBusService.DispatchSpec` lines below say what it does instead. Otherwise such a class is refused where the source refuses it.
- AggregateFactoryService.BuildSpec: for `PageCreateCommandClass`, `PageCreateEventClass` or an `Other(name)` that names no class, `new $aggregateClass($uuid)` (Services/AggregateFactory.php:76) raises an `ArgumentCountError` or `Error`, which the `catch` for AggregateException (Services/AggregateFactory.php:107) does not handle, so `build` throws. The model instead returns the generic aggregate with one NotAnAggregate message, as for an existing non-aggregate class.
- CommandBusService.DispatchSpec: `HandlerKinds.Resolve` gives no handler for every class except `PageCreateHandlerClass`, and `dispatch` then logs `CommandBusService.HandlerMissing`, the InterfaceException message of Services/CommandBus.php:215, and returns false. In PHP that message appears only for a non-handler that the container serves. Otherwise `new $handlerClass()` (Services/CommandBus.php:197) is called with no arguments. For `Page` and `BaseAggregate` (Model/Aggregate.php:32), `PageCreateCommandClass` (Command/Command.php:55), `PageCreateEventClass` (Event/AggregateEvent.php:26), an `Other(name)` whose constructor needs arguments, and an `Other(name)` that names no class, this raises an `ArgumentCountError` or `Error`. The `catch (InterfaceException)` at Services/CommandBus.php:220 does not handle that, so `dispatch` throws.
- StreamObjects.StreamUnique, QueueObjects.QueueUnique, Snapshots.SnapshotUnique, EventStoreService.InRange and SnapshotStoreService.Eligible compare uuids as exact strings. The uuid columns use the `utf8_unicode_ci` collation (Model/EventStreamObject.php:32, Model/EventQueueObject.php:32, Model/Snapshot.php:35), so the database ignores case and trailing spaces both in the unique keys and in the `uuid` criteria of Services/EventStore.php:115 and Services/SnapshotStore.php:38. The model therefore assumes canonical uuids, each aggregate spelled one way. Under that assumption `build` never reaches the mismatched-uuid skip of Services/AggregateFactory.php:138. With two spellings the database would refuse a second version 1, and `find` would return the other spelling's rows; the model does neither.
- EventBusService.PublishQueuedSpec: after a failed, swallowed flush in the same request, PHP's entity manager is closed, so `EventStore::remove` (Services/EventStore.php:171, called at Services/EventBus.php:145-147) throws, `publishQueued` throws and the queue rows stay. The model keeps using the entity manager, so it removes the rows and can return true.
- The example command is modelled with static `getHandlerClass` and `getAggregateClass`, the shape that the interface (Interfaces/CommandInterface.php:25,32), the command skeleton (Resources/skeleton/Command.tpl.php:17,25) and the bus's static calls (Services/CommandBus.php:70,72,99,185) expect. Tests/Examples/Command/PageCreateCommand.php:17,25 declares them as instance methods, which PHP refuses when the class is loaded against the static interface declaration; that load failure is not modelled.

## Findings

| source | as written | input that shows it | evidently intended | confidence | as-written member | corrected member |
|---|---|---|---|---|---|---|
| Services/SnapshotStore.php:70 | `save` calls `setAggregate`, which `Snapshot` does not define. PHP raises an `Error` before the `try`, so no snapshot is ever stored and nothing is logged. | any aggregate, e.g. one with both timestamps set, on an empty table | `setAggregateData` (Model/Snapshot.php:201), together with the payload fix of the next row | high, not executed | SnapshotStoreService.SaveAsWrittenNeverStores | SnapshotStoreService.SnapshotStore.Save |
| Services/SnapshotStore.php:63-70 | `save` never sets the payload, which the constructor leaves null although its column is NOT NULL (Model/Snapshot.php:51-56). With `setAggregate` renamed to `setAggregateData` and nothing else changed, every flush still fails and is only logged, so no snapshot is stored. | the same aggregate with both timestamps set, on an empty table | an empty payload, `setPayload([])`, since the aggregate data replaces the payload | medium, not executed | SnapshotStoreService.RenamedSaveStillFails | SnapshotStoreService.IntendedSaveRuns |
| Services/AggregateFactory.php:179 | `loadFromSnapshot` calls `getAggregate`, which `Snapshot` does not define. The `Error` is not an AggregateException, so `build` lets it through whenever a snapshot is found. | any snapshot row at or below the ceiling for the uuid built | `getAggregateData` (Model/Snapshot.php:191) | high, not executed | AggregateFactoryService.BuildAsWrittenRaisesOnSnapshot | AggregateFactoryService.AggregateFactory.LoadFromSnapshot |

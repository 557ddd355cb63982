# go-event: a verified model

This project models the parts of the `go-event` library where correctness is subtle, and
proves what they promise, in Dafny 4.11:

* **The event store as an optimistic-concurrency log.** One JetStream stream is an
  append-only sequence of messages shared by many aggregates. `Execute` calls load
  (snapshot, then tail, message by message), mutate, count and publish, and other writers
  get in between any two of these steps. Snapshots are a cache that must agree with full
  replay; versions are stream sequences with gaps; retries must neither lose nor repeat a
  commit.
* **The subscription filter compiler.** Handler registrations become filter specs, compacted
  specs, NATS subject patterns, compacted patterns, for queues possibly one `>` pattern,
  and are followed by a re-check in the client and the dispatch to handlers. Nothing may be
  lost or added on the way, and map iteration order must not matter.
* **Bus lifecycle and delivery.** `Connect` and `Disconnect` under a mutex, the caught-up
  barrier, cursor resume across crashes, queue redelivery with escalation, and the backoff
  between attempts.

`dafny verify dfyconfig.toml` checks everything.

## Modules

| file | content |
|---|---|
| `EventLog.dfy` | the log, full replay, snapshots, counting, the server's publish operations |
| `ExecuteProtocol.dfy` | any number of `Execute` calls as an interleaving state machine |
| `EventStore.dfy` | `Load`, `Save`, `Execute` as imperative code against a stream that others write to and a network that loses messages |
| `CommandRetry.dfy` | the bus's conflict retry around one `Execute` |
| `EventReader.dfy` | the typed `Stream` and the fold over it |
| `StoreAgreement.dfy` | `Load` and `Stream` on one log; `Execute` as a step of the protocol |
| `SnapshotLimits.dfy` | counterexamples: what goes wrong without the assumptions of the snapshot results |
| `Subjects.dfy` | tokens, subjects, parsing, NATS pattern matching |
| `Compaction.dfy` | de-duplicate, drop covered, sort: for any covering order |
| `Filters.dfy`, `NatsFilters.dfy` | the two compactions, the pattern compiler, the queue collapse, the client re-check, the testkit's reference matcher |
| `BusDispatch.dfy` | grouping and dispatch of one group |
| `BusDelivery.dfy` | consumers on the server's streams, and the end-to-end result |
| `Registry.dfy` | the type registry |
| `CatchUp.dfy` | one consume session: backlog, arrivals, pending counts, handlers, the caught-up signal |
| `BusLifecycle.dfy` | `Connect`, `Disconnect` and the caught-up barrier as a state machine |
| `Cursor.dfy`, `CursorResume.dfy` | cursors and resuming across crashes |
| `QueueRedelivery.dfy` | redelivery and escalation on queue consumers |
| `Int64.dfy`, `Backoff.dfy` | 64-bit arithmetic and the backoff between attempts |
| `Wrappers.dfy` | `Option` |

## Assumptions

* The log is never purged. A stream holds fewer than 2^64 - 1 messages.
* JetStream keeps its contract: a publish with an expected last sequence for a subject
  filter is a compare-and-set; a batch becomes visible at once when its committing message is
  accepted, or not at all; consumers deliver matching messages in order, each with the number
  still pending; get-last may be served by a lagging replica, so in
  `ExecuteProtocol.dfy` a load may start from any snapshot of the aggregate or from none; in
  `EventStore.dfy` it finds the latest one there is at that moment.
* Saved events have kind `event`, on which the compare-and-set filter is fixed
  (`nats/subjects.go:26-28`), and types listed in `EventTypes`; `mutate` leaves the aggregate
  alone and `newAggregate` returns a new value of a fixed identity; event payloads survive
  encoding; snapshots are explicit ones whose `Apply` restores the snapshotted state and
  whose name no domain event uses. `SnapshotLimits.dfy` says for the type list, for `mutate`
  and for explicit snapshots exactly when the results hold without them.
* An event's payload has the identity of the subject it was published on. It is stored in the
  stream named after its scope and aggregate type; how names are formed is a parameter.
* The server accepts every compacted list of filters for a consumer, although two patterns that
  do not cover each other may still overlap (`s.event.t.a.*` and `s.event.t.*.x`).
* A stopped session handles no further message, buffered ones included; the results about
  resuming from a cursor rest on it.
* The context's cancellation, timers and random draws are inputs.

## Findings

Where the code and its documentation differ, the model follows the code.

* A snapshot is published in the same batch as the events that made it due
  (`nats/event_store.go:83-91`), not afterwards as the repository's `README.md:260-263` says.
* An implicit snapshot restores nothing: the stored value nests the aggregate under
  `AggregateRef` (`nats/event_store.go:374-394`) while the load decodes it straight into the
  aggregate (`nats/event_store.go:251-261`). `SnapshotLimits.ImplicitSnapshotRestoresIff`
  states exactly when the outcome is right nevertheless.
* `Stream` with default options starts after the latest snapshot without yielding it, so
  folding it from a fresh aggregate forgets what the snapshot stands for
  (`EventReader.TailAloneForgets`); `EventReader.FoldIsReplayIff` says for which options the
  fold is the replay.
* A `Disconnect` that overlaps `Connect` can leave a command or query subscription running
  for ever (`BusLifecycle.OverlapLeaksCommand`); `BusLifecycle.ClosedBusStopsEverything` says
  which ones.
* Every queue group of a bus subscribes with a durable consumer named after the queue
  (`bus.go:476-484`, `nats/subscriber.go:125-157`). If the streams of two groups have the same
  name, as with scope `a_b`, type `c` and scope `a`, type `b_c` under the default pattern, they
  share that consumer, the group that starts last overwrites its filters, and the other misses
  its events (`BusDelivery.DefaultNamesLoseEvents`). `BusDelivery.QueuesExactIff`: this is the
  only way for queue handlers to miss events or to get others'.
* Without an `OnSubscriptionError` hook an ordered handler's error is logged and the cursor
  moves on past the failed event; `CursorResume.ResumeIsCompleteIff` gives the exact settings
  under which every event up to the cursor was handled.
* `MaxRetries` equal to the largest integer overflows into unlimited deliveries
  (`QueueRedelivery.DeliveriesBoundedIff`); the backoff overflows exactly when the doubling
  of the last attempt does (`Backoff.NeverOverflowsIff`), which a `BaseDelay` of 2^33 ns does
  with 31 attempts or more and not with the default ten (`Backoff.SafeBaseDelayIff`,
  `Backoff.DefaultAttemptsAreSafeThere`); a negative `CommandConflictRetries` acknowledges
  commands without ever calling their handler (`CommandRetry.HandleCommand`).
* `subjectFilterCovers` takes `*` to cover `>`, which is wrong, but the compiler never feeds it
  an open-ended pattern (`NatsFilters.CoveringSoundIff`, `NatsFilters.RawPatternsExact`).

## Model

| member | source | states |
|---|---|---|
| `ExecuteProtocol.RunsAreSerial` | execute.go:59-86 | in every interleaving of any number of calls the log is, at every moment, cut into whole, contiguous, ordered saves (snapshot last), each an output of its `mutate` on the full replay of everything committed before it: no lost update, no partial save |
| `ExecuteProtocol.SavesAreWritten` | nats/event_store.go:83-91 | each committed save is in the log as its events in order, and a snapshot that belongs to it right after them, of the state they lead to |
| `ExecuteProtocol.LoadsReturnFullReplay` | nats/event_store.go:94-127 | in every run a finished load holds exactly the full replay up to its version, whichever snapshot it started from and whatever landed in between; the version is 0 or one of the aggregate's own messages, and not before any that was there when the load began |
| `ExecuteProtocol.LoadsMissNothing` | nats/read.go:178-217 | if a load began at one point of a run and has returned at a later one, its version covers every message of the aggregate that was in the log when it began |
| `ExecuteProtocol.LoadsStartAfterSnapshot` | nats/read.go:70-97 | a load that was served a snapshot never reads a message up to it, and returns at least its version |
| `ExecuteProtocol.RunSnapshotsAgree` | nats/event_store.go:281-309 | every snapshot in every reachable log equals the full replay of what precedes it |
| `ExecuteProtocol.CallsCommitAtMostOnce` | execute.go:59-90 | with any retries of `Execute` and the bus and any lost acknowledgements a call commits at most once, exactly once if it reports success, never if it saw only conflicts or had nothing to save, within retries times attempts saves |
| `ExecuteProtocol.GivesUpOnlyAtTheEnd` | execute.go:59-90 | a call reports a conflict only after the last attempt of its last try, and then made all its saves unless `mutate` itself reported conflicts; nothing to save is what `mutate` said for a replay |
| `ExecuteProtocol.FaultlessRunsNeverFail` | nats/event_store.go:178-218 | without a fault of the network, of marshalling or of `mutate`, no call ends in an error that is no conflict |
| `ExecuteProtocol.ErrorsAreNotRetried` | execute.go:75-83 | an error that is no conflict, or a lost acknowledgement, ends the call for good |
| `ExecuteProtocol.NeverStuck` | execute.go:59-90 | in every reachable state a call that is not finished has a step to take |
| `ExecuteProtocol.TailsStayShort` | nats/event_store.go:281-342 | with one `SnapshotEvery` N > 0 for all writers, fewer than N messages of an aggregate follow its latest snapshot in every reachable log, although the count is taken in separate steps and may be stale |
| `ExecuteProtocol.SnapshotsAreDue` | nats/event_store.go:298-304 | no snapshot comes early: at least `SnapshotEvery` messages of the aggregate lie between some earlier snapshot, or the beginning, and it |
| `ExecuteProtocol.SnapshotsOnTime` | nats/event_store.go:281-342 | with lookups that find the latest snapshot, a committed save carries one if and only if its events and the messages since the latest snapshot reach `SnapshotEvery` |
| `ExecuteProtocol.StepKeepsInv` | nats/event_store.go:71-127 | one step of one call keeps the invariant of all calls, the server's staging and the history |
| `ExecuteProtocol.RunKeepsInv` | execute.go:59-90 | the invariant holds in every reachable state |
| `ExecuteProtocol.AckIsSerialCommit` | nats/event_store.go:178-218 | an acknowledged last message appended the whole save, and that save is what the call would have written had it run alone |
| `ExecuteProtocol.PhaseStable` | nats/event_store.go:94-127 | what a call knows of the log stays true when others append |
| `ExecuteProtocol.CommitKeepsTailShort` | nats/event_store.go:311-331 | one save with its snapshot decision keeps every aggregate's tail below `SnapshotEvery` |
| `EventLog.BatchKeepsAgreement` | nats/event_store.go:83-91 | a save whose snapshot applies its events to the full replay keeps all snapshots in agreement |
| `EventLog.ReadNextExtendsReplay` | nats/read.go:178-217 | applying the aggregate's next message, event or snapshot, extends the replay exactly up to it |
| `EventLog.CurrentVersionIsFullReplay` | nats/event_store.go:159-176 | a version that is still the aggregate's last goes with the replay of the whole log, messages of others included |
| `EventLog.SnapshotIsReplay` | nats/read.go:70-97 | starting from any snapshot of an agreeing log is starting from the replay up to it |
| `EventLog.StaleCountIsNoLess` | nats/event_store.go:311-342 | counting from an older snapshot never undercounts |
| `EventLog.ReplayAppendEvents` | nats/event_store.go:305-307 | replay of appended registered events is `Apply` of each in turn |
| `EventStore.Store.ApplyOne` | nats/event_store.go:241-272 | snapshots replace the state, registered events apply, unregistered ones are skipped, corrupt ones are errors that leave the state |
| `EventStore.Store.StartSeqAfterSnapshot` | nats/read.go:70-97 | returns the sequence after the latest snapshot, or 0 without one or with the fast path off; the state is the full replay before it; fails only if the lookup fails |
| `EventStore.Store.ReadTail` | nats/read.go:178-217 | reads until none is pending under interference; state and version are a full replay, and nothing present at the start is missed; fails only on a failing request, an ended context or a corrupt event |
| `EventStore.Store.Load` | nats/event_store.go:94-127 | the full replay up to the returned version, at least everything present when the call began; fails only on a failing request, an ended context or an undecodable event of the aggregate; writes nothing |
| `EventStore.Store.ValidateEvents` | nats/event_store.go:412-425 | accepts exactly the events of this aggregate with valid subjects, and reports the first offender |
| `EventStore.Store.SnapshotForSave` | nats/event_store.go:281-342 | a snapshot is due exactly when `SnapshotEvery` is positive and at most the messages since the latest snapshot seen plus the new events; then the aggregate holds the state after the events; a failing lookup, count or `TakeSnapshot` is an error |
| `EventStore.Store.PublishBatch` | nats/event_store.go:178-218 | all messages contiguous and in order on the expected version, or none, also when marshalling or a request fails midway; a conflict means none, and only a lost reply leaves doubt; without network faults a publish never fails otherwise |
| `EventStore.Store.PublishSingle` | nats/event_store.go:159-176 | the same for a single message |
| `EventStore.Store.Save` | nats/event_store.go:71-92 | events and due snapshot land together or not at all, on the expected version; the snapshot is there exactly when the events and the messages since the latest snapshot of the log they landed on reach `SnapshotEvery`; a conflict means that the version is not the last and nothing landed, and every other error has its cause |
| `EventStore.Store.Execute` | execute.go:33-91 | writes at most one batch, which is `mutate`'s output on the full replay of the log it landed on; gives up on conflicts after exactly `MaxAttempts` attempts, one if that is below 1, and only if others wrote to the aggregate; success means it landed, nothing to save means `mutate` said so, every error has its cause, and no attempt is made after the context ended |
| `EventStore.Store.Attempt` | execute.go:67-86 | one attempt, with the same guarantees |
| `StoreAgreement.ExecuteIsSerial` | execute.go:59-86 | what `Execute` guarantees of a batch that landed extends any serial history of the protocol by one commit |
| `CommandRetry.HandleCommand` | bus.go:626-641 | around one `Execute`: at most one batch within retries times `MaxAttempts` saves; success means that a batch landed or `mutate` had nothing to save; an error is that of an `Execute` with its cause, a conflict error only after all retries with nothing landed; a negative count touches nothing and reports success |
| `EventReader.StreamTyped` | nats/read.go:308-370 | the consumer sees a prefix of the stream up to the first request that fails, misses nothing before it stops, and is never called again after it said stop or after an error |
| `EventReader.StreamUntilCuts` | nats/read.go:308-370 | a failing request cuts the stream short with one error, and without one the stream is whole |
| `EventReader.FailureEndsStream` | nats/read.go:308-370 | the first failing request, of the lookups, the consumer or the n-th message, ends the stream at that very place with an error |
| `EventReader.StreamIsOrdered` | nats/read.go:219-254 | versions strictly increase and an error is the last item |
| `EventReader.StreamHolds` | nats/read.go:219-254 | the stream holds exactly the aggregate's messages with their sequences from the start on, snapshots only if wanted, events only of registered types, up to the first that does not decode, and an error exactly if there is one |
| `EventReader.FoldedStreamIsReplay` | nats/read.go:308-370 | folding `Apply` over the stream from a fresh aggregate gives the full replay, with the fast path off, with snapshot records, or without a snapshot |
| `EventReader.FoldIsReplayIff` | reader.go:41-52 | the fold is the replay on all logs exactly for the options with the fast path off or snapshot records included |
| `EventReader.StreamAgreesWithLoad` | reader.go:61-83 | on a still log the folded stream and `Load` give the same state, and the version is the aggregate's last |
| `StoreAgreement.LoadAndStream` | nats/event_store.go:94-127 | loading and streaming a still log: the version is the last, the state the replay, and the fold of what was yielded is that state, with or without the fast path on either side |
| `EventReader.TailStreamContinuesSnapshot` | nats/read.go:308-370 | without snapshot records the stream continues from the snapshotted state |
| `EventReader.TailAloneForgets` | reader.go:41-52 | for every event that decodes, a log on which the default stream folded from scratch stays at the initial state |
| `SnapshotLimits.ImplicitSnapshotRestoresNothing` | nats/event_store.go:374-394 | decoding an implicit snapshot leaves every field as it was, fields of any type, unless a field has the wrapper's name |
| `SnapshotLimits.ImplicitSnapshotRestoresIff` | nats/event_store.go:251-261 | it yields the saved state exactly when all fields already had their values, fields with the wrapper's name aside |
| `SnapshotLimits.PlainEncodingRestores` | README.md:272-275 | encoding the aggregate itself would restore it |
| `SnapshotLimits.UnregisteredEventBreaksAgreement` | nats/event_store.go:263-268 | for every event of an unregistered type that changes the initial state, saving it with a snapshot breaks agreement |
| `SnapshotLimits.RegisteredIff` | nats/event_store.go:263-268 | an event that changes the initial state can be saved with a snapshot on all agreeing logs exactly when its type is registered |
| `SnapshotLimits.MutatingAggregateAgreesIff` | nats/event_store.go:305-307 | a `mutate` that applies its own events makes the snapshot right exactly when applying them twice is applying them once |
| `SnapshotLimits.SavedStateIff` | nats/event_store.go:281-309 | a save from any state agrees exactly when the events lead from there to where they lead from the replay |
| `SnapshotLimits.MutatingCounterBreaksAgreement` | nats/event_store.go:305-307 | a counter for which it is wrong |
| `Subjects.ValidateToken` | subject.go:99-109 | accepts exactly the valid tokens, else reports emptiness or the first reserved character |
| `Subjects.ReservedAscii` | subject.go:99-109 | among ASCII exactly the control characters, the space and `.`, `*`, `>`, `/`, `\` are reserved |
| `Subjects.ParsePrinted` | subject.go:68-97 | parsing a printed subject succeeds exactly when it is valid, and returns it |
| `Subjects.PrintParsed` | nats/subjects.go:181-194 | every string that parses prints back to itself |
| `Subjects.AggregateFilterExact` | nats/subjects.go:26-28 | the compare-and-set filter matches exactly that aggregate's event-kind subjects |
| `Subjects.SnapshotSuffixIsNameEquality` | nats/event_store.go:250 | on valid subjects the suffix test for snapshots is equality of the name token |
| `Compaction.Compact` | bus.go:726-762 | the result is strictly sorted and holds exactly the filters not covered by another one |
| `Compaction.CompactionIsCanonical` | nats/subjects.go:137-165 | any order and repetition of the same filters gives the identical result |
| `Compaction.KeptCoverer` | bus.go:736-751 | every filter is covered by a kept one (maximal element of an antisymmetric order) |
| `Compaction.CompactionExists` | bus.go:726-762 | every finite set of filters has a compaction |
| `Compaction.CompactionKeepsAcceptance` | bus.go:736-751 | for any test that covering respects, the compacted filters accept exactly what all did |
| `Filters.CompactEventFilterSpecs` | bus.go:726-762 | spec compaction is a compaction in that sense, ordered by kind, then id, then name |
| `Filters.SpecOrder` | bus.go:753-768 | spec covering is a partial order and the sort order a strict total one |
| `Filters.StringLessIff` | bus.go:753-762 | the order of strings is the dictionary order by code points |
| `Filters.SpecCompactionExact` | bus.go:726-768 | compacted specs accept exactly the same subjects |
| `Filters.SpecCompactionIrredundant` | bus.go:726-768 | dropping any compacted spec loses a subject, valid if its tokens are: a fresh-token witness |
| `NatsFilters.CompactSubjectFilters` | nats/subjects.go:137-165 | pattern compaction is a compaction in that sense |
| `NatsFilters.PatternCompactionExact` | nats/subjects.go:147-179 | compacted patterns match exactly the same subjects, unless an open-ended pattern is covered by one that is not |
| `NatsFilters.CoveringSoundIff` | nats/subjects.go:167-179 | covering implies matching for all subjects exactly when it does not put an open-ended pattern under one that is not |
| `NatsFilters.OpenPatternIsLost` | nats/subjects.go:167-179 | a concrete pair and subject for which covering is wrong |
| `NatsFilters.EventFilterSubjects` | nats/subjects.go:76-99 | the nested loops produce exactly the patterns of some filter, id and name |
| `NatsFilters.EventFilters` | nats/subjects.go:47-74 | the compaction of the config's patterns; the server delivers by them exactly what the testkit matcher accepts |
| `NatsFilters.RawPatternsExact` | nats/subjects.go:47-99 | the uncompacted patterns match exactly the reference's subjects, and none is open-ended |
| `NatsFilters.SubscriptionSubjectMatches` | nats/subscriber.go:387-418 | the client re-check, both branches |
| `NatsFilters.MissingKindMeansEvent` | testkit/stub.go:153-199 | a config or filter without a kind accepts what it would with kind `event` |
| `NatsFilters.OrderedAgreesWithReference` | testkit/stub.go:153-199 | ordered: what is delivered and what is handled are both exactly what the testkit matcher accepts |
| `NatsFilters.AggregateInstanceQueueScope` | nats/subscriber.go:192-227 | finds the one kind and id the config is about exactly when there is one |
| `NatsFilters.QueueConsumerFilters` | nats/subscriber.go:167-190 | the compacted patterns, or one open pattern for several about one instance; with the re-check exactly what the testkit matcher accepts is handled |
| `NatsFilters.CollapsedDelivers` | nats/subscriber.go:178-190 | the open pattern delivers exactly that instance's subjects |
| `NatsFilters.QueueAgreesWithReference` | nats/subscriber.go:332-335 | queue, collapsed or not: what is handled is exactly what the testkit matcher accepts |
| `BusDispatch.HandlerSpecs` | bus.go:700-715 | the specs of one handler: one for each listed id, or one for all ids |
| `BusDispatch.GroupEventFilters` | bus.go:700-724 | a group's filters are the compaction of its handlers' specs |
| `BusDispatch.StartGroup` | bus.go:471-487 | compiles a group to the config and patterns of its subscription, and refuses exactly if the scope, the type or a compacted spec is invalid |
| `BusDispatch.GroupStartsIff` | pubsub.go:102-163 | a subscription of the group exists exactly when scope, type and the specs left after compaction are valid |
| `BusDispatch.DispatchEventGroup` | bus.go:501-525 | calls exactly the handlers whose tests pass, also after failures, and fails iff one failed |
| `BusDispatch.GroupDispatchIsExact` | bus.go:419-498 | a handler of a subscribed group is called exactly for the events it registered for |
| `BusDispatch.HandledHasHandler` | nats/subscriber.go:352-418 | every event past the re-check is asked for, by kind and name, by a handler of the group |
| `BusDispatch.Bus.AddOrderedHandler` | bus.go:390-401 | files the registration in its group, keeps all others, refuses on a running or closed bus |
| `BusDispatch.Bus.AddQueueHandler` | bus.go:403-417 | the same for queue groups, refused without a queue |
| `BusDelivery.EndToEnd` | bus.go:390-525 | for registrations with valid tokens and queue groups that share no stream, in any order of starts and whichever session takes the event, a handler is invoked if and only if scope, type, kind, given name and given ids agree; it has one handler in one group, so one delivery invokes it once |
| `BusDelivery.QueuesExactIff` | nats/subscriber.go:125-165 | queue handlers are invoked exactly for their events, for all orders of starts, takers and events, exactly when no two queue groups share a stream name |
| `BusDelivery.SharedStreamLoses` | nats/subscriber.go:155-159 | if two groups share a stream, the one that starts first loses an event it wants |
| `BusDelivery.DefaultNamesLoseEvents` | nats/subjects.go:13-24 | two registrations with valid tokens for which the default stream names do this |
| `BusDelivery.OrderedReachedIff` | bus.go:419-469 | ordered handlers are reached exactly by their events, whatever the stream names |
| `BusDelivery.DeliveredInScope` | nats/subscriber.go:167-190 | a queue consumer delivers only events of the scope and type of the group that wrote it |
| `BusDispatch.OnePlaceEach` | bus.go:390-417 | each registration has exactly one handler, in exactly one group |
| `Registry.TypeRegistry.RegisterEvent` | registry.go:84-96 | accepts a valid new key or the same type again, refuses a different type, and changes nothing otherwise |
| `Registry.TypeRegistry.NewEvent` | registry.go:112-124 | exact key first, then the empty name |
| `Registry.ResolveIsFirst` | registry.go:112-124 | after any registrations an event resolves to the first valid one under its name, else to the first under no name, else to nothing |
| `Registry.FirstTypeWins` | registry.go:188-198 | after any registrations a key has the type of its first valid one |
| `Registry.AcceptedIff` | registry.go:188-200 | a registration is accepted exactly when its key is valid and the first valid one of that key, if any, was of the same type |
| `Registry.ValidKeyMakesSubjects` | registry.go:202-216 | a key is valid exactly when it makes valid subjects |
| `Registry.BindingsAreForever` | registry.go:188-198 | later registrations never rebind |
| `Registry.AcceptedStays` | registry.go:84-96 | an accepted registration is in force after any later ones |
| `Registry.WantedEventsResolve` | bus.go:270-289 | once a handler's type was accepted at any point of the registrations, every event it wants resolves in the end, to that type exactly unless the handler is nameless and the first valid registration under the event's own name was of another type |
| `Registry.AdmittedEventsResolve` | nats/subscriber.go:352-371 | if every handler of a group had its type accepted at some point, every event the subscription admits resolves in the end to a registered type |
| `Registry.NamedTypeShadowsNameless` | registry.go:112-124 | the exception happens |
| `BusLifecycle.StepKeepsInv` | bus.go:100-206 | one step of any call or session keeps the invariant |
| `BusLifecycle.RunKeepsInv` | bus.go:100-206 | every reachable state satisfies it |
| `BusLifecycle.ConnectStartsEverything` | bus.go:121-155 | if the bus is running and the `Connect` that started it has returned, every registration has its subscription, stored and not stopped |
| `BusLifecycle.StartOrder` | bus.go:136-153 | commands are subscribed before queries and both before queue groups |
| `BusLifecycle.CallTakesEffect` | bus.go:100-165 | a `Connect` past its lock leaves the bus running, or found it running or closed; a `Disconnect` past its lock leaves it closed |
| `BusLifecycle.NeverStuck` | bus.go:100-206 | no call is ever stuck, except that `Connect` waits at the barrier for a signal or the end of its context |
| `BusLifecycle.WaitingConnectIsReleased` | bus.go:128-135 | once a `Disconnect` is done, a `Connect` at the barrier can give up |
| `BusLifecycle.SendsNeverBlock` | bus.go:121-121 | signals sent and received never exceed the channel's capacity, so no session blocks on it |
| `BusLifecycle.BarrierHolds` | bus.go:121-153 | whenever a command, query or queue subscription exists, every ordered group is subscribed, its handlers have returned from all messages that were in the stream when it subscribed, and it has signalled exactly once |
| `BusLifecycle.BarrierOpens` | bus.go:128-135 | once all sessions have handled what has arrived, a waiting `Connect` has a signal to receive |
| `BusLifecycle.SignalMeansBacklogHandled` | nats/subscriber.go:310-318 | in every run a session has signalled at most once, and only after its whole backlog was handled |
| `CatchUp.HandledKeepsSession` | nats/subscriber.go:310-318 | a handler returning, with the signal it may cause, keeps: a message sent with none pending has the whole backlog before it |
| `CatchUp.OpenedIsRight` | nats/subscriber.go:238-240 | a session that signals at once has no backlog |
| `CatchUp.DrainedHasSignalled` | nats/subscriber.go:316-318 | an ordered session that has handled everything has signalled |
| `BusLifecycle.ClosedBusStopsEverything` | bus.go:157-206 | on a closed bus with all calls returned every subscription was stopped exactly once, except, exactly, those stored after closing: never stopped, still held, and only for commands or queries |
| `BusLifecycle.NoOverlapStopsEverything` | bus.go:574-600 | if `Connect` was over before the close, all were stopped exactly once |
| `BusLifecycle.OverlapLeaksCommand` | bus.go:574-586 | a run that leaves a command subscription unstopped |
| `BusLifecycle.DoneClosesOnce` | bus.go:664-676 | `done` closes at most once with at most one error, and has closed once all calls on a closed bus have returned |
| `BusLifecycle.DoneCarriesTheError` | bus.go:664-676 | `done` carries an error only if there was one, and does if a stop failed or an error was recorded before it closed |
| `BusLifecycle.FatalErrorReachesDone` | bus.go:656-661 | a fatal subscription error reaches `done` unless it had closed before |
| `BusLifecycle.ClosedForeverAndFrozen` | bus.go:219-226 | closed is absorbing, and registrations are frozen from the first `Connect` or `Disconnect` on |
| `BusLifecycle.StoreKeepsOwnership` | bus.go:461-468 | storing a subscription keeps each one in exactly one place: in hand, held, to be stopped, or stopped |
| `BusLifecycle.CloseKeepsOwnership` | bus.go:157-190 | so does collecting them for stopping |
| `Cursor.CursorFromSeq` | nats/cursor.go:5-9 | fills eight bytes that decode to the sequence, for every 64-bit sequence |
| `Cursor.CursorRoundTrip` | nats/cursor.go:5-16 | encoding then decoding is the identity |
| `Cursor.CursorBytesRoundTrip` | nats/cursor.go:11-16 | decoding then encoding is the identity on eight bytes |
| `Cursor.FirstByteIsMostSignificant` | nats/cursor.go:5-9 | the bytes are big-endian: the first one has the greatest weight |
| `CursorResume.CursorsIncrease` | bus.go:424-443 | across crashes, failed saves and restarts cursors strictly increase, each belongs to an event whose handlers all succeeded, the store holds the latest, and no session is back at or before it |
| `CursorResume.ErrorsFollowTheHook` | nats/subscriber.go:456-484 | after a failed handler or a failed save of the cursor a session ends if the hook says stop, and goes on to the next message otherwise |
| `CursorResume.NothingMissedSilently` | nats/subscriber.go:107-114 | with boot policy All every wanted event up to the cursor was handled, or failed and the error hook let the session go on |
| `CursorResume.ResumeIsCompleteIff` | bus.go:643-662 | in all runs everything up to the cursor was handled successfully, exactly for boot policy All with a hook that stops on every error |
| `QueueRedelivery.EscalationIsExact` | nats/subscriber.go:456-484 | a delivery is escalated exactly when its handler failed beyond the retries, each once; never for negative `MaxRetries` |
| `QueueRedelivery.AtMostRetriesPlusOne` | nats/subscriber.go:133-152 | at most n + 1 deliveries; one escalation exactly if delivery n + 1 fails, else none |
| `QueueRedelivery.AllRetriesThenEscalation` | nats/subscriber.go:133-152 | a handler that always fails gets all n + 1 deliveries and is then escalated once |
| `QueueRedelivery.AckedIsFinal` | nats/subscriber.go:437-444 | an acknowledged message is never delivered again |
| `QueueRedelivery.DeliveriesBoundedIff` | nats/subscriber.go:147-152 | deliveries are bounded exactly for 0 <= n < 2^63 - 1 |
| `Backoff.Normalise` | execute.go:48-56 | each option is kept if it makes sense, and otherwise replaced: attempts below 1 by 1, a base delay of 0 or less by 10 ms, a maximum below the base by the base |
| `Backoff.NeverOverflowsIff` | execute.go:48-94 | no attempt below `MaxAttempts` overflows exactly when the doubling of the last one stays below 2^63 |
| `Backoff.SafeBaseDelayIff` | execute.go:93-94 | a base delay is safe for every `MaxAttempts` exactly when it is below 2^33 ns |
| `Backoff.WaitBounds` | execute.go:93-97 | without overflow every wait is in [0, min(base * 2^min(attempt, 30), max)), and the cap never shrinks |
| `Backoff.EveryWaitPossible` | execute.go:95-97 | and every value in that range can be drawn |
| `Backoff.BackoffCollapses` | execute.go:93-97 | at 2^33 ns with at least 31 attempts the cap is negative from attempt 30 on and there is no wait |
| `Backoff.DefaultAttemptsAreSafeThere` | execute.go:40-44 | with the default ten attempts it does not overflow |

## Left out

- NATS connections, request and reply, the response envelope, the publisher and command buses: plumbing over other libraries.
- JSON and `Codec` bodies, reflection and factories: event payloads round-trip by assumption, types are abstract names.
- Named consumers, heartbeats, inactivity thresholds and real timers, and the consumer configuration hooks, which are arbitrary user code.
- `sanitizeName`, logging, message metadata and error texts; `StreamName` beyond its default pattern is an arbitrary function.
- Several buses with the same queue but different handlers, which overwrite each other's consumers in the same way; and the time before all groups have started.
- `streamGeneric`: it would add an easier copy of the typed stream.
- A stream that does not exist reads as an empty log.
- A message whose metadata cannot be read: `handleMessage` drops it without a signal, which no JetStream message causes.
- Invalid UTF-8 in subjects; the set of printable characters outside ASCII is arbitrary.
- Cursors of several groups in one store: each group has a key of its own, so one group is modelled.
- Two processes that consume with the same cursor at once.
- `BusLifecycle` and `CursorResume` model concurrent and crashing code as state machines over values, one step for each lock, channel operation, request or handler call; updates in place inside one step are not shown.
- NatsFilters.PatternCompactionExact: not for lists in which an open-ended pattern is covered by one that is not, where single pairs fail (CoveringSoundIff); the compiler produces no such list (RawPatternsExact).
- EventReader.FoldedStreamIsReplay: not for the fast path without snapshot records, where it is false (FoldIsReplayIff); TailStreamContinuesSnapshot states what holds there.
- SnapshotLimits.ImplicitSnapshotRestoresIff: not for aggregates with a codec of their own, which are handed the wrapper's JSON and may do anything with it; unexported fields are no fields here.
- ExecuteProtocol.TailsStayShort: counts all messages of the aggregate after its latest snapshot, which are its events.

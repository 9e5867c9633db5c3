# A verified model of Urd's cores

Urd is an event-sourcing framework. This project models its
self-contained cores in Dafny 4.11 and proves what each of them promises over
every input, every run or every interleaving.

- **Tenant adoption** (`Records`, `EventLog`, `Adoption*`): a copy, verify and
  delete protocol over three stores, with chained receipts. Every mutating store
  call is a parameter: it does what it should, or leaves anything at all behind
  while reporting success, a conflict or an error. The trail of an adoption lists the stores
  after every mutating call, so statements about a trail are statements about
  every state a crash can leave.
- **Fences and pagination** (`Fences`, `Pagination`): the adoption fences of
  concurrent runs as a step machine, and the enumeration that follows page
  tokens while ids are being added.
- **Optimistic stores** (`Optimistic`, `StoreOps`, `Stores`): threads that load
  a pointer, decide on what it leads to and publish by LoadOrStore or
  CompareAndSwap; the linearizability proof is generic in the operation, and the
  event and state stores are its instances. The store objects themselves are
  classes whose methods are proved against the same preconditions, merges and
  truncations those decisions are made of.
- **Projection runner** (`Recovery`, `Runner*`): the pull loop, the worker pool,
  the offset cache, failing stores and crashes as a step machine; one worker's
  pass as a class, and the proof that such a pass is a run of the steps.
- **Codecs** (`GoText`, `Utf8`, `Quoting`, `Conflict`, `Tenancy`, `Command`,
  `Carrier`, `LegacyScan`): the conflict-error grammar with strconv.Quote
  written out, the command metadata carrier, and the hand-written protobuf scan.
- **Subscriber wake-up** (`Subscriber`): a queue and a one-slot channel between
  producers and one consumer.

Go strings are sequences of bytes, `uint64` values are integers below 2^64 with
every conversion and shift written out.

## Results that differ from what one would expect

- A deleting adoption loses an event at sequence 0, and no other: a replay starts
  at sequence 1 while the deletion starts at 0 (`SequenceZeroIsLost`).
- A dry run mispredicts an events adoption exactly when there are events to adopt
  and the target log exists but holds nothing: the genesis write then conflicts
  (`DryRunPrediction`). The report of a whole dry run is right exactly when it gets
  to no such aggregate (`DryRunPredictsReport`).
- A re-run enumerates the ids again. Over a store that keeps listing an id whose
  log was emptied it always completes what was interrupted
  (`ResumableByEnumeration`); over one that drops such ids it does exactly when
  every dropped aggregate's snapshot and state were through (`DroppedIdsResumeIff`;
  `DroppedIdExample` is a run that loses sight of a snapshot this way).
- A tenant may go on appending to an adopted event stream, and a re-run accepts it
  exactly when every later event is the tenant's own (`ContinuedRun`). A snapshot or
  state the tenant wrote since makes the re-run fail, touching nothing
  (`SnapshotFailsClosedIff`, `StateFailsClosedIff`).
- The text of a conflict error parses back exactly when scope and precondition
  were both declared; the comment on the printer names the scope only
  (`ParsePrint`).
- An exact-revision write can be refused although its precondition held all
  along, because a deletion replaced the log without moving its revision
  (`SpuriousConflict`). A lost exact-revision race is spurious exactly when every
  request committed in between was a deletion or a write that reaches no further
  than the expected revision (`RaceIsSpuriousIff`), and the conflict then names the
  expected revision itself, unless more was committed before the loser looked again
  (`RaceNamesRevision`). A lost genesis race is always genuine
  (`GenesisRaceIsGenuine`).
- Enumeration with pages of one id stops after the empty id, so it is complete
  exactly when pages are larger, the empty id is absent or it is the only one
  (`EnumerationCovers`).
- A configured starting offset beyond the stored one makes the runner pass over
  events for good; at-least-once delivery from the stored offset holds exactly
  when there is none (`StartingOffsetCondition`). Any starting offset also makes an
  acknowledged batch come up for delivery again on the next pass; without one no
  acknowledged event is ever delivered again, crashes included
  (`RedeliveryCondition`, `NeverBelowAcknowledged`). With one, every batch of a shard
  begins at the same event for ever (`StartingOffsetPins`).
- A comment in `command/carrier.go` has unknown keys ignored in both carried
  namespaces. For `ego.tenant.` that holds exactly when the carrier has a tenant or
  is rejected anyway; an acceptable carrier without a tenant is rejected for one
  (`UnknownTenantKeyIgnoredIff`, `NewerTenantKeyExample`).
- A derived operation inherits the correlation exactly when no correlation option is
  given or the last one repeats it, where the comment says unchanged
  (`DerivedKeeps`, `CorrelationOverridden`).
- `NewMetadata` checks custom pairs only, so its value is well constructed exactly
  when the operation id, the last tenant and the last principal came from their own
  constructors (`WellConstructedIff`).
- A page size or a replay limit beyond the platform's int makes the test store's
  slicing panic (`PersistenceIDs`, `ReplayEvents` in `Stores`).

## Hypotheses

- Adoption: reads are honest and nobody else writes the aggregate while it is
  being adopted (the fence). Receipts: the digest and the deterministic record
  encoding are parameters; only soundness against foreign records needs them
  injective (`Ideal`), the rest needs a digest without a colon. Resumption: store
  calls are all-or-nothing, whatever they report; of every assigned aggregate the
  source holds something to adopt and the target was never written; ids do not
  repeat.
- Fences: a fence has one holder at a time and acquiring a held one waits.
- Runner: a shard read returns every event in (offset, next], in order, and no
  event appears later at or below an offset a read reported, as
  `persistence/events_store.go` promises; the runner is the only writer of its
  offsets, and a new runner starts only once the old one's workers are gone.
- Enumeration: ids are added and never removed, page sizes are positive, and the
  ids added during one enumeration come from a finite set.
- Pointers: a published object never changes, so an address that is used again
  leads to the same value.

## Model

| member | source | states |
|---|---|---|
| `AdoptionSafety.EventsNeverLost` | migration/tenant_adoption.go:752-822 | after every mutating call, whatever write and delete really did and whichever of success, conflict or error they report, each source event is still in the source or the target has it with the same id, sequence and payload under the tenant's metadata and a receipt; source_deleted only when all copies are there and the source log is empty |
| `AdoptionSafety.ReplyLossless` | migration/tenant_adoption.go:795-822 | a conflict reported by the write leads to the deletion only where every copy is in the target |
| `AdoptionSafety.SnapshotNeverLost` | migration/tenant_adoption.go:834-899 | the latest source snapshot is held, or the target's latest is its copy: same id, sequence and payload, the tenant's metadata, a receipt; source_deleted, copied in a write run and already present with a source only with that copy in place, source_deleted only with the source empty |
| `AdoptionSafety.StateNeverLost` | migration/tenant_adoption.go:908-978 | the source state never changes; a write run reports copied, and a run with a source state reports already present, only with the exact copy in the target, also after a conflicting write: same id, version and payload, the tenant's metadata, a receipt |
| `AdoptionSafety.CopiesAreCopies` | migration/tenant_adoption.go:1322-1340 | event, snapshot and state copies differ from their originals in the metadata only, which reads as the tenant and bears a receipt |
| `AdoptionWholeRun.RunNeverLoses` | migration/tenant_adoption.go:545-718 | in every state of a whole run over any faults, every aggregate is adopted without loss or untouched, and ids outside the run keep all their records in every scope |
| `AdoptionWholeRun.RunPreserves` | migration/tenant_adoption.go:545-718 | in every state of a whole run, every event and the latest snapshot of every assigned aggregate is in the source, or in the target with the same id, sequence and payload under the tenant's metadata and a receipt |
| `AdoptionWholeRun.ReportAddsUp` | migration/tenant_adoption.go:545-718 | scanned = skipped + failed + verified + already present in every write run, fail-fast stops included |
| `AdoptionReport.ReportCounts` | migration/tenant_adoption.go:586-718 | over the ids a run gets to, assigned and skipped count the assignments, copied the aggregates with a kind that wrote the target, source deleted those with a kind whose source was deleted, failed those with a failed kind, nothing at all or no way in, verified and already present the rest; it stops at the first failure under fail-fast and nowhere else |
| `AdoptionReport.VerdictOf` | migration/tenant_adoption.go:586-644 | which assignments are refused before any store is touched |
| `AdoptionReport.LaterKindsWait` | migration/tenant_adoption.go:646-668 | after a failed kind the stores of the later kinds are never touched, nor those of a kind that is not adopted |
| `AdoptionWholeRun.DryRunIsInert` | migration/tenant_adoption.go:791-793 | a dry run mutates nothing and keeps verified and source deleted at zero |
| `AdoptionPrediction.DryRunPredictsReport` | migration/tenant_adoption.go:586-718 | over faithful stores a dry run reports the counts of the real run and stops where it stops, fail-fast included, if and only if it gets to no id with events to adopt and an emptied log as their target |
| `AdoptionFaithful.DryRunPrediction` | migration/tenant_adoption.go:780-806 | for one aggregate's events the dry and the real outcome tally alike if and only if there is nothing to adopt or the target is not an existing, empty log |
| `AdoptionFaithful.DrySnapshotPrediction` | migration/tenant_adoption.go:834-899 | dry and real snapshot outcomes always tally alike over faithful stores |
| `AdoptionFaithful.DryStatePrediction` | migration/tenant_adoption.go:908-978 | dry and real state outcomes always tally alike over faithful stores |
| `AdoptionFaithful.SequenceZeroIsLost` | migration/tenant_adoption.go:752-822 | after a deleting adoption of a raw log every event has its copy if and only if none sits at sequence 0 |
| `AdoptionFaithful.EventsInterrupted` | migration/tenant_adoption.go:752-822 | interrupted at any call, and whatever an all-or-nothing write reports, an events adoption leaves one of its stages: untouched, copied, or copied and emptied |
| `AdoptionFaithful.EventsComplete` | migration/tenant_adoption.go:752-822 | from every stage a faithful pass ends in the settled stage without failure, and from the settled stage mutates nothing |
| `AdoptionFaithful.SnapshotInterrupted` | migration/tenant_adoption.go:834-899 | the same stages for the snapshot |
| `AdoptionFaithful.SnapshotComplete` | migration/tenant_adoption.go:834-899 | completion of the snapshot from every stage, idempotent once settled, with a copy that differs in its metadata only |
| `AdoptionFaithful.StateInterrupted` | migration/tenant_adoption.go:908-978 | the same stages for the durable state |
| `AdoptionFaithful.StateComplete` | migration/tenant_adoption.go:908-978 | completion of the durable state from every stage, idempotent once settled, with a copy that differs in its metadata only |
| `AdoptionResumeRun.InterruptedRun` | migration/tenant_adoption.go:545-718 | wherever an all-or-nothing run stops, every aggregate is in one of its stages and the ids not reached did not move |
| `AdoptionResumeRun.RunCompletes` | migration/tenant_adoption.go:545-718 | a faithful run from such a state fails nowhere and completes every aggregate |
| `AdoptionResumeRun.CompletionIsUnique` | migration/tenant_adoption.go:545-718 | two completed worlds hold the same under every key |
| `AdoptionResumeRun.Resumable` | migration/tenant_adoption.go:586-718 | a re-run over the same ids after any interruption ends in the stores of an uninterrupted run, and one more run mutates nothing |
| `AdoptionRerun.ResumableByEnumeration` | migration/tenant_adoption.go:545-718 | the same when the interrupted run, the re-run and the run after it each enumerate the ids anew from what the source scope then holds |
| `AdoptionRerun.UnderwayKeepsIds` | migration/tenant_adoption.go:1488-1523 | an adoption under way leaves the ids of the source scope as they were |
| `AdoptionRerun.PartialRerun` | migration/tenant_adoption.go:545-718 | a re-run over part of the ids ends in the stores of an uninterrupted run if and only if every aggregate left out was complete |
| `AdoptionRerun.DroppedIdsResumeIff` | migration/tenant_adoption.go:1488-1523 | over a store that stops listing emptied logs, the re-run completes if and only if the snapshot and the state of every dropped, not explicitly listed aggregate were through |
| `AdoptionRerun.DroppedIdMisses` | migration/tenant_adoption.go:545-718 | a faithful run over one aggregate, stopped between deleting its events and copying its snapshot, leaves a state from which such a store makes the re-run do nothing, without a failure, and end elsewhere |
| `AdoptionRerun.DroppedIdExample` | migration/tenant_adoption.go:545-718 | a concrete store and configuration where this happens |
| `AdoptionContinued.ContinuedWithSource` | migration/tenant_adoption.go:1197-1253 | while the source exists, an adopted stream with later events is accepted if and only if the tenant owns them all |
| `AdoptionContinued.ContinuedWithoutSource` | migration/tenant_adoption.go:1207-1286 | once it is gone, an adopted stream with later, receipt-free events is accepted if and only if the tenant owns them all |
| `AdoptionContinued.ContinuedRun` | migration/tenant_adoption.go:752-822 | a re-run over such a target deletes the source if it is to and changes nothing else, and fails if and only if a later event is not the tenant's |
| `AdoptionContinued.ContinuedRerun` | migration/tenant_adoption.go:752-822 | with the source emptied it changes nothing at all |
| `AdoptionContinued.SnapshotFailsClosedIff` | migration/tenant_adoption.go:834-899 | a re-run that finds a snapshot in the target leaves the target alone, and fails, changing nothing, if and only if that is not the copy or, without a source, not the tenant's or without a receipt whose digest is of this scope and this record |
| `AdoptionContinued.StateFailsClosedIff` | migration/tenant_adoption.go:908-978 | the same for the durable state |
| `AdoptionContinued.BorrowedReceiptFails` | migration/tenant_adoption.go:1342-1375 | a snapshot or state with the receipt of another record or of another scope makes a re-run without a source fail, touching nothing |
| `AdoptionSafety.AcceptedTargetIsInitialSegment` | migration/tenant_adoption.go:1213-1286 | with the source gone an accepted target's receipt-bearing events are an initial segment of the adopted stream in sequence order, followed only by events without receipts |
| `AdoptionSafety.LinksAreConsecutive` | migration/tenant_adoption.go:1255-1286 | receipts that each name the event before start at the first event and skip none |
| `Records.StampVerifies` | migration/tenant_adoption.go:1322-1375 | a stamped record verifies, and yields the predecessor it was stamped with |
| `Records.ReceiptBindsRecord` | migration/tenant_adoption.go:1342-1409 | a record accepted with a receipt issued to some event is that very stamped event from that very scope |
| `Records.SingleReceiptBinds` | migration/tenant_adoption.go:1342-1409 | the receipt of a stamped snapshot or state is accepted on that very record from that very scope and proves nothing on any other |
| `Records.VerdictIff` | migration/tenant_adoption.go:1342-1409 | a receipt is accepted, single or with its predecessor, if and only if it is the version and the digest of the scope, the predecessor and the record without it |
| `Records.DigestInputInjective` | migration/tenant_adoption.go:1388-1409 | scope, predecessor and record can be told apart in the digest's input |
| `Records.PredecessorInOrder` | migration/tenant_adoption.go:1413-1426 | the predecessor of the i-th sequence in order is the one before it, or 0 |
| `AdoptionChecks.AdoptedPredecessors` | migration/tenant_adoption.go:1413-1426 | the built map gives each sequence its predecessor |
| `AdoptionChecks.WalkReceipts` | migration/tenant_adoption.go:1261-1286 | the walk accepts if and only if some non-empty prefix is a valid chain and nothing after it bears a receipt |
| `AdoptionChecks.IndexOwned` | migration/tenant_adoption.go:1213-1231 | the index is built if and only if no sequence repeats and every record belongs to the tenant |
| `AdoptionChecks.ContainsSource` | migration/tenant_adoption.go:1233-1253 | accepts if and only if every expected event is held exactly and every position of no expected event lies above all of them |
| `AdoptionChecks.VerifyEventsEquivalent` | migration/tenant_adoption.go:1213-1286 | the whole check decides its specification, with and without a source; with one, it accepts if and only if sequences are distinct, every event is the tenant's, every expected one is there and any other comes after all of them |
| `AdoptionChecks.AcceptedIff` | migration/tenant_adoption.go:1213-1253 | for the copies of any non-empty source: accepted if and only if sequences are distinct, the tenant owns every event, every copy is there, and an event at no source sequence lies above every source event |
| `AdoptionChecks.EarlierExtraFails` | migration/tenant_adoption.go:1247-1251 | one target event below a source event, at a sequence the source does not have, makes the adoption fail and touch nothing |
| `AdoptionChecks.VerifyEventsMatchBySequence` | migration/tenant_adoption.go:994-1020 | accepts if and only if the written events have no repeats and the same sequence-to-event map; for expected events without repeats, exactly the same events |
| `AdoptionChecks.SameEventsBySequence` | migration/tenant_adoption.go:1117-1144 | accepts if and only if both lists have no repeats and hold the same events |
| `AdoptionRun.TenantAdopter.Count` | migration/tenant_adoption.go:586-718 | what one aggregate's verdict adds to each counter, and when the run stops |
| `AdoptionRun.TenantAdopter.ProcessAggregate` | migration/tenant_adoption.go:586-718 | stores, report and trail advance by one aggregate |
| `AdoptionRun.TenantAdopter.Run` | migration/tenant_adoption.go:545-580 | the loop over the ids reaches the specified progress, also when fail-fast stops it |
| `AdoptionRun.DryRunDeletesNothing` | migration/tenant_adoption.go:586-718 | without write no aggregate mutates a store or reports a deletion |
| `Fences.FenceKeyInjective` | migration/tenant_adoption.go:1053-1058 | the order key tells valid scopes apart |
| `Fences.FenceKeyOrder` | migration/tenant_adoption.go:1051-1058 | unscoped comes first, then the tenants by id |
| `Fences.LockOrderRises` | migration/tenant_adoption.go:1027-1029 | the two fences are taken in strictly increasing key order, the same in both directions |
| `Fences.AcquireFences` | migration/tenant_adoption.go:1027-1049 | both fences are held in order, or everything taken before the refusal is released in reverse |
| `Fences.ReleaseAll` | migration/tenant_adoption.go:1032-1036 | held fences are released in reverse order |
| `Fences.FencesBalance` | migration/tenant_adoption.go:622-644 | in every execution a run has released each fence exactly as often as it took it, but for those it holds now |
| `Fences.WorkIsExclusive` | migration/tenant_adoption.go:622-644 | in every state of every execution two runs never hold the same fence |
| `Fences.NoWaitCycle` | migration/tenant_adoption.go:1022-1049 | no set of concurrent runs ever waits in a cycle |
| `Fences.NeverStuck` | migration/tenant_adoption.go:1022-1049 | as long as a run is active some active run can move without an acquisition failing |
| `Pagination.StartIndex` | testkit/eventstore.go:420-429 | the first key beyond the token, or 0 |
| `Pagination.Paginate` | testkit/eventstore.go:420-449 | the page is the first ids beyond the token in increasing order, as many as fit or all, starting over on a stale token, with the last id as token if and only if more follow; slicing panics if and only if the end of the page overflows |
| `Pagination.PageUnique` | testkit/eventstore.go:420-449 | only one page meets that description |
| `Pagination.PageOfIsPage` | testkit/eventstore.go:420-449 | the start-and-end arithmetic on the sorted ids meets it for every set, size and token |
| `Pagination.PageCovers` | testkit/eventstore.go:420-449 | what a token leaves is split between the page and what the new token leaves |
| `Pagination.FollowOnce` | testkit/eventstore.go:401-450 | following tokens returns ids in strictly increasing order and none that was never there |
| `Pagination.EnumerationCovers` | testkit/eventstore.go:401-450 | every id present from the start is returned, while others are added, if and only if pages are larger than one, the empty id is absent or it is alone |
| `Pagination.CollectPersistenceIds` | migration/tenant_adoption.go:1488-1523 | the loop ends and collects the enumerated and then the explicit ids, first occurrences only |
| `Pagination.CollectedIds` | migration/tenant_adoption.go:1488-1523 | the list has no repeats, holds every id present from the start and every explicit one, and nothing else but ids the store came to hold |
| `EventLog.NewEventLog` | testkit/eventstore.go:248-278 | the slice and index built side by side equal the merge |
| `EventLog.MergeKeepsPlaces` | testkit/eventstore.go:248-278 | one record per sequence, old records keep their places, the revision is the maximum of the old one and the batch |
| `EventLog.MergeIsOverride` | testkit/eventstore.go:248-278 | the merged sequence-to-event map is the old one overridden by the batch |
| `EventLog.TruncateKeepsValid` | testkit/eventstore.go:294-322 | deletion keeps a log valid under its surviving revision |
| `EventLog.ReplaySorts` | testkit/eventstore.go:346-348 | a replay holds the same records, repeats included, in ascending order |
| `Optimistic.StepSimulates` | testkit/eventstore.go:152-234 | every atomic step keeps the store equal to its history applied one operation at a time |
| `Optimistic.Linearizable` | testkit/eventstore.go:152-234 | in every interleaving the store is the initial one with the operations applied atomically in the order of their linearization points, each with the result it returns and each between invocation and response |
| `Optimistic.RealTimeOrder` | testkit/eventstore.go:152-234 | an operation that responded before another began took effect before it |
| `Optimistic.OtherKeysUntouched` | testkit/durablestore.go:109-159 | no step changes what is under another scope or id |
| `Optimistic.LosesRace` | testkit/eventstore.go:179-186 | an execution in which a one-shot writer loses to whatever was published in between, and names it |
| `StoreOps.WriteMeansHeld` | testkit/eventstore.go:152-187 | a genesis write commits only on an absent key, an exact one only on exactly its revision, merging exactly its batch; either is refused only where that does not hold; refused or raced, it names what is there |
| `StoreOps.DeleteMeansTruncated` | testkit/eventstore.go:294-322 | a committed deletion leaves exactly the events above its sequence under the same revision; one that changes nothing found nothing to delete |
| `StoreOps.CommitsWhenHeld` | testkit/eventstore.go:152-234 | in every interleaving the committing step finds the precondition true |
| `StoreOps.GenesisRaceIsGenuine` | testkit/eventstore.go:160-170 | a genesis write that loses its race lost it to an existing log |
| `StoreOps.RaceIsSpuriousIff` | testkit/eventstore.go:171-186 | a lost exact-revision race of any run is spurious if and only if every request committed under the key between load and swap was a deletion or a write that reaches no further than the expected revision |
| `StoreOps.RaceNamesRevision` | testkit/eventstore.go:179-186 | the conflict of a lost race names the revision in place when the loser loads again, never one below the expected, and the expected one itself if and only if only such requests were committed until then |
| `StoreOps.RevisionStandsIff` | testkit/eventstore.go:248-322 | over any stretch of a history a revision stands if and only if every request committed under the key leaves it |
| `StoreOps.CommitKeepsRevisionIff` | testkit/eventstore.go:248-322 | one commit keeps the revision if and only if it is a deletion or its batch reaches no further |
| `StoreOps.HeldThroughout` | testkit/eventstore.go:171-186 | a precondition that held at the load holds at the swap if and only if it held at every moment between |
| `StoreOps.SpuriousConflict` | testkit/eventstore.go:171-186 | an execution that refuses an exact-revision write although its precondition holds in every state, naming the very revision expected |
| `StoreOps.RevisionSafety` | testkit/eventstore.go:248-322 | in every interleaving of writers and deleters logs stay valid, and a revision only grows and is never forgotten |
| `StoreOps.StaleWritersLose` | testkit/eventstore.go:152-187 | once a revision was passed, through deletions too, no writer expecting an older one commits, and genesis commits on no existing log |
| `StoreOps.GenesisCommitsOnce` | testkit/eventstore.go:160-170 | genesis commits at most once per key |
| `StoreOps.CompetingWritersExclude` | testkit/eventstore.go:171-186 | of two writers expecting the same revision the second never commits once the first went beyond it |
| `StoreOps.PutMeansHeld` | testkit/durablestore.go:109-159 | a genesis state write commits only on an absent key, an exact one only on exactly its version; refused only where that does not hold; everything else is left alone |
| `StoreOps.PutFinds` | testkit/durablestore.go:109-159 | in every history of state writes a committed exact write found exactly its version, a committed genesis write found nothing, and each left its own state |
| `StoreOps.GenesisPutsOnce` | testkit/durablestore.go:133-141 | after any committed write no genesis write commits on that key |
| `StoreOps.StaleStatesLose` | testkit/durablestore.go:143-158 | once a write has left another version, no writer expecting the old one commits until some write has put it back |
| `Stores.EventStore.WriteEvents` | testkit/eventstore.go:119-142 | which error each input gets, when a conditional write is accepted, genesis on an absent aggregate and exact on exactly its revision, and the whole store afterwards |
| `Stores.WrittenMeans` | testkit/eventstore.go:196-278 | key by key: an aggregate of the batch has its events overridden by its own part and its revision raised, every other key is as it was |
| `Stores.OfConcat` | testkit/eventstore.go:201-209 | the part of an aggregate follows the batch's order |
| `Stores.EventStore.WriteConditional` | testkit/eventstore.go:152-187 | accepted if and only if the precondition holds, and otherwise a conflict naming the revision found |
| `Stores.EventStore.Group` | testkit/eventstore.go:201-209 | each id's part of the batch in batch order, ids without repeats |
| `Stores.EventStore.WriteUnconditional` | testkit/eventstore.go:196-234 | every id of the batch merges exactly its own part |
| `Stores.EventStore.DeleteEvents` | testkit/eventstore.go:294-322 | one log truncated under its old revision, nothing else changed |
| `Stores.EventStore.ReplayEvents` | testkit/eventstore.go:327-355 | events of the range, ascending, the earliest first, as many as the limit or all of them; a panic if and only if the log exists and the limit exceeds the int range |
| `Stores.LimitedReplay` | testkit/eventstore.go:327-355 | a limited replay is the first min(limit, length) events of the unlimited one |
| `Stores.EventStore.GetLatestEvent` | testkit/eventstore.go:360-381 | an event of highest sequence, if any is retained |
| `Stores.EventStore.PersistenceIDs` | testkit/eventstore.go:401-450 | the page, in the sense of `Paginate`, of exactly the ids with a key in the scope, and when the call panics instead |
| `Stores.FullReplay` | migration/tenant_adoption.go:48-60 | the widest replay is every retained event from sequence 1 on, ascending and without repeats |
| `Stores.ReadYourWrites` | testkit/eventstore.go:327-355 | a merged event is returned by a replay of its sequence |
| `Stores.DurableStore.WriteState` | testkit/durablestore.go:109-159 | outcome and whole store for every input: genesis accepted only on an absent key, exact only on exactly its version, any other a conflict naming the version there |
| `Stores.DurableStore.Disconnect` | testkit/durablestore.go:82-92 | a connected store forgets everything |
| `Stores.DurableStore.GetLatestState` | testkit/durablestore.go:165-177 | the state under exactly this scope and id |
| `RunnerSafety.AtLeastOnce` | internal/projectionrunner/runner.go:481-517 | in every reachable state each event above the floor and at or below the stored offset was handled or skipped; the cache is at most the stored offset; a shard with an unsettled event is pending |
| `RunnerSafety.OneWorkerPerShard` | internal/projectionrunner/runner.go:353-435 | no two workers are ever on the same shard, across passes, cancellations and crashes |
| `RunnerSafety.DeliveriesInOrder` | internal/projectionrunner/runner.go:660-667 | each delivery finds every earlier event of its shard settled, and continues its batch or begins one |
| `RunnerRedelivery.NeverBelowAcknowledged` | internal/projectionrunner/runner.go:631-667 | without a starting offset, an event handled after an offset was acknowledged lies beyond it, in every execution, crashes included |
| `RunnerRedelivery.AcknowledgedStays` | internal/projectionrunner/runner.go:631-813 | without a starting offset, neither the stored nor the cached offset ever falls below an acknowledged one |
| `RunnerRedelivery.BatchesBeginAlike` | internal/projectionrunner/runner.go:574-626 | until an offset of the shard is acknowledged, every batch of the shard in one process begins at the same event |
| `RunnerRedelivery.StartingOffsetPins` | internal/projectionrunner/runner.go:631-655 | with a starting offset every batch of a shard begins at the same event, across acknowledgements and crashes |
| `RunnerRedelivery.ReadsAgain` | internal/projectionrunner/runner.go:650-652 | with a starting offset, an execution in which a settled and acknowledged event is handed to the handler again |
| `RunnerRedelivery.RedeliveryCondition` | internal/projectionrunner/runner.go:495-652 | such an execution exists if and only if a starting offset is set |
| `RunnerSafety.OffsetFollowsBatch` | internal/projectionrunner/runner.go:660-667 | a stored offset moves only to the end of a batch whose events are all settled |
| `RunnerSafety.EveryState` | internal/projectionrunner/runner.go:353-667 | the invariant behind these, wait counter included, holds in every reachable state |
| `RunnerSafety.StartingOffsetSkips` | internal/projectionrunner/runner.go:650-652 | a reachable state in which a starting offset made the stored offset pass an undelivered event |
| `RunnerSafety.StartingOffsetCondition` | internal/projectionrunner/runner.go:631-655 | delivery from the stored offset on holds in every reachable state if and only if no starting offset lies beyond it |
| `RunnerLoop.ProjectionRunner.PendingShards` | internal/projectionrunner/runner.go:481-517 | each shard once, and exactly those with an event past the offset their next pull starts from |
| `RunnerLoop.ProjectionRunner.CurrentOffset` | internal/projectionrunner/runner.go:631-655 | the store is read on first encounter only; a failed read caches nothing |
| `RunnerLoop.ProjectionRunner.CommitOffset` | internal/projectionrunner/runner.go:794-813 | the cache moves only with an acknowledged write, even when a failed one took effect |
| `RunnerLoop.ProjectionRunner.ProcessEvents` | internal/projectionrunner/runner.go:660-667 | events are settled in order up to the first bad one, and offsets move only when there is none |
| `RunnerLoop.ProjectionRunner.DoProcess` | internal/projectionrunner/runner.go:574-626 | what one pass settles, stores and caches in every case, and that it notes a full batch exactly when the read returned at least a buffer of events |
| `RunnerPass.PassIsSteps` | internal/projectionrunner/runner.go:574-626 | what DoProcess settles, stores and caches is reached by that worker's own steps of the step machine, leaving everything else |
| `Recovery.RetryOn` | internal/projectionrunner/retry.go:50-75 | attempts end at the first success, at the first wait the context cuts short or at the last try; a handler that never works is attempted exactly maxTries times, or five; the waiting adds up, 200 ms by default |
| `Recovery.AttemptsStopAtSuccess` | internal/projectionrunner/retry.go:50-75 | no attempt after a success or a cut wait, and success if and only if some allowed attempt works before the context ends |
| `Recovery.HandleWithPolicy` | internal/projectionrunner/runner.go:707-753 | handled if and only if an allowed attempt works; otherwise skipped and dead-lettered, or failed, as the policy says; one attempt without retries, else as many as configured, or five |
| `Recovery.BackoffIsCapped` | internal/projectionrunner/runner.go:466-473 | the delay is min(1s * 2^(n-1), 30s) for every count, although the shift overflows |
| `Recovery.LateShiftsAreRejected` | internal/projectionrunner/runner.go:466-473 | every wrapped delay is a multiple of 2^43 ns, so none is accepted |
| `Recovery.BackoffNeverShrinks` | internal/projectionrunner/runner.go:441-473 | one more failure never waits less |
| `Subscriber.Inbox.Signal` | eventstream/subscriber.go:151-163 | an active subscriber enqueues and is notified, an inactive one takes nothing |
| `Subscriber.Inbox.Shutdown` | eventstream/subscriber.go:113-120 | inactive and notified |
| `Subscriber.Inbox.Drain` | eventstream/subscriber.go:128-148 | the whole queue in order while active, nothing afterwards, nothing lost |
| `Subscriber.NoLostWakeUp` | eventstream/subscriber.go:113-163 | in every interleaving a non-empty queue of an active subscriber has a token, a producer about to signal or a draining consumer; emitted, held and queued messages are the enqueued ones in order |
| `Subscriber.WorkFalls` | engine/streams.go:213-252 | without new messages every step brings the remaining work down |
| `Subscriber.QuietOrMoving` | engine/streams.go:213-252 | a state is quiet if and only if no such step is left |
| `Subscriber.QuietMeansDelivered` | engine/streams.go:213-252 | a quiet active subscriber has delivered exactly what was enqueued, in order |
| `Quoting.CutQuotedInverts` | persistence/conflict.go:265-278 | quoted text is a prefix code: what follows it never changes what is read |
| `Quoting.CutQuotedIsCanonical` | persistence/conflict.go:265-278 | nothing but the canonical rendering is accepted |
| `Conflict.CutScopeInverts` | persistence/conflict.go:242-259 | the scope token is read back whatever the tenant id contains |
| `Conflict.ParsePrint` | persistence/conflict.go:149-237 | the text parses back to the error if and only if scope and precondition are declared |
| `Conflict.PrintParse` | persistence/conflict.go:193-307 | every accepted message re-prints byte for byte |
| `GoText.ParseFormat` | persistence/conflict.go:282-288 | decimal formatting is read back for every value |
| `Utf8.EncodeDecode` | tenancy/tenant_id.go:52-71 | decoding a rune and encoding it again gives the bytes it came from |
| `Utf8.DecodeEncode` | tenancy/tenant_id.go:52-71 | encoding a rune and decoding it gives the rune, whatever follows |
| `Tenancy.TenantRoundTrip` | tenancy/metadata.go:55-102 | a tenant context is read back from any map that carries it if and only if it could have been constructed |
| `Tenancy.TenantReadIff` | tenancy/metadata.go:82-102 | a map reads as a tenant context if and only if the context could have been constructed, its own pairs are there, and no correlation where it has none |
| `Command.NewMetadata` | command/metadata.go:174-186 | options apply in order and the first error is final; every field is the last given, the flow or else the operation, the timestamp or else now; it fails if and only if a custom pair does not pass |
| `Command.WellConstructedIff` | command/metadata.go:86-186 | the value is well constructed if and only if the operation id is valid and the last tenant and the last principal given came from their constructors |
| `Command.OptionsDecide` | command/metadata.go:86-186 | construction fails only on a custom pair, and the last tenant and principal stand |
| `Command.OptionsKeep` | command/metadata.go:86-168 | options never touch operation or causation, take nothing away, and add only governed custom pairs |
| `Command.DerivedKeeps` | command/metadata.go:256-294 | whatever the options, causation is the parent's operation, the tenant cannot be switched or dropped, the deadline cannot be extended or dropped, principal and deadline are the last given or else the parent's; the correlation is the parent's if and only if none is given or the last one given is it |
| `Command.DerivedFields` | command/metadata.go:256-294 | every field of a derived value: the last given or else the parent's, the timestamp or else now, revision and custom pairs only as given |
| `Command.DeriveIff` | command/metadata.go:256-294 | a derivation succeeds if and only if the operation is another, the custom pairs pass, no other tenant and no later deadline is given |
| `Command.LastOptionsStand` | command/metadata.go:86-168 | any list of options leaves the last value given of every field, and fails only on a custom pair |
| `Command.CorrelationOverridden` | command/metadata.go:84-91 | a derivation from any parent that succeeds and leaves its flow |
| `Command.LineageKeeps` | command/metadata.go:256-294 | the same along every chain of derivations, with the correlation the last one given anywhere along it |
| `Carrier.MarshalMetadata` | command/carrier.go:78-108 | the built map, in whatever order maps are walked |
| `Carrier.ReadFields` | command/carrier.go:121-186 | the options build, whatever the clock, the one value the carrier says: each field present exactly with its key and read from its text; rejected if and only if it says none, with the error of the first kind of check that fails |
| `Carrier.PassesIffSays` | command/carrier.go:121-186 | a carrier passes the checks if and only if it says something, and it says one thing only |
| `Carrier.UnmarshalMetadata` | command/carrier.go:121-204 | accepted if and only if all fields and custom pairs pass; value and field errors do not depend on map order |
| `Carrier.CollectTenant` | command/carrier.go:208-216 | exactly the ego.tenant. pairs, in whatever order the map is walked |
| `Carrier.CustomInAnyOrder` | command/carrier.go:186-196 | in any order all custom pairs are taken, or some pair's own error is reported |
| `Carrier.CarrierRoundTrip` | command/carrier.go:78-204 | a value survives the carrier if and only if it is well constructed and its instants survive their text |
| `Carrier.AcceptedIsWellConstructed` | command/carrier.go:121-204 | nothing gets in that could not have been constructed directly |
| `Carrier.StrayReservedKeyRejected` | command/carrier.go:186-191 | a reserved key outside the two namespaces makes the carrier unacceptable |
| `Carrier.UnknownCommandKeyIgnored` | command/carrier.go:186-191 | an unknown ego.cmd. key changes nothing |
| `Carrier.UnknownTenantKeyIgnoredIff` | command/carrier.go:51-64 | an unknown ego.tenant. key changes nothing if and only if the carrier has a tenant or is rejected anyway, and otherwise makes it an invalid tenant |
| `Carrier.NewerTenantKeyRejected` | command/carrier.go:121-204 | it turns the carrier of every value without a tenant from accepted to rejected |
| `Carrier.NewerTenantKeyExample` | command/carrier.go:121-204 | one such carrier |
| `LegacyScan.ConsumeVarint` | migration/migration.go:341-353 | the loop computes the decoding, and never overlaps bits |
| `LegacyScan.VarintRoundTrip` | migration/migration.go:341-353 | decoding inverts encoding for every 64-bit value within ten bytes, whatever follows |
| `LegacyScan.ReadsField` | migration/migration.go:276-337 | reading one well-formed field consumes exactly it |
| `LegacyScan.ScanSelectsFirst` | migration/migration.go:263-337 | on every well-formed field list, whatever follows it, the scan selects the first length-delimited field 5, and goes on to what follows if there is none |
| `LegacyScan.ScanStaysInBounds` | migration/migration.go:263-337 | on arbitrary bytes the selection is a piece of the input |
| `LegacyScan.ExtractLegacyState` | migration/migration.go:263-327 | the loop ends; on well-formed fields the state is s if and only if the first length-delimited field 5 parses as s and s has a type URL; on any bytes a state has a type URL and is parsed from a piece of them |
| `LegacyScan.SelectedIff` | migration/migration.go:263-327 | the same equivalence for the specification of the loop |
| `LegacyScan.LatestLegacy` | migration/migration.go:207-254 | of the events whose unknown fields yield a legacy state, the first with the highest sequence, and its state, which has a type URL and is parsed from its bytes; nothing if and only if no event yields one |
| `LegacyScan.ChoiceInFields` | migration/migration.go:207-254 | the choice in terms of the events' field lists: nothing if and only if no event's first length-delimited field 5 is a state with a type URL, otherwise the first such event of the highest sequence |

## Left out

- The actor runtime, the engine's wiring, publishers, logging, telemetry and encryption: library calls and I/O.
- testkit's GetShardEvents and the offset store's ResetOffset: the runner is modelled over the interface contracts instead.
- Whether the batch wait of a cancelled pass returns: workers may leave with items queued, so only safety is claimed.
- A dropped worker error: whether a pass with an unprocessable event stops the runner is left open; that its offset does not move is proved.
- internal/queue: taken as an atomic FIFO.
- SHA-256, deterministic protobuf encoding and RFC 3339 text: parameters, with the properties listed under Hypotheses or asked for in the statements.
- Unicode's printable and space tables: strconv.Quote's printable test is a parameter; the space and control runes used by identifier validation are written out.
- Older source snapshots: only the latest one is adopted, as in the source.
- A truncated tail of an adopted chain: the receipts do not promise to detect it.
- Disconnect during other calls: it deletes every key and is modelled, for the state store, with one caller at a time only.
- RunnerSafety.OneWorkerPerShard: a stopped runner's worker that is still finishing while a new runner starts in the same process is not modelled, because stopping does not wait for workers and nothing then keeps the two apart.
- stampSnapshotTenant and the rest of the legacy migration's run: one branch each.
- Subscriber topics, tenant resolvers, option plumbing and adapter descriptors: easy members only.

# Event-sourced banking: a verified model

A Dafny model of an event-sourced bank: accounts decided and replayed from events, an event store with
optimistic concurrency and a batching writer, snapshots, projections and caches fed by a Kafka consumer,
replay-based recovery, hash-range sharding with a rebalancer and lease locks, two rate limiters, a circuit
breaker and a dead-letter loop. `dafny verify dfyconfig.toml` checks everything.

The project is one file per component.

| file | component |
|---|---|
| Domain | `Account`, its events and commands, and what a lawful log is |
| EventStore | versioned rows, the version check, inserts, reads and rebuilds |
| Batching | the channel, pending batch and flush tasks of the writer, against a one-at-a-time reference |
| Overtaking | which schedules of flush tasks give what arrival order gives |
| Protocol | clients, flush tasks and snapshot tasks interleaved in any order |
| Projections | the read-side fold and the accounts and events that the Kafka consumer caches |
| Recovery | full and selective replay of a log |
| Sharding, Rebalance | the hash ring and its rebalancer |
| LeaseLock | Redis leases with owner-checked release |
| Cache | the two-level cache with expiry, eviction and warm-up, a call at a time |
| CacheRaces, CacheTiming | the same cache with calls split at their awaits: which values it serves, and until when |
| WarmupFlag | the flag that keeps warm-ups apart |
| FixedWindow, SlidingLog | the two rate limiters |
| CircuitBreaker | the Redis circuit breaker |
| DeadLetter | retries with exponential backoff |
| Counting, Clock, Wrappers | counting lemmas; elapsed time; `Option` and `Result` |

## How it is modelled

Every component is a step function over a state and `Run` folds any sequence of steps, so a lemma about
`Run` holds for every interleaving. Objects the source mutates are classes whose methods are proved equal
to the step functions. Money is an integer number of minor units. Clocks are non-negative integers or
parameters, and the answers of Redis, Kafka and event handlers are parameters of the step.

The event store's version check is modelled in two readings. `AsWritten` is the code: the check compares
the stored maximum with the first new version itself, and the maximum of no rows fails to decode.
`AsMeant` compares with the version before the first new one, which is what the request carried and what the
conflict error reports. Safety is proved for both readings; under `AsWritten` it holds because nothing
is ever stored.

Where the code differs from what its comments or documents say, the model follows the code:

- The version check as written rejects every non-empty save on every table (`AsWrittenRejectsAll`).
- Flush tasks are spawned and not awaited, so a later batch can overtake an earlier one; a schedule is harmless exactly when it keeps the order within each account.
- A cache call that is overtaken between its Redis half and its memory half leaves an old value in memory; so does a lookup that refills between the halves of an invalidation, and a plain `delete_account`, which never drops the memory copy.
- A memory half that is delayed past the expiry of its value in Redis brings the value back for a full default time to live.
- An older snapshot draft can overwrite a newer snapshot.
- A dead-letter message whose requeueing fails is lost, because it was polled and the loop returns.
- The documented sliding window is a fixed window, and the burst semaphore never runs down because its permit is dropped at once.
- The half-open breaker admits every request, where its comment says one.
- A replayed batch is tagged with its last version and the consumer reads the tag as the version before it, so a selective replay appends the whole log again.
- Cached event versions are one below the stored ones.
- `initialize` leaves the warming flag set, so unless a warm-up is running no later one does anything; the event cache ignores time to live.
- Rebalancing moves each overloaded instance's first shard to the last underloaded instance, which can raise the spread.

## Model

| member | source | states |
|---|---|---|
| `Domain.LiveAccount.ApplyEvent` | src/domain/account.rs:56-78 | applying an event in place does to the account exactly what the pure fold step does to its value |
| `Domain.ReplayVersion` | src/domain/account.rs:56-78 | a replay raises the version by exactly one per event and keeps the id |
| `Domain.ApplyAllConcat` | src/domain/account.rs:56-78 | replaying a log in two parts equals replaying it whole |
| `Domain.PermittedIsDecided` | src/domain/account.rs:80-136 | an event is permitted on an account if and only if it is the whole answer of the decision function to some command |
| `Domain.DecisionTakesEffect` | src/domain/account.rs:80-136 | an accepted command is one event whose replay changes the balance by the amount asked for, sets the owner on creation, and leaves the account active unless it was a closure |
| `Domain.DecisionCarriesDetails` | src/domain/account.rs:80-136 | that event carries the drawn transaction id or the closing reason |
| `Domain.RefusedExactlyWhen` | src/domain/account.rs:80-136 | when each command is refused, if and only if, and with which error |
| `Domain.UncreatedRefuses` | src/domain/account.rs:80-136 | before its first event an account refuses everything but its creation |
| `Domain.LegalNeverOverdrawn` | src/domain/account.rs:80-136 | a log whose every event was permitted on the events before it never replays to a negative balance |
| `Domain.LegalBalance` | src/domain/account.rs:56-78 | conservation: the replayed balance is the opening amount plus deposits minus withdrawals |
| `Domain.LegalClosedIsFinal` | src/domain/account.rs:80-136 | in a lawful log only the last event can close the account |
| `EventStore.CurrentVersion` | src/infrastructure/event_store.rs:1301-1318 | the current version is attained by a stored row, no row is higher, and it is 0 without rows |
| `EventStore.PrepareEvents` | src/infrastructure/event_store.rs:563-591 | the loop numbers the events consecutively from the expected version plus one, in order |
| `EventStore.AsWrittenRejectsAll` | src/infrastructure/event_store.rs:637-672 | the version check as written rejects every non-empty save on every table and changes nothing |
| `EventStore.AsMeantExact` | src/infrastructure/event_store.rs:611-784 | as meant, a save on a contiguous log is stored if and only if it expects the current version, and every other outcome names its exact error |
| `EventStore.ProcessEffect` | src/infrastructure/event_store.rs:611-784 | a save keeps all logs contiguous, changes nothing when rejected, appends exactly its events when accepted and touches no other account |
| `EventStore.SortOrders` | src/infrastructure/event_store.rs:787-832 | reading in version order gives an ascending permutation of the rows |
| `EventStore.GetEventsOfNumbered` | src/infrastructure/event_store.rs:787-832 | on a contiguous log a read from version v returns exactly the rows after the first v, and a read from the start returns all |
| `EventStore.RebuildAccount` | src/infrastructure/repository.rs:97-116 | the rebuilding loop returns the replay of the rows, and nothing for no rows |
| `Batching.BatchProcessor.SaveEvents` | src/infrastructure/event_store.rs:390-436 | a non-empty save joins the pending batch and spawns it when it is full |
| `Batching.BatchProcessor.BatchTimeout` | src/infrastructure/event_store.rs:449-492 | a timeout spawns the pending batch if there is one |
| `Batching.BatchProcessor.InsertEvents` | src/infrastructure/event_store.rs:611-784 | the insert stores all rows or none, with the error of the first check that fails, including the unique constraint |
| `Batching.BatchProcessor.FlushBatch` | src/infrastructure/event_store.rs:495-560 | the flush loop answers every request of its batch once, in order, each against the table the previous one left |
| `Batching.EveryRunIsSerial` | src/infrastructure/event_store.rs:449-560 | in every interleaving, table and answers are those of handling the answered requests one at a time, and every request is answered, in flight or pending exactly once |
| `Batching.ArrivalsFillBatches` | src/infrastructure/event_store.rs:449-492 | without timeouts every spawned batch is exactly full and n arrivals make n / batch_size of them, for every n |
| `Batching.BatchingTransparent` | src/infrastructure/event_store.rs:449-560 | if no flush task overtakes an earlier one, the serial order is the arrival order |
| `Batching.DrainedWritersAgree` | src/infrastructure/event_store.rs:449-560 | two drained writers with any batch sizes and timings that saw the same arrivals and did not overtake have equal tables and answers |
| `Batching.OwnRequestsDecide` | src/infrastructure/event_store.rs:611-784 | an account's rows and answers depend only on its own requests in their order |
| `Batching.OrderMattersOnlyWithinAccounts` | src/infrastructure/event_store.rs:495-560 | two orders that agree within each account give the same rows and answers |
| `Batching.OvertakingAcrossAccountsIsHarmless` | src/infrastructure/event_store.rs:449-492 | under either reading, a run whose answers keep the arrival order within each account gives what handling the arrivals one at a time gives |
| `Overtaking.HarmlessExactlyWhen` | src/infrastructure/event_store.rs:495-560 | an order of request slots gives slot order's rows and answers for every table and every choice of requests if and only if it keeps the order within each account |
| `Overtaking.OvertakingHarmlessExactlyWhen` | src/infrastructure/event_store.rs:449-560 | a drained schedule of arrivals, timeouts and flush steps gives arrival order's rows and answers for every table and every choice of requests if and only if it answers each account's requests in the order they arrived |
| `Overtaking.RunFollows` | src/infrastructure/event_store.rs:449-560 | in every run the pending, spawned and answered requests are those of the slots, which depend on the schedule alone |
| `Overtaking.OvertakingChangesTheWinner` | src/infrastructure/event_store.rs:449-492 | two runs over the same two saves of an account that differ only in which flush task goes first, and the one flushed first is what is stored |
| `Protocol.LoadedIsCurrent` | src/infrastructure/event_store.rs:1202-1218 | loading gives the replay of the whole log, and nothing exactly when the log is empty |
| `Protocol.EveryRunIsSound` | src/application/handlers.rs:27-125 | every interleaving of clients, flush tasks and snapshot tasks keeps logs lawful and contiguous, queued saves justified and all reads and snapshots true states of their log |
| `Protocol.RunsExtend` | src/infrastructure/event_store.rs:611-784 | in every continuation every log extends what it was |
| `Protocol.EveryEventWasDecided` | src/application/handlers.rs:60-125 | every stored event carries its account's id and is the decision function's answer on exactly the events before it, and only the first creates |
| `Protocol.NoOverdraft` | src/application/handlers.rs:84-104 | at every point of every reachable log the balance is the net of the events and not negative, with any number of concurrent clients |
| `Protocol.ClosedForever` | src/application/handlers.rs:106-125 | once a loaded account is closed its log never changes in any continuation |
| `Protocol.VersionsAreContiguous` | migrations/007_add_unique_constraint_aggregate_id_version_to_events.sql:35-36 | reachable versions are 1 to n without gap or repeat, and n is the current version and the replayed version |
| `Protocol.NoUpdateLost` | src/infrastructure/event_store.rs:637-672 | the successful saves of an account are exactly its log, each at the version it expected, and stay there in every continuation |
| `Protocol.UndisturbedCommandIsStored` | src/application/handlers.rs:60-125 | progress: from any reachable state where no save of the account is pending, load, decide, save and flush append exactly the decided event, whatever other accounts have pending |
| `Protocol.UndisturbedCommandTakesEffect` | src/application/handlers.rs:60-125 | and the next load of the account then shows the balance and activity the command asked for, one version up |
| `Protocol.UndisturbedCreationIsStored` | src/application/handlers.rs:27-58 | progress: likewise an account without a log gets exactly its creation event |
| `Protocol.SnapshotsStayValid` | src/infrastructure/event_store.rs:928-1000 | folding the events after a snapshot's version over it gives the full replay, in every later state |
| `Protocol.SnapshotIsStored` | src/infrastructure/event_store.rs:928-1000 | from every reachable state, drafting and writing a snapshot of an account with events stores the replay of its whole log at its length, and of one without events changes nothing |
| `Protocol.WrittenDraftIsStored` | src/infrastructure/event_store.rs:928-1000 | a written draft replaces its own account's snapshot and no other |
| `Protocol.SnapshotNeverGoesBackExactlyWhen` | src/infrastructure/event_store.rs:928-1000 | in every run the version of an account's stored snapshot never goes back if and only if no write replaces a snapshot that was drafted later from a longer log |
| `Protocol.AsWrittenStoreStaysEmpty` | src/infrastructure/event_store.rs:637-672 | with the check as written every reachable store is empty and no save succeeds |
| `Projections.FoldsAgreeExactly` | src/infrastructure/projections.rs:656-681 | the projection's fold ends equal to the account's fold if and only if it started close enough, given which events create or close |
| `Projections.EventProcessor.ProcessBatch` | src/infrastructure/kafka_event_processor.rs:204-262 | a batch is saved first; the event cache, then the account cache if there is a projection, change exactly when the save and all calls up to theirs succeed; success is reported exactly when all calls went through |
| `Projections.CachedAccountExact` | src/infrastructure/kafka_event_processor.rs:226-245 | after a successful batch the cached account is the true replay if and only if the projection was close enough to the account before the batch |
| `Projections.UpToDateProjectionCachesTheTruth` | src/infrastructure/kafka_event_processor.rs:226-245 | a projection that shows the account at the batch's version leads to the true account in the cache |
| `Projections.CachedEventVersionsLag` | src/infrastructure/kafka_event_processor.rs:213-218 | every cached event version is one below the version its row is stored under |
| `Recovery.SelectiveReplay` | src/infrastructure/kafka_recovery_strategies.rs:126-170 | the loop sends one batch per maximal run of consecutive versions, tagged with its last version |
| `Recovery.RunsArePartition` | src/infrastructure/kafka_recovery_strategies.rs:126-170 | the runs concatenate to the rows, are consecutive inside and broken between |
| `Recovery.RunsAreUnique` | src/infrastructure/kafka_recovery_strategies.rs:126-170 | any partition into maximal consecutive runs is that one |
| `Recovery.SentTagsAreLastVersions` | src/infrastructure/kafka_recovery_strategies.rs:126-170 | one batch is sent per run, in order, with the run's events and the version of its last row |
| `Recovery.GapFreeIsOneBatch` | src/infrastructure/kafka_recovery_strategies.rs:126-170 | a gap-free stream is sent as one batch |
| `Recovery.SelectiveReplayDoublesTheLog` | src/infrastructure/kafka_recovery_strategies.rs:126-170 | the batch replayed from a sound log is accepted by the consumer and makes the log itself twice over, which is not lawful |
| `Recovery.ReplayOfReachableLog` | src/infrastructure/kafka_recovery_strategies.rs:126-170 | this happens to every non-empty log the protocol can reach |
| `Recovery.FullReplayRepeatsLastEvent` | src/infrastructure/kafka_recovery_strategies.rs:61-89 | a full replay of a sound log answers every event but the last with a conflict naming its version and the current one, and stores the last a second time |
| `Recovery.RepeatIsLawfulExactlyWhen` | src/infrastructure/kafka_recovery_strategies.rs:61-89 | the repeated event leaves the log lawful if and only if it is a deposit, or a withdrawal the balance still covers |
| `Sharding.RangesFit` | src/infrastructure/sharding.rs:80-105 | no product in the initialisation leaves 64 bits and every range is non-empty, for every shard count |
| `Sharding.RangesTile` | src/infrastructure/sharding.rs:80-105 | every 64-bit hash lies in exactly one range: no gap and no overlap |
| `Sharding.ShardManager.InitializeShards` | src/infrastructure/sharding.rs:80-105 | the loop builds exactly those ranges, unowned and available |
| `Sharding.AssignmentsKeepRanges` | src/infrastructure/sharding.rs:107-119 | any sequence of assignments, also of unknown shards, leaves the ranges as they are |
| `Sharding.ShardManager.GetShardForKey` | src/infrastructure/sharding.rs:121-131 | the scan returns a shard containing the hash, and nothing only if no shard contains it |
| `Sharding.EveryKeyFindsItsHome` | src/infrastructure/sharding.rs:121-131 | after any assignments a lookup can only return the one home shard of the hash, and always does |
| `Rebalance.TakeSnapshot` | src/infrastructure/sharding.rs:133-167 | the grouping loop lists under each instance exactly its shards, in scan order |
| `Rebalance.ScanIsComplete` | src/infrastructure/sharding.rs:133-167 | a complete scan groups each instance's owned shards without repetition, so list length is load |
| `Rebalance.MapEntriesAreSnapshot` | src/infrastructure/sharding.rs:133-167 | the entries of that map, in any order, are a snapshot of the ring |
| `Rebalance.ImbalanceFound` | src/infrastructure/sharding.rs:133-167 | the early-exit loop reports an imbalance if and only if some instance is overloaded or underloaded |
| `Rebalance.DeviationMeansClassed` | src/infrastructure/sharding.rs:133-201 | the relative-deviation test and the later classification agree |
| `Rebalance.OverloadedExactly` | src/infrastructure/sharding.rs:169-187 | the overloaded list is all the overloaded groups of the snapshot, in its order |
| `Rebalance.UnderloadedExactly` | src/infrastructure/sharding.rs:169-187 | the underloaded list is all the underloaded groups of the snapshot, in its order |
| `Rebalance.LastWriterOwns` | src/infrastructure/sharding.rs:107-119 | after any assignments a shard has the owner of the last one that names it and is assigned, and is unchanged if none does |
| `Rebalance.PerformRebalancing` | src/infrastructure/sharding.rs:169-201 | the nested loops move each overloaded instance's first shard to the last underloaded instance, and nothing if there is none |
| `Rebalance.RebalanceMovesExactly` | src/infrastructure/sharding.rs:169-201 | for any groups, stale or not, the target gains exactly the listed shards it did not own and everybody else loses exactly the listed ones they owned |
| `Rebalance.PassAlone` | src/infrastructure/sharding.rs:169-201 | the pass's assignments in order, each first shard to each underloaded instance in turn, leave what the nested loops leave |
| `Rebalance.OwnersAfterInterleaving` | src/infrastructure/sharding.rs:107-201 | however a pass, complete or cut short by a failed assignment, interleaves with assignments by others, each shard belongs to its last writer, and one last written by the pass is a listed shard, now with an underloaded instance |
| `Rebalance.OwnersAfterCompletePass` | src/infrastructure/sharding.rs:107-201 | after a complete pass such a shard is with the last underloaded instance, and a shard nobody wrote was not listed |
| `Rebalance.SquaresAfterMoves` | src/infrastructure/sharding.rs:107-201 | any assignments, by the pass and by others, change the sum of squared loads by exactly the sum of what each does to the owners it finds |
| `Rebalance.StaleMovesHelpExactlyWhen` | src/infrastructure/sharding.rs:169-201 | for any groups, stale or not, the moves do not raise the sum of squared loads if and only if what the present owners give up covers what the target gains, in closed form |
| `Rebalance.SnapshotGivesValidMoves` | src/infrastructure/sharding.rs:133-201 | moves computed from a snapshot of the ring name shards their donors own and distinct donors other than the target |
| `Rebalance.RebalanceHelpsExactlyWhen` | src/infrastructure/sharding.rs:169-201 | for moves from a fresh snapshot, the exact change of the sum of squared loads, and that it does not grow if and only if k(2t + k + 1) is at most twice the donors' total load |
| `Rebalance.PassHelpsExactlyWhen` | src/infrastructure/sharding.rs:133-201 | the same condition decides every pass over a fresh snapshot of any ring |
| `Rebalance.LargeGapsHelp` | src/infrastructure/sharding.rs:169-201 | enough that every donor is at least (k + 1)/2 above the target |
| `Rebalance.RebalanceKeepsRanges` | src/infrastructure/sharding.rs:169-201 | rebalancing never changes a range |
| `Rebalance.RebalanceCanWorsen` | src/infrastructure/sharding.rs:169-201 | on any ring of 16 shards, a whole pass over a snapshot with 8 instances at the default threshold 0.2 raises the sum of squares by 4 |
| `LeaseLock.EveryRunIsSound` | src/infrastructure/sharding.rs:226-290 | in every run in which a granted id is not used again, each unexpired, unreleased lease is backed by its own id in Redis; refused attempts may be repeated |
| `LeaseLock.AtMostOneHolder` | src/infrastructure/sharding.rs:226-256 | at any time at most one active lease exists per key |
| `LeaseLock.GrantedIffFree` | src/infrastructure/sharding.rs:226-256 | an attempt is granted if and only if no active lease on the key exists |
| `LeaseLock.GrantLastsExactly` | src/infrastructure/sharding.rs:226-256 | after a grant for a timeout, another attempt is granted if and only if at least that long has passed |
| `LeaseLock.LeaseLastsExactly` | src/infrastructure/sharding.rs:226-256 | in every continuation that does not release it, a lease granted at T is active exactly until T plus its timeout |
| `LeaseLock.ReleaseHurtsNobodyElse` | src/infrastructure/sharding.rs:266-290 | releasing any lease, even an expired one, leaves every other active lease held |
| `LeaseLock.ReleaseFreesTheKey` | src/infrastructure/sharding.rs:266-290 | releasing an active lease makes its key available |
| `LeaseLock.LockManager.AcquireLock` | src/infrastructure/sharding.rs:226-256 | three attempts with the same id, with anything others do in between, succeed if and only if some attempt finds the key free; the new lease is then entitled and backed, and soundness is kept |
| `LeaseLock.AloneGetsItExactlyWhen` | src/infrastructure/sharding.rs:226-256 | left alone, three attempts 100 ms apart get the key if and only if it is free or expires within 200 ms |
| `LeaseLock.LockManager.ReleaseLock` | src/infrastructure/sharding.rs:266-290 | the compare-and-delete release is the release step and keeps soundness |
| `Cache.ChooseVictim` | src/infrastructure/cache_service.rs:538-565 | the scan returns an entry minimal under the eviction policy |
| `Cache.CacheService.UpdateInMemoryCache` | src/infrastructure/cache_service.rs:520-536 | a full shard loses an entry minimal under the policy, then the account is stored with fresh stamps |
| `Cache.StoreTouchesOnlyVictim` | src/infrastructure/cache_service.rs:520-536 | every other entry is gone after a store if and only if its shard was full and it is the victim, and is otherwise as it was |
| `Cache.RoomServesAll` | src/infrastructure/cache_service.rs:326-340 | in every run of sets and waits, at most max_size sets into a shard within the default time to live are all served from memory, Redis or not |
| `Cache.SetIsRecorded` | src/infrastructure/cache_service.rs:326-340 | and every set for which there is room is one of them |
| `Cache.CacheService.GetAccount` | src/infrastructure/cache_service.rs:268-324 | answers from memory unless expired, else from Redis with a refill, else an error; the new state is a lookup step with a victim the policy allows |
| `Cache.CacheService.SetAccount` | src/infrastructure/cache_service.rs:326-340 | succeeds if and only if Redis answers and the time to live has a whole second; the new state is a set step with a victim the policy allows, and failure changes nothing |
| `Cache.CacheService.GetAccountEvents` | src/infrastructure/cache_service.rs:354-400 | answers from the event cache, else from Redis with a refill |
| `Cache.CacheService.SetAccountEvents` | src/infrastructure/cache_service.rs:402-421 | stores the list in Redis and in the event cache or changes nothing |
| `Cache.CacheService.InvalidateAccount` | src/infrastructure/cache_service.rs:435-454 | always forgets the in-memory copies, and succeeds if and only if both Redis deletions do |
| `Cache.CacheService.CleanupPass` | src/infrastructure/cache_service.rs:194-199 | the pass over all shards keeps exactly the entries not past their time to live |
| `Cache.CacheService.WarmupCache` | src/infrastructure/cache_service.rs:456-510 | stores the accounts that have both values in Redis, does nothing while the flag is set, and leaves it set after an error |
| `Cache.EveryRunIsSound` | src/infrastructure/cache_service.rs:268-536 | every run of whole calls keeps entries in their home shard, shards within their size, and every copy equal to the last value set |
| `Cache.HitsAreFresh` | src/infrastructure/cache_service.rs:268-324 | in every run of whole calls a hit is the last value set since the last invalidation, and a value set at s for T is served only before s + T + default_ttl − 1 |
| `Cache.HorizonIsReached` | src/infrastructure/cache_service.rs:268-340 | that bound is sharp: for every value and positive times to live a run serves it one tick before |
| `Cache.EventHitsAreFresh` | src/infrastructure/cache_service.rs:354-400 | in every run of whole calls an event hit is the last list set since the last invalidation |
| `Cache.SetThenGet` | src/infrastructure/cache_service.rs:268-340 | round trip: the next lookup answers what was set, whatever was evicted for it |
| `Cache.InvalidateThenGet` | src/infrastructure/cache_service.rs:435-454 | after a successful invalidation both lookups miss |
| `Cache.GetThenGet` | src/infrastructure/cache_service.rs:268-324 | a lookup's expiry and refill do not change what the same lookup answers next |
| `Cache.LookupLeaves` | src/infrastructure/cache_service.rs:268-324 | a lookup leaves the entry it served as it was, a new entry after a refill, and no entry otherwise |
| `Cache.EventsAreRemembered` | src/infrastructure/cache_service.rs:354-421 | an event list that was set or found in Redis is answered from memory afterwards |
| `Cache.FailedSetsChangeNothing` | src/infrastructure/cache_service.rs:326-421 | a set that Redis does not answer, or for less than a second, changes nothing |
| `Cache.InterruptedInvalidation` | src/infrastructure/cache_service.rs:435-454 | an invalidation that fails midway has dropped the memory copies and made exactly the Redis deletions before the failure |
| `Cache.WarmupThenGet` | src/infrastructure/cache_service.rs:456-510 | the account warmed last is then served from memory and its events from the event cache, without Redis |
| `Cache.WarmupNeedsBoth` | src/infrastructure/cache_service.rs:456-510 | a warm-up stores an account and its events only if Redis has both, and otherwise skips it |
| `Cache.EventHitsNeverExpire` | src/infrastructure/cache_service.rs:354-400 | without an invalidation the event cache answers in every continuation, however late |
| `Cache.OneShardLookupSuffices` | src/infrastructure/cache_service.rs:512-514 | an entry anywhere in the cache is the one the home-shard lookup finds, and no shard exceeds its maximum |
| `Cache.HomesGoRound` | src/infrastructure/cache_service.rs:512-514 | successive ids go round the shards |
| `Cache.SweepIsInvisible` | src/infrastructure/cache_service.rs:194-199 | a cleanup pass changes no lookup's answer although it uses a different comparison |
| `Cache.SweepRemovesExactly` | src/infrastructure/cache_service.rs:194-199 | a cleanup pass removes exactly the entries older than their time to live |
| `Cache.VictimsByWriteTime` | src/infrastructure/cache_service.rs:538-565 | in every reachable state LRU and TTL choose the same victims, the least recently written, and LFU may choose any entry |
| `Cache.InitializeDisablesWarmup` | src/infrastructure/cache_service.rs:249-266 | with whole calls, after `initialize` a warm-up changes nothing in every continuation |
| `WarmupFlag.InitializeDisablesExactlyWhen` | src/infrastructure/cache_service.rs:249-266 | with warm-ups split at their awaits, a successful `initialize` keeps every later warm-up from beginning if and only if none is running, as when it found the flag clear |
| `WarmupFlag.OneWarmupAtATime` | src/infrastructure/cache_service.rs:456-510 | in every run at most one warm-up runs, and only while the flag is set |
| `WarmupFlag.WholeCallsFlag` | src/infrastructure/cache_service.rs:249-510 | in every run of whole calls the cache's warming flag is the flag of their steps |
| `CacheRaces.EveryRunIsSound` | src/infrastructure/cache_service.rs:268-510 | in every interleaving of half-finished gets, sets, warm-ups and invalidations, Redis holds only the last value set and every memory copy and every value about to be stored comes from a known earlier write |
| `CacheRaces.FreshExactlyWhen` | src/infrastructure/cache_service.rs:268-510 | in every such run, every memory hit at every moment is as new as every set and invalidation that has finished if and only if no half-finished call was overtaken by one of the same item, and no item was deleted while a lookup could still be served it |
| `CacheRaces.SettledAnswerIsLastSet` | src/infrastructure/cache_service.rs:268-421 | then, with no set of an item under way, whatever a lookup answers is the last value set and not deleted |
| `CacheRaces.OvertakenAnswerIsNotLastSet` | src/infrastructure/cache_service.rs:268-454 | and the first time a call is overtaken, with distinct values written, the next lookup answers a value that is not the last one set |
| `CacheTiming.DeletionOvertakenExactlyWhen` | src/infrastructure/cache_service.rs:435-454 | in every run a deletion leaves a deleted value served if and only if the item was put into memory after it was last dropped from it, and for an account that copy has not been evicted or expired |
| `CacheTiming.PunctualExactlyWhen` | src/infrastructure/cache_service.rs:268-340 | in every run of half-steps, however long one waits, an account from a write at s for T is served from memory only before s + T + default_ttl − 1 if and only if no memory half stored an account already expired in Redis |
| `CacheTiming.AnswersAreTimely` | src/infrastructure/cache_service.rs:268-340 | in every run of half-steps with nothing overtaken, nothing late and no set of the account under way, an answer is the last value set and is given before that bound |
| `CacheTiming.DelayedStoreServesExpiredValue` | src/infrastructure/cache_service.rs:326-340 | for every delay, a run in which a set's memory half comes that much later serves its value then, with the set's own stamp at time 0 |
| `CacheTiming.WholeCallsAreNeverLate` | src/infrastructure/cache_service.rs:268-340 | a get or set whose halves follow each other directly stores in time |
| `CacheTiming.OnwardExactlyWhen` | src/infrastructure/cache_service.rs:268-454 | in every run each answer about an item comes from a write no older than all answers before it if and only if no call stored something older than an answer already available |
| `CacheRaces.LateRefillServesOldValue` | src/infrastructure/cache_service.rs:268-340 | a run in which a refill read before a second set is stored after it, and with all calls finished a lookup answers the first value |
| `CacheRaces.OverlappingSetsServeOldValue` | src/infrastructure/cache_service.rs:326-340 | a run in which two overlapping sets store in the other order, and a lookup answers the older value |
| `CacheRaces.RefilledInvalidationServesDeletedValue` | src/infrastructure/cache_service.rs:435-454 | a run in which a lookup refills between the halves of an invalidation, and a lookup answers the deleted value |
| `CacheRaces.WholeCallsAreNeverOvertaken` | src/infrastructure/cache_service.rs:268-454 | a call whose halves follow each other directly is not overtaken |
| `CacheRaces.WholeGet` | src/infrastructure/cache_service.rs:268-324 | a whole lookup is its first half when memory answers or Redis is down or has nothing, and otherwise its halves one after the other |
| `CacheRaces.WholeSet` | src/infrastructure/cache_service.rs:326-340 | the halves of a set, one after the other, are the whole set step |
| `CacheRaces.WholeInvalidation` | src/infrastructure/cache_service.rs:435-454 | the parts of an invalidation, one after the other, are the whole invalidation step |
| `FixedWindow.RateLimiter.CheckRateLimit` | src/infrastructure/middleware.rs:62-92 | the in-place check creates, restarts or counts on the entry and answers as the step function |
| `FixedWindow.RateLimiter.CleanupExpiredLimits` | src/infrastructure/middleware.rs:94-99 | the cleanup keeps exactly the entries whose window is not over |
| `FixedWindow.CleanupKeepsExactly` | src/infrastructure/middleware.rs:94-99 | an entry survives a cleanup, unchanged, if and only if its window is not over |
| `FixedWindow.EveryRunIsSound` | src/infrastructure/middleware.rs:62-99 | in every run windows do not overlap, each opens with an accepted request, and the counter is the number of accepted requests in it |
| `FixedWindow.AtMostTwiceTheLimit` | src/infrastructure/middleware.rs:62-92 | any interval as long as the window holds at most 2·limit − 1 accepted requests of a client |
| `FixedWindow.BoundIsAttained` | src/infrastructure/middleware.rs:62-92 | for every configuration with a window of at least two ticks that bound is reached |
| `FixedWindow.LimitKeptExactlyWhen` | src/infrastructure/middleware.rs:62-92 | the limit itself is kept by every run if and only if the limit is at most one, there are no permits, or the window is at most one tick |
| `FixedWindow.BurstControlIsInert` | src/infrastructure/middleware.rs:62-92 | although each check takes a permit, every entry has all of them again after every run, so the burst size decides an answer only when it is zero |
| `FixedWindow.SweepsChangeNoAnswer` | src/infrastructure/middleware.rs:94-99 | removing all cleanups from a run changes no answer |
| `SlidingLog.RateLimiter.IsRateLimited` | src/infrastructure/rate_limiter.rs:38-46 | on the per-key logs the call is the check step of that key's track and answers whether that track is limited; all logs stay those of the tracks |
| `SlidingLog.RateLimiter.RecordRequest` | src/infrastructure/rate_limiter.rs:48-52 | on the per-key logs the call is the record step of that key's track; all logs stay those of the tracks |
| `SlidingLog.PrunedLogIsWindowOfHistory` | src/infrastructure/rate_limiter.rs:38-46 | in every run whose clock does not run backwards, whoever records what, a check leaves exactly the window of the whole history, and limits exactly when that window holds the burst |
| `SlidingLog.BurstBound` | src/infrastructure/rate_limiter.rs:38-52 | with at most m callers between check and record, any closed interval as long as the window holds at most burst + m − 1 requests |
| `SlidingLog.BurstBoundIsAttained` | src/infrastructure/rate_limiter.rs:38-52 | that bound is reached for every burst size and m from one up |
| `SlidingLog.BurstKeptExactlyWhen` | src/infrastructure/rate_limiter.rs:38-52 | the burst size itself is kept by every run if and only if callers check and record one at a time or the burst is zero |
| `CircuitBreaker.RedisBreaker.AllowRequest` | src/infrastructure/redis_abstraction.rs:295-313 | refuses exactly while open and younger than the reset time, and turns half open when it lets an open circuit through |
| `CircuitBreaker.RedisBreaker.RecordSuccess` | src/infrastructure/redis_abstraction.rs:315-324 | closes a half-open circuit and clears the counter, and does nothing otherwise |
| `CircuitBreaker.RedisBreaker.RecordFailure` | src/infrastructure/redis_abstraction.rs:326-332 | counts, and opens the circuit when the threshold is reached |
| `CircuitBreaker.AdmittedExactlyWhen` | src/infrastructure/redis_abstraction.rs:295-313 | a request is admitted if and only if the circuit is not open or its reset time has come, and only then does an open circuit become half open |
| `CircuitBreaker.CounterIsFailuresSinceRecovery` | src/infrastructure/redis_abstraction.rs:315-332 | in every run of undivided failures the counter is the number of failures since the last success that found the circuit half open |
| `CircuitBreaker.OpensExactlyAtThreshold` | src/infrastructure/redis_abstraction.rs:315-332 | under failures and successes alone a fresh circuit counts every failure and is open if and only if there was a failure and the threshold is reached |
| `CircuitBreaker.UninterruptedIsUndivided` | src/infrastructure/redis_abstraction.rs:326-332 | counting and then taking the lock at once is one undivided failure, if the threshold is reached or no earlier failure still waits for the lock |
| `CircuitBreaker.InStepExactlyFromOne` | src/infrastructure/redis_abstraction.rs:295-332 | with undivided failures, a circuit that is not closed has reached the threshold in every run, if and only if the threshold is at least one |
| `CircuitBreaker.FailureReopensHalfOpen` | src/infrastructure/redis_abstraction.rs:326-332 | with undivided failures one failure of a half-open circuit opens it again |
| `CircuitBreaker.ReopensExactlyWhen` | src/infrastructure/redis_abstraction.rs:326-332 | with the counter and the lock taken apart that holds in every run if and only if the threshold is at most one |
| `CircuitBreaker.NoRequestBeforeReset` | src/infrastructure/redis_abstraction.rs:295-313 | no continuation lets a request past an open circuit before its reset time, however calls interleave |
| `CircuitBreaker.HalfOpenAdmitsAll` | src/infrastructure/redis_abstraction.rs:295-313 | any number of requests in a row pass a half-open circuit |
| `DeadLetter.PollOnce` | src/infrastructure/kafka_dlq.rs:88-136 | one turn of the loop gives up, delivers, requeues or loses the head exactly as the step function does |
| `DeadLetter.ProcessDlq` | src/infrastructure/kafka_dlq.rs:88-136 | for every pattern of outcomes a finite queue drains, with each message delivered once or given up on after all its retries, or the loop ends at the first failed requeue with exactly that message missing |
| `DeadLetter.PollDecreasesWork` | src/infrastructure/kafka_dlq.rs:88-136 | every poll lowers the remaining work, although failed messages are requeued |
| `DeadLetter.PollConservesExactlyWhen` | src/infrastructure/kafka_dlq.rs:88-136 | a poll keeps every message queued, delivered or given up on exactly once if and only if it does not fail a requeue, and otherwise loses exactly the head |
| `DeadLetter.ConservedExactlyWhen` | src/infrastructure/kafka_dlq.rs:88-136 | after any polls every message is queued, delivered or given up on exactly once if and only if no requeue failed |
| `DeadLetter.EveryLoopHeadIsSound` | src/infrastructure/kafka_dlq.rs:88-136 | after any polls the metrics add up, every count and backoff is exact, at most one message is lost, and work plus polls never exceeds the initial work while the loop runs |
| `DeadLetter.EveryWaitIsExact` | src/infrastructure/kafka_dlq.rs:88-136 | after any polls every message, queued, delivered, given up on or lost, has waited exactly the backoffs of the retries it had |
| `DeadLetter.PolledTags` | src/infrastructure/kafka_dlq.rs:88-136 | where a poll puts the head of the queue in each case |
| `DeadLetter.FreshMessageLimits` | src/infrastructure/kafka_dlq.rs:63-136 | a message sent fresh is retried at most max_retries times and waits at most delay·(2^max_retries − 1) in all |
| `DeadLetter.FactorFitsExactly` | src/infrastructure/kafka_dlq.rs:88-136 | the 32-bit backoff factor fits for every retry if and only if max_retries is at most 32 |

## Left out

- HTTP handlers, authentication, tokens, passwords, input validation and metrics.
- Kafka and Redis transport, serialisation, connection pools, and reconnection; their answers are parameters.
- The lock-order hazards of the concurrent maps (a map guard held while the same shard is changed in the cache lookup and eviction).
- Retries of a save after transient database errors and after conflicts.
- Priorities and the event store's own version and event caches; the table is the only state.
- Event metadata, timestamps and schema versions; a row is a version and an event.
- Overflow of 64-bit versions and of decimal amounts.
- The projection tables' own batching and caches; a projection is the value the consumer reads.
- What the producer's cache-update message says; only whether it is sent.
- Incremental, cache-only and dead-letter recovery, and the replay of all accounts, which repeats the per-account replay.
- `delete_account` and `delete_account_events` as calls of their own; each is a lone `Delete` half-step.
- The periodic loops that trigger snapshots, cleanups and rebalancing; their passes are steps that may happen at any time.
- Floating point in the rebalancer, which is modelled over real numbers.
- The hash function; a key is its hash.
- OvertakingAcrossAccountsIsHarmless: does not state a converse for one choice of requests, because two rejected saves agree in any order; `OvertakingHarmlessExactlyWhen` states it for all choices.
- DividedFailureEscapes: is the family of runs behind `ReopensExactlyWhen` and has no row of its own.
- FlushBatch: does not model the transaction around a flush: tasks see each other's rows at once, and the commit is taken to succeed, although the answers are sent before it.
- HitsAreFresh: is about whole calls; for half-finished ones the same is `CacheTiming.AnswersAreTimely`, under the exact conditions of `FreshExactlyWhen` and `PunctualExactlyWhen`.
- EventHitsAreFresh: is about whole calls; for half-finished ones see `CacheRaces.SettledAnswerIsLastSet`.
- InitializeDisablesWarmup: is about whole calls; for running warm-ups see `WarmupFlag.InitializeDisablesExactlyWhen`.
- VictimsByWriteTime: takes the two clock reads of one store as one instant.
- CacheRaces.EveryRunIsSound: lets an eviction pick any entry, and leaves the warming flag to `WarmupFlag`.

# Verified model of the distributed cache gateway

The gateway of this repository is a small distributed system: several gateway processes, each with
its own L1 cache, one Redis that holds the shared L2 cache, two kinds of locks, the configuration
and the adaptive TTL snapshot, and one slow backend with its own admission control. This project
models those parts in Dafny and proves what they keep in every run.

`dafny verify dfyconfig.toml` checks everything.

## What is modelled, and how

Objects that the source updates in place under a mutex are classes, and their methods are the
critical sections: the L1 cache with its map and its doubly linked ring (`L1Cache.dfy`), the L2 cache
over its two Redis keys (`L2Cache.dfy`), the adaptive TTL controller (`AdaptiveTtl.dfy`), the
in-flight table (`SingleFlight.dfy`), the configuration store and the gateway's copy
(`ConfigVersions.dfy`), and the backend's latency recorder (`LoadSignals.dfy`). Each method is proved
against a value that the lemmas are about. The polling loop of a lock waiter is a method with its
loop (`LockWait.dfy`).

What several processes do together is a transition system: a state, a set of steps, and runs of any
length in any order. One step is one Redis command, one critical section or one local action.

| file | protocol |
|---|---|
| `DistributedLock.dfy` | requests racing for the backend lock of one key, with a global clock |
| `L2Commands.dfy` | the L2 operations of any number of requests, one Redis command at a time, left off anywhere |
| `AdaptiveTtlReplicas.dfy` | update loops and resets sharing the controller snapshot and its lock |
| `CacheFlow.dfy` | values moving from the backend to L2 and to every gateway's L1 |
| `SingleFlight.dfy` | leaders and followers on one gateway |
| `ConfigVersions.dfy` | reads, adoptions and updates of the configuration |
| `Semaphore.dfy` | backend requests under replaced semaphores |

Time is in whole nanoseconds. A Redis entry written with a deadline is live strictly before it. The
factor, latencies and thresholds of the controller are exact reals. Steps also cover what the source
can suffer: replies lost after the command took effect, failed reads, writes and releases, owners that
stall beyond their lock, canceled waiters, evictions and clears at any moment. History fields (who drew a
token, which calls were made, what was written) only record and never decide a step.

## Main results

- **Backend calls under the lock are disjoint in time** across gateways and for any mix of timeouts,
  provided each owner starts its timeout within the 2 ms margin; for every timeout and every larger
  delay there is an overlapping run, so the margin is exact.
- **One backend call per fill**: after an owner's store no lock-path request starts a call while the
  entry lives, if at the store neither that owner nor one already about to call had outlived its lock.
  A live entry keeps the backend quiet exactly when no owner has passed its re-check before.
- **The replicated TTL controller is one controller**: while nobody writes under a holder that works
  with what it has loaded, however long it takes, the writes to the shared snapshot are exactly one
  sequential run. One worker at a time is enough for that, and holders that finish their work, though
  not necessarily their release, inside their five seconds are enough for one worker at a time.
  Otherwise a stale update continues the run for every reading exactly when processing cannot tell the
  loaded value from the shared one; two holders that have loaded can always lose an update, and so can
  any overrun of the lock. Without any assumption on timing every snapshot is well formed and every copy
  was published.
- **Heavier load keeps the larger TTL factor while neither controller steps alone**, a condition on
  classifications and counters that is exact at every reading; it holds for streams classified alike,
  and two streams show that heavier load can otherwise end with the smaller factor.
- **LRU inclusion** for L1: a larger cache keeps every hit of a smaller one, expiry included; and any
  sequence of calls on the map and the ring is the run of lists that these theorems are about.
- **L1 keeps what LRU promises**: a key stored or answered once is answered again while fewer other keys
  than the bound are, and its own lookups come in time.
- **Copies never renew a value's life**, however often L2 values are copied to L1; and a filled value is
  found exactly as long as its TTLs say.
- **Answers are what was fetched**: under the lock, through the caches and through coalescing.
- **The L2 index covers the L2 store** under whole operations; a miss cut in two breaks this exactly
  when the key came to life in between. Command by command, with requests that leave at any point, a
  live key outside the index is still being stored or evicted, or was left so by one of four events.
- **Coalesced requests get one response; equal configuration versions mean equal configurations;
  semaphore tokens are conserved; the trimmed sample list is the filter of the history exactly when
  it is split, and its percentile is the nearest rank.**

Three things in the repository that a reader may not expect, all proved here: a gateway's
configuration version can go back (the test is for a different version, not a newer one), and an L2
TTL that the adaptive factor scales below one nanosecond becomes zero, which Redis keeps for ever: an
accepted configuration gets there in fifteen quiet readings, and such a value is found at any later time; and
an accepted `L2TTLSeconds` can wrap around to a negative TTL.
The validation of `AdaptiveTTLMaxFactor` against `AdaptiveTTLMinFactor` can never be the check that
rejects.

## Model

| member | source | states |
|---|---|---|
| `L1Cache.L1Cache.GetL1` | gateway/l1_cache.go:8-37 | on the map and the ring: a lookup hits exactly when the key is cached and neither deadline has passed, moves the entry to the front, and drops an expired one; it adds no element to the ring |
| `L1Cache.L1Cache.SetL1` | gateway/l1_cache.go:39-67 | a positive bound stores the value in front; a new key in a full cache evicts the last entry, a known key evicts nothing; the map and the ring stay in bijection |
| `L1Cache.L1Cache.RemoveL1LRU` | gateway/l1_cache.go:69-81 | exactly the entry at the back leaves the map and the ring |
| `L1Cache.L1Cache.ClearL1` | gateway/l1_cache.go:83-91 | map and ring are empty |
| `L1Cache.L1Cache.Drop` | gateway/l1_cache.go:27-28 | one entry leaves the map and the ring, the order of the others stays |
| `L1Cache.L1Cache.KeysUnique` | gateway/handler.go:22-23 | no key is listed twice, because map and list are in bijection |
| `L1Cache.Play` | gateway/l1_cache.go:8-91 | any sequence of lookups, stores and clears on a new cache object leaves the list of the specified run and gives its answers |
| `L1Cache.OrderList.Remove` | gateway/l1_cache.go:28 | unlinking one element leaves a well-formed ring of the others |
| `L1Cache.OrderList.PushFront` | gateway/l1_cache.go:64 | linking a new element behind the root |
| `L1Cache.OrderList.MoveToFront` | gateway/l1_cache.go:34 | the element becomes the first, the others keep their order |
| `L1Order.RunIsRecencyOrder` | gateway/l1_cache.go:8-91 | after any run the list is ordered by last touch, keys are unique and every entry carries the last value stored since the last clear |
| `L1Order.HitReturnsLastStored` | gateway/l1_cache.go:19-36 | a hit returns the last value stored since the last clear, never after either deadline |
| `L1Order.AnswersAreLastStored` | gateway/l1_cache.go:19-36 | every hit in a run is answered with the last value stored for its key since the last clear, within both deadlines |
| `L1Order.SetSize` | gateway/l1_cache.go:43-57 | the size after a store is at most the larger of the old size and the bound |
| `L1Retention.KeptKeyHits` | gateway/l1_cache.go:8-81 | a key stored or answered once is answered again, with the last stored value, while no clear comes, fewer other keys than the bound are stored or answered, and its lookups come within both deadlines |
| `L1Retention.MissLeavesNothing` | gateway/l1_cache.go:12-36 | a lookup is answered exactly when the key is cached and neither deadline has passed, and leaves the key out otherwise |
| `L1Retention.RoomKeepsAll` | gateway/l1_cache.go:43-57 | a store that finds room, or its key cached, keeps every other entry, and any store all but the last |
| `L1Order.VictimIsLeastRecentlyTouched` | gateway/l1_cache.go:55-81 | an eviction removes exactly one entry, the one touched before all others |
| `L1Inclusion.LargerCacheKeepsEveryHit` | gateway/l1_cache.go:8-91 | under one request stream the smaller list is an order-preserving part of the larger, and its hits are hits of the larger with the same value |
| `L1Inclusion.PlayIsRun` | gateway/l1_cache.go:8-91 | a stream played on a cache of a given bound is the run of operations that the map and the ring refine |
| `L1Inclusion.HitsGrowWithBound` | gateway/l1_cache.go:8-91 | the number of hits never falls when the bound grows |
| `L1Inclusion.HitsAreAnswers` | gateway/l1_cache.go:8-37 | that number is how many requests of the stream are answered |
| `DistributedLock.OneOwnerInTime` | gateway/distributed_lock.go:45-76 | in any run at most one owner is within its lock's time to live |
| `DistributedLock.LockLeavesByOwnerOrExpiry` | gateway/distributed_lock.go:21-107 | a live lock goes away at a step exactly when its own deadline passes or the request that drew its token releases it |
| `DistributedLock.ReleaseFrees` | gateway/distributed_lock.go:21-27 | an owner within its lock's time to live frees the lock at once by releasing |
| `DistributedLock.ReleaseHandsOver` | gateway/distributed_lock.go:149-166 | a waiter that looks after the release tries again and becomes the owner, one that looked before sleeps 25 ms |
| `DistributedLock.WaitsAndTenures` | gateway/distributed_lock.go:117-131 | how long a waiter goes on trying, and how long a lock it acquires lasts |
| `DistributedLock.OwnerServesWaiters` | gateway/distributed_lock.go:180-202 | the owner's reply reaches L2 exactly when it is a 2xx one, is live there exactly for its TTL, and meanwhile answers waiters and later owners |
| `DistributedLock.AnswersAreGenuine` | gateway/distributed_lock.go:143-202 | in every run an answer from the backend is the reply to this request's own call, and one from L2 has the bytes of a 2xx reply or of a store from elsewhere |
| `DistributedLock.OthersChangeL2` | gateway/early_refresh.go:100-116 | stores and evictions from elsewhere reach the same L2 entry |
| `DistributedLock.BackendCallsNeverOverlap` | gateway/distributed_lock.go:109-204 | if owners start their timeout within the safety margin, all backend calls of the lock path occupy disjoint intervals |
| `DistributedLock.EarlierCallsOver` | gateway/backend_fetcher.go:16-62 | when a prompt owner is about to call, every earlier call has reached its limit |
| `DistributedLock.LateStartCanOverlap` | gateway/distributed_lock.go:117-119 | for every timeout and every delay beyond the margin, however large, two calls overlap in some run |
| `DistributedLock.OneBackendCallPerFill` | gateway/distributed_lock.go:178-200 | after an owner's store no request starts a backend call while the entry stays live and re-checks of it succeed, if that owner and those about to call were within their locks at the store |
| `DistributedLock.FilledKeepsQuietExactly` | gateway/distributed_lock.go:180-188 | a live entry keeps every later request from calling the backend exactly when no owner has passed its re-check already |
| `DistributedLock.InvRun` | gateway/distributed_lock.go:109-204 | tokens, tenures and recorded calls are consistent in every reachable state |
| `LockWait.WaitForLockOrValue` | gateway/distributed_lock.go:109-168 | the waiting loop ends by the wait timeout or when the client goes away, owns the lock only through its one successful attempt, and attempts at most once in three ticks |
| `LockWait.OneTurn` | gateway/distributed_lock.go:127-166 | one turn either ends the wait with a result that the replies justify or takes at least three ticks, the lock being taken; when the replies come before the deadline they decide the result and its time |
| `LockWait.WaitEndExactly` | gateway/distributed_lock.go:117-122 | the wait ends 4 ms after the backend timeout or when the client goes away, whichever comes first |
| `GatewayConfig.AcceptedIsSound` | gateway/cache_config_handler.go:47-184 | the update endpoint accepts exactly the sound configurations, which the defaults leave unchanged; one check never decides |
| `GatewayConfig.VerdictIsFirstComplaint` | gateway/cache_config_handler.go:36-184 | the verdict is the first justified complaint in the order of the checks |
| `GatewayConfig.DefaultsRepair` | gateway/cache_config.go:32-54 | the defaults replace exactly the adaptive fields that are not positive, by the stated values |
| `AdaptiveTtl.Controller.ProcessSignals` | gateway/adaptive_ttl_controller.go:190-249 | one reading moves the controller's fields as the specified transition of its snapshot |
| `AdaptiveTtl.Controller.SetDisabled` | gateway/adaptive_ttl_controller.go:309-321 | the controller is back at its initial snapshot |
| `AdaptiveTtl.Controller.ApplySnapshot` | gateway/adaptive_ttl_controller.go:509-521 | the controller takes over a snapshot completely |
| `AdaptiveTtl.Controller.EffectiveCacheTtls` | gateway/adaptive_ttl_controller.go:523-541 | the TTLs are the configured ones scaled by the clamped factor, or unscaled when disabled; for a sound configuration whose seconds do not wrap they are ordered exactly when they fit a duration |
| `AdaptiveTtl.ProcessKeepsWellFormed` | gateway/adaptive_ttl_controller.go:200-244 | after one reading, whatever it found, counters are below their thresholds, never both positive and agreeing with the state, and the factor is in range |
| `AdaptiveTtl.ClassifyMonotone` | gateway/adaptive_ttl_controller.go:276-307 | more latency, more active requests and more samples never look less severe |
| `AdaptiveTtl.ClassifyExactly` | gateway/adaptive_ttl_controller.go:276-307 | when a reading is congested and when it is stable, in whole thresholds and tenths of them |
| `AdaptiveTtl.ReadingExactly` | gateway/adaptive_ttl_controller.go:190-249 | every field after a reading, with the sizes of the steps |
| `AdaptiveTtl.HysteresisBand` | gateway/adaptive_ttl_controller.go:283-304 | between stable and congested lies a tenth of a threshold |
| `AdaptiveTtl.StepsArePaidFor` | gateway/adaptive_ttl_controller.go:204-239 | two readings for every increase, three for every decrease, counters included |
| `AdaptiveTtl.FactorDriftBound` | gateway/adaptive_ttl_controller.go:200-239 | how far the factor can be from its clamped start after n readings |
| `AdaptiveTtl.CongestionRaises` | gateway/adaptive_ttl_controller.go:205-224 | from any start, which the first reading clamps, the factor under unbroken congestion lies between the weak and the strong closed form |
| `AdaptiveTtl.StabilityLowers` | gateway/adaptive_ttl_controller.go:226-239 | the exact factor under unbroken stability, from any start |
| `AdaptiveTtl.CongestionConverges` | gateway/adaptive_ttl_controller.go:205-224 | the maximum is reached within two readings per weak step of distance and kept |
| `AdaptiveTtl.StabilityConverges` | gateway/adaptive_ttl_controller.go:226-239 | the factor is at the minimum exactly from the stated reading on |
| `AdaptiveTtl.ReadingKeepsOrderExactly` | gateway/adaptive_ttl_controller.go:200-244 | a heavier reading keeps the order of any two factors exactly when it makes neither the lighter controller raise nor the heavier one lower alone, or the factor range is one point |
| `AdaptiveTtl.HeavierLoadLargerFactor` | gateway/adaptive_ttl_controller.go:200-244 | with no lone step on the way, heavier load reading by reading leaves a factor at least as large |
| `AdaptiveTtl.InStepExactly` | gateway/adaptive_ttl_controller.go:200-244 | having no lone step on the way is the same as keeping the order of any two factors at every reading |
| `AdaptiveTtl.AlikeLoadLargerFactor` | gateway/adaptive_ttl_controller.go:200-244 | so does heavier load whose readings are classified alike, from equal counters |
| `AdaptiveTtl.HeavierLoadSmallerFactor` | gateway/adaptive_ttl_controller.go:209-224 | two concrete streams, not in step, in which the heavier one ends with the smaller factor |
| `AdaptiveTtl.EffectiveTtlsExactly` | gateway/adaptive_ttl_controller.go:523-541 | both TTLs are the configured seconds times the factor in force, rounded down, as long as the larger fits a duration |
| `AdaptiveTtl.EffectiveTtlsOrdered` | gateway/adaptive_ttl_controller.go:523-541 | unless the configured seconds wrap around: L1 TTL at most L2 TTL and neither negative exactly when the scaled L2 TTL fits a duration, both within the factor range, and exactly when the L2 TTL is zero |
| `AdaptiveTtl.InSecondsExactly` | gateway/adaptive_ttl_controller.go:532-534 | the configured seconds survive as a duration exactly when they fit 63 bits of nanoseconds |
| `AdaptiveTtl.WrappedTtlIsNegative` | gateway/cache_config_handler.go:76-98 | a configuration that the update endpoint accepts and whose L2 TTL is negative |
| `AdaptiveTtl.QuietLoadZeroTtlExactly` | gateway/adaptive_ttl_controller.go:226-239 | enough quiet readings bring the L2 TTL to zero exactly when the minimum factor scales it below a nanosecond |
| `AdaptiveTtl.QuietLoadReachesZeroTtl` | gateway/cache_config_handler.go:120-157 | an accepted configuration whose L2 TTL is zero after fifteen quiet readings |
| `AdaptiveTtlReplicas.ReplicasActAsOneController` | gateway/adaptive_ttl_controller.go:358-586 | in every run in which no holder is disturbed the values written to the shared key are one run of one controller, and the key holds the last |
| `AdaptiveTtlReplicas.OneWorkerIsUndisturbed` | gateway/adaptive_ttl_controller.go:358-399 | with at most one actor at work at a time no holder is disturbed, however long it works |
| `AdaptiveTtlReplicas.TimelyReplicasActAsOneController` | gateway/adaptive_ttl_controller.go:401-413 | so the same holds when every holder finishes its work, if not its release, inside its five seconds |
| `AdaptiveTtlReplicas.StaleUpdateExactly` | gateway/adaptive_ttl_controller.go:370-396 | whatever was written since a holder loaded, its update continues the sequential run for every reading exactly when processing cannot tell the loaded value from the shared one |
| `AdaptiveTtlReplicas.TwoHoldersCanLoseUpdate` | gateway/adaptive_ttl_controller.go:358-399 | two holders that have both loaded, in any state, have an order of finishing that breaks the sequential run |
| `AdaptiveTtlReplicas.OverrunCanLoseUpdate` | gateway/adaptive_ttl_controller.go:358-413 | a holder that has loaded and outlives its lock by any time can have an update lost to or by any idle gateway |
| `AdaptiveTtlReplicas.ControllerLockLeavesByOwnerOrExpiry` | gateway/adaptive_ttl_controller.go:401-436 | the controller lock is freed at a step exactly by its deadline or its acquirer's release, with no timing assumption |
| `AdaptiveTtlReplicas.ReleaseFrees` | gateway/adaptive_ttl_controller.go:45-51 | a holder within its five seconds frees the lock at once by releasing |
| `AdaptiveTtlReplicas.ResetTakesEffect` | gateway/adaptive_ttl_controller.go:543-586 | a reset that gets the lock restarts the shared snapshot and its gateway's controller at factor one and frees the lock |
| `AdaptiveTtlReplicas.DisabledUpdate` | gateway/adaptive_ttl_controller.go:377-385 | a holder with a disabling configuration writes and applies the initial snapshot |
| `AdaptiveTtlReplicas.BusyLockMeansCopy` | gateway/adaptive_ttl_controller.go:364-366 | a gateway that finds the lock taken copies the shared snapshot and changes nothing else |
| `AdaptiveTtlReplicas.BusyLockMeansRetry` | gateway/adaptive_ttl_controller.go:582-584 | a reset that finds the lock taken tries again |
| `AdaptiveTtlReplicas.FailureEndsWork` | gateway/adaptive_ttl_controller.go:368-396 | a failure sends a holder to its release and ends anyone else's work, and changes no value |
| `AdaptiveTtlReplicas.CopiesArePublished` | gateway/adaptive_ttl_controller.go:498-521 | in every run, whatever a gateway applies was written to the shared key |
| `AdaptiveTtlReplicas.SnapshotsWellFormed` | gateway/adaptive_ttl_controller.go:438-483 | in every run the shared snapshot, all ever written, every gateway's controller and all about to be saved are well formed, so the load errors for an invalid one are unreachable |
| `AdaptiveTtlReplicas.SlowHolderLosesUpdate` | gateway/adaptive_ttl_controller.go:358-399 | a run in which a holder outlives its lock and two congested readings count as one |
| `AdaptiveTtlReplicas.InvRun` | gateway/adaptive_ttl_controller.go:358-586 | what each undisturbed holder knows about the shared value at each point of its work |
| `L2Cache.RoundTrip` | gateway/l2_cache.go:49-77 | storing and reading back keeps the bytes and moves the deadline and the recompute time back by less than a millisecond |
| `L2Cache.L2Cache.GetL2` | gateway/l2_cache.go:12-61 | a lookup hits exactly on live decodable data and touches the index; a miss leaves the index, undecodable data is deleted |
| `L2Cache.L2Cache.SetL2` | gateway/l2_cache.go:63-114 | a store leaves exactly as many members as the bound allows, having removed only members of least score, and with a moving clock never its own key |
| `L2Cache.L2Cache.RemoveL2LRU` | gateway/l2_cache.go:116-137 | the popped members of least score lose their data too |
| `L2Cache.L2Cache.ZPopMin` | gateway/l2_cache.go:117 | the popped members are a set of the asked size whose scores are the least |
| `L2Cache.L2Cache.ClearL2` | gateway/l2_cache.go:139-158 | every indexed key and the index are deleted |
| `L2Cache.IndexCoversStore` | gateway/l2_cache.go:12-158 | with whole operations every live key is indexed in every reachable state and ever after |
| `L2Cache.ItemIsLastStored` | gateway/l2_cache.go:63-93 | what the store holds for a key is what the last store of that key put there |
| `L2Cache.ScoreIsLastAsked` | gateway/l2_cache.go:40-43 | a score is the time of the last request that asked for the key |
| `L2Cache.StoredKeyStays` | gateway/l2_cache.go:95-113 | with a strictly increasing clock, after any execution, a store never evicts its own key |
| `L2Cache.RecentKeysStay` | gateway/l2_cache.go:105-137 | a store evicts no key while fewer keys than the bound have been asked for no earlier than it |
| `L2Cache.NextRetains` | gateway/l2_cache.go:12-158 | what is stored stays unless it is replaced, evicted, cleared, or found not to decode |
| `L2Cache.LiveKeysBounded` | gateway/l2_cache.go:105-113 | after a store at most `maxEntries` keys can be found |
| `L2Cache.ClearLeavesNothingLive` | gateway/l2_cache.go:139-158 | after a clear nothing can be found |
| `L2Cache.CoversLater` | gateway/l2_cache.go:89 | data expiring on its own never uncovers a key |
| `L2Cache.LateRemovalUncovers` | gateway/l2_cache.go:13-17 | the late half of a miss breaks the cover exactly when the key is live by then |
| `L2Cache.InterleavedMissUncovers` | gateway/l2_cache.go:13-17 | an interleaving in which it does, for any key, value and time to live |
| `L2Cache.LateRemovalSurvivesClear` | gateway/l2_cache.go:139-151 | a live key outside the index outlives a clear |
| `L2Cache.HitRestoresCover` | gateway/l2_cache.go:40-43 | the next lookup indexes such a key again, or deletes it if it does not decode |
| `L2Commands.UncoveredKeyAccounted` | gateway/l2_cache.go:12-158 | command by command, with operations left off anywhere, a live key outside the index is still to be indexed or deleted by a running operation, or has strayed |
| `L2Commands.OnlyTheseStray` | gateway/l2_cache.go:12-158 | a key strays only by a late ZREM, a failed DEL of a popped key, an operation cut before its ZADD or DEL, or a clear dropping the index |
| `L2Commands.IdleIndexCovers` | gateway/l2_cache.go:12-158 | with none of these and no operation running the index covers the store |
| `L2Commands.FailedDiscardStrays` | gateway/l2_cache.go:34-37 | a value that does not decode and cannot be deleted still leaves the index |
| `L2Commands.FailedDeletionMovesOn` | gateway/l2_cache.go:130-133 | an eviction that fails to delete one key goes on with the others |
| `L2Commands.CutStoreUncovers` | gateway/l2_cache.go:89-103 | a request that ends between SET and ZADD leaves its key live outside the index, from any state |
| `L2Commands.CutEvictionUncovers` | gateway/l2_cache.go:116-137 | one that ends between ZPOPMIN and DEL leaves every live popped key so |
| `L2Commands.ClearCanRaceStore` | gateway/l2_cache.go:139-158 | a clear leaves so a key that was stored since it listed the members |
| `L2Commands.LateCommandUncovers` | gateway/l2_cache.go:16 | a late ZREM or the end of a clear uncovers a key exactly when it is live |
| `L2Commands.GetAlone` | gateway/l2_cache.go:12-61 | without interleaving the commands of a lookup do what the whole operation does |
| `L2Commands.SetAlone` | gateway/l2_cache.go:63-137 | likewise those of a store, with whatever oldest keys it evicts |
| `L2Commands.ClearAlone` | gateway/l2_cache.go:139-158 | likewise those of a clear |
| `CacheFlow.L1HitWithinStampedLife` | gateway/handler.go:154-191 | an L1 hit is a 2xx reply to a request for that key, before its stamped L2 deadline, stamped with the L2 TTL of such a request, and within the L1 TTL with which a request on that gateway copied it |
| `CacheFlow.L2HitWithinSetLife` | gateway/handler.go:164-253 | an L2 hit is a 2xx reply to a request for that key, within the time to live of its SET, at most the L2 TTL with which such a request began; no deadline exactly for a zero TTL |
| `CacheFlow.AnswersAreReplies` | gateway/handler.go:206-254 | every cached or filled answer has the bytes of a 2xx reply to a request for the key asked for |
| `CacheFlow.ReplyFillsCaches` | gateway/handler.go:234-253 | a 2xx reply is answered and found again, in L2 exactly while its L2 TTL lasts, in the L1 of its gateway exactly while both TTLs last, and nowhere else |
| `CacheFlow.LaterRequestHitsL1` | gateway/handler.go:154-162 | a later request for the key on that gateway is answered with the reply from L1 exactly while both TTLs last |
| `CacheFlow.OtherRepliesFillNothing` | gateway/handler.go:225-239 | any other reply fills neither cache |
| `CacheFlow.L1Answers` | gateway/handler.go:154-162 | a value found in L1 is answered, and only otherwise is L2 asked |
| `CacheFlow.L2ValueIsCopied` | gateway/handler.go:165-191 | a value found in L2 is answered and found again in L1 exactly while its deadline and the L1 TTL last |
| `CacheFlow.L2AgainAnswers` | gateway/distributed_lock.go:143-184 | a waiter or owner that finds the value in L2 answers it |
| `CacheFlow.FailedPutStillAnswers` | gateway/l2_cache.go:89-93 | a failed write to L2 keeps neither the answer nor the L1 copy back |
| `CacheFlow.FailedRefreshKeepsValue` | gateway/early_refresh.go:70-85 | a failed early refresh answers with the value it found |
| `CacheFlow.RefreshReplacesValue` | gateway/early_refresh.go:86-116 | a successful one stores its reply until the deadline it was stamped with, or for the full TTL when that has passed |
| `CacheFlow.DroppedIsGone` | gateway/l1_cache.go:83-91 | what is dropped from L2 or cleared from an L1 is not found there, the rest stays |
| `CacheFlow.ZeroTtlNeverExpires` | gateway/l2_cache.go:89 | a run in which a reply stored for a TTL of zero is still found at any later time |
| `CacheFlow.InvRun` | gateway/early_refresh.go:46-117 | every value held anywhere, also during and after refreshes, is backed by a stamped reply |
| `SingleFlight.InFlightTable.GetOrCreateInFlight` | gateway/singleflight.go:95-110 | the first request for a key leads a new open call, later ones get the listed call |
| `SingleFlight.InFlightTable.FinishInFlight` | gateway/singleflight.go:112-128 | the call is closed with the result and no longer listed |
| `SingleFlight.EntriesAreOpenAndLed` | gateway/singleflight.go:95-128 | every listed call is open, for its own key, and has exactly one leader at work |
| `SingleFlight.WaitersAreServed` | gateway/singleflight.go:25-43 | a waiter's call is closed or still led |
| `SingleFlight.FetchesNeverOverlap` | gateway/singleflight.go:45-61 | at most one request leads a key on one gateway |
| `SingleFlight.FollowersAnswerAsLeader` | gateway/singleflight.go:28-74 | all requests answered through one call get the same response |
| `SingleFlight.AnswersAreFetched` | gateway/singleflight.go:28-74 | that is the status and bytes with which the fetch of the call's leader ended in the run, or a bad gateway exactly when that fetch failed |
| `SingleFlight.LeaderServesWaiter` | gateway/singleflight.go:28-74 | from the end of the leader's fetch, its answer, the close and a waiter's answer follow with that result |
| `SingleFlight.GivingUpChangesNothingElse` | gateway/singleflight.go:38-40 | a waiter whose client goes away leaves the call and everybody else as they were |
| `SingleFlight.ClosedOnceAndForever` | gateway/singleflight.go:112-128 | a call is closed once, by its leader while listed, and never changes again |
| `ConfigVersions.GatewayConfigStore.Initialize` | gateway/gateway_config_store.go:21-57 | existing data and version survive, missing ones are created, and the pair can be read afterwards |
| `ConfigVersions.GatewayConfigStore.Get` | gateway/gateway_config_store.go:59-114 | the pair with defaults applied, or an error when either key is missing |
| `ConfigVersions.GatewayConfigStore.Update` | gateway/gateway_config_store.go:116-152 | data and a version one higher, together; an accepted configuration is read back as it was given, with that version |
| `ConfigVersions.ConfigHolder.Adopt` | gateway/handler.go:264-274 | a different version replaces the copy and empties L1, an equal one changes nothing |
| `ConfigVersions.ConfigHolder.Install` | gateway/cache_config_handler.go:201-205 | the updated pair is installed and L1 emptied |
| `ConfigVersions.EqualVersionsMeanEqualConfigs` | gateway/handler.go:256-275 | each gateway's pair was published together, so equal versions mean equal configurations |
| `ConfigVersions.ReturnedConfigIsOfVersionRead` | gateway/handler.go:256-275 | a request is given the configuration of the version it read |
| `ConfigVersions.PublishedForEver` | gateway/gateway_config_store.go:116-152 | a published version stands for one configuration for ever |
| `ConfigVersions.VersionCanGoBack` | gateway/handler.go:259-272 | a run in which a gateway's version falls |
| `ConfigVersions.VersionGoesBackExactly` | gateway/handler.go:264-272 | a step takes a gateway back exactly when it brings an older version |
| `LoadSignals.Recorder.Record` | backend/handler/load_signals.go:27-44 | a sample is appended and the list trimmed for it, which filters exactly when the list is split there; in order, and not outside the window already, it keeps the list the window over the full history |
| `LoadSignals.Recorder.FirstRecent` | backend/handler/load_signals.go:49-54 | the binary search finds the split of the list if there is one |
| `LoadSignals.Recorder.RemoveExpired` | backend/handler/load_signals.go:46-71 | trimming drops a prefix, is filtering exactly when the expired samples come first, and keeps a window a window for any instant |
| `LoadSignals.Recorder.RecentRequestDurations` | backend/handler/load_signals.go:73-86 | the durations of the trimmed list, which stays the window over the full history for the latest instant |
| `LoadSignals.SuffixIsFilter` | backend/handler/load_signals.go:65-70 | keeping a suffix is filtering exactly at a split |
| `LoadSignals.OutOfOrderCannotBeTrimmed` | backend/handler/load_signals.go:30-33 | two samples landing out of order have no split |
| `LoadSignals.NearestRankIsP99` | backend/handler/load_signals.go:93-112 | the chosen sample is the smallest that 99 in 100 samples do not exceed |
| `LoadSignals.P99Unique` | backend/handler/load_signals.go:93-112 | there is one such sample, whatever the order of recording |
| `LoadSignals.CalculateP99LatencyMs` | backend/handler/load_signals.go:88-113 | zero without samples, otherwise that sample in milliseconds |
| `LoadSignals.DurationsAt` | backend/handler/load_signals.go:79-85 | one duration for every sample, in their order |
| `LoadSignals.RecentOfCounts` | backend/handler/load_signals.go:46-71 | the window holds every sample of the last fifteen seconds as often as it was recorded, and no other |
| `LoadSignals.GetLoadSignals` | backend/handler/load_signals.go:115-131 | the reply carries the active count, the semaphore capacity, and the percentile and count of the trimmed list, which stays the window over the full history |
| `Semaphore.TokensConserved` | backend/handler/handler.go:46-112 | tokens equal holders and stay within capacity for every generation; the active counter equals the requests inside and bounds all tokens |
| `Semaphore.RequestsUseLatestSemaphore` | backend/handler/handler.go:46-74 | a request is admitted unless the backend was last set unavailable, and waits for a token of the semaphore of the last accepted update, which it gets exactly while fewer than its size are out |
| `Semaphore.WaysOut` | backend/handler/handler.go:63-112 | giving up the wait and giving back the token both end a request's activity |
| `Semaphore.ReleaseNeverBlocks` | backend/handler/handler.go:63-74 | a holder can always give its token back, and sees a load between one and the capacity |
| `Semaphore.IdleMeansEmpty` | backend/handler/handler.go:49-72 | with nobody inside all semaphores are empty and the counter is zero |

## Left out

- `L1Cache.OrderList`: an element and the CacheEntry it points to are one object here, since nothing else refers to the entry; the length field of the list is left out.
- `L1Inclusion.LargerCacheKeepsEveryHit`: both caches see the same stores; in the gateway a miss decides whether a store follows.
- `DistributedLock`: one cache key, since lock keys are taken to be injective in cache keys; tokens are taken to be fresh; the proof rests on owners starting their timeout in time, which the source does not enforce.
- `DistributedLock.OneBackendCallPerFill`: says nothing of backend calls by early refresh, which takes no lock, and supposes that later owners' re-checks of the live entry succeed: after a failed one the source calls the backend.
- `LockWait.WaitForLockOrValue`: a failed L2 read counts as a miss, as in the source; the returned HTTP error texts are not modelled.
- `AdaptiveTtl`: factors are exact reals, so floating-point rounding of steps and thresholds is not modelled; a scaled TTL too large for a duration becomes the least one, as on common hardware, since the Go language leaves that conversion open.
- `CacheFlow`, `L2Cache`, `DistributedLock`: durations and instants are unbounded integers; that configured TTLs can wrap around is modelled in `AdaptiveTtl` only.
- `AdaptiveTtlReplicas`: one update loop per gateway process; the JSON coding of the snapshot is the identity.
- `L2Cache.L2Cache.SetL2`: scores are exact times, while the source stores nanoseconds as a float, which can tie; the rounding of a time to live to milliseconds by the Redis client is not modelled.
- `L2Cache.IndexCoversStore`: operations are whole, as for `SetL2` and `RemoveL2LRU`; commands that fail or interleave are the subject of `L2Commands`, where the order of the DELs of one eviction is arbitrary.
- `CacheFlow`: SingleFlight followers are absent because they touch no cache; the random choice of an early refresh is arbitrary, so its probability is not modelled.
- `ConfigVersions`: the store's JSON coding is the identity, and errors reading it end the request.
- `LoadSignals.Recorder.Record`: the list is shown to be the window only for timestamps in order, which concurrent recorders do not guarantee; without, it is a suffix of the history, trimmed exactly when it is split.
- `LoadSignals.CalculateP99LatencyMs`: 0.99 is 99/100, and the library sort is an insertion sort.
- `Semaphore`: the delays a request sleeps are not modelled, only the load they are computed from; fault injection is one flag.
- HTTP routing, the reverse proxy, CORS, middleware, metrics, logging and the FAF markers: input and output without a state of their own.
- The backend's answers, the network and Redis itself: a fetch yields any reply within its timeout, Redis executes commands one at a time.
- The frontend, the load scripts, the experiment and plotting scripts and the monitoring files.

# Verified model of go-backend-kit

A Dafny model of the self-contained protocols, schedulers and transformations of a Go backend kit, with proofs of
what they promise. Redis is an abstract server with atomic commands, time is an explicit `now`, and every send,
push or pop that can fail in the program fails here at the environment's choice. `dafny verify dfyconfig.toml`
checks everything.

| file | models |
|---|---|
| `Lock.dfy`, `LockRuns.dfy`, `LockRefresh.dfy` | the Redis lease lock: the Go methods, runs of many clients, and auto-refresh |
| `Cluster.dfy` | the rebalancer that migrates queued work between crawler nodes |
| `Breaker.dfy` | the circuit breaker, section by section |
| `Batch.dfy` | the batch completion counter |
| `RateLimit.dfy` | the sliding-window log and the fixed-window counter |
| `Flatten.dfy`, `Compaction.dfy` | JSON flattening; document key compaction and expansion |
| `Coordinator.dfy` | dispatch to nodes and the two assignment tables |
| `MemoryStorage.dfy`, `MemoryRuns.dfy` | the in-memory TTL store and what its cleanup may change |
| `Money.dfy` | splitting and allocating money |
| `Cleaner.dfy`, `Pipeline.dfy` | the cleaning, deduplicating and batching processors |
| `Values.dfy`, `Durations.dfy`, `Sequences.dfy`, `Sums.dfy`, `Arithmetic.dfy`, `Wrappers.dfy` | shared values and mathematics |

Code that changes state step by step is a class or method with loops, proved against functions of the old state
(`Server.Apply`, `Happen`, `Replay`, `Distribute`, `Shares`, ...). The properties are lemmas about those functions
over whole runs. An order that Go's map iteration leaves open is an arbitrary choice, and where it can show in the
result the contract allows every order.

Where the code and its documentation disagree, the model follows the code:

- The README of the decimal package and the Split test expect 33.34, 33.33, 33.33 for 100.00 in three. `Split` floors
  each share to whole units (`Money.Floor` has no places argument), so it gives 33.01 three times. `SplitConserves`
  states exactly which amounts are given out in full.
- The Allocate test expects the last of three equal parts to take the rounding difference. The comparison at line 339
  of `decimal/money.go` is strict, so the first largest part takes it.
- An error result is meant to lead to a retry. `handleTaskResult` deletes the pending entry before the failure path
  looks it up, so nothing is retried or recorded (`HandleTaskResult`); and what timeouts and dead nodes queue is a bare
  id, which dispatch cannot decode: the task keeps the assignment it had, if any, and gets no other
  (`BareIdIsNeverDispatched`).
- A lock extension of less than one second is sent as EXPIRE 0, which removes the key while the call reports success
  (`ExtendLock` with `WholeSeconds`, and `Server.Apply`).
- The batch middleware is meant to publish one event per completed batch. Its counter is deleted only after the
  event, so further results complete the batch again: one event per batch is certain if and only if batches have size 1
  or at most one batch's worth of results carries the id (`ExactlyOnceIff`).
- The rate limiters take any window, but one over a second that is not of whole seconds outlives its key, and a fixed
  window below a second shares its key with the next (`SlidingLogIsExact`, `FixedWindowIsExact`).

## Model

| member | source | states |
|---|---|---|
| DistributedLocks.DistributedLock.AcquireLock | lock/distributed_lock.go:38-70 | SETNX with the exact duration: granted exactly when the key is free or has lapsed; ExpiresAt is the reply time plus the duration; a failed connection, with the command executed or not, and a negative expiration are the error result |
| DistributedLocks.DistributedLock.ReleaseLock | lock/distributed_lock.go:73-104 | deletes the key exactly when a live entry holds this value, otherwise changes nothing; after an error either may have happened |
| DistributedLocks.DistributedLock.ExtendLock | lock/distributed_lock.go:107-142 | EXPIRE with whole seconds exactly when a live entry holds this value; only on that reply ExpiresAt moves, to a time after whatever others did meanwhile; after an error the key may have been prolonged, but ExpiresAt stays |
| DistributedLocks.DistributedLock.TryLock | lock/distributed_lock.go:241-262 | with up to maxRetries waits, in each of which other connections act arbitrarily: the key was held at every attempt before the last; the call is granted exactly if it is free at the last, which comes no later than maxRetries waits; it gives up only after maxRetries waits or a cancelled one; a failed connection ends it there |
| LockRuns.TryLockTakesFirstFree | lock/distributed_lock.go:241-262 | TryLock succeeds exactly when one of its attempts finds the key free, and refused attempts leave no trace on the server |
| LockRuns.LeaseIsServerTruth | lock/distributed_lock.go:38-142 | over every run with distinct values, what a client can conclude from its own replies is exactly what the server holds, deadline included |
| LockRuns.LapsedHolderIsHarmless | lock/distributed_lock.go:73-142 | over every run with distinct values, a client without the live lease neither deletes nor prolongs the lease of the client that has it |
| LockRuns.SharedValueOverlaps | lock/distributed_lock.go:146 | two clients with one value: a run of five steps after which two granted leases overlap |
| LockRuns.MutualExclusion | lock/distributed_lock.go:38-142 | the leases granted on the key are pairwise disjoint in every run of any clients, ticks and expiries if and only if the clients use pairwise distinct values |
| LockRefresh.HeldExactlyWhenTimely | lock/distributed_lock.go:283-332 | for every interleaving of caller, refresher, replies on the way, cancellations and other clients: the server holds the key for this value in every state from the grant to the release if and only if each renewal comes before the one before it runs out, a grant lasting the exact expiration and an extend its whole seconds |
| LockRefresh.AutoRefreshKeepsLease | lock/distributed_lock.go:283-332 | while renewals are in time it is one lease, nobody else is granted the key, the server's deadline is exactly the last renewal plus what it grants, ReleaseLock frees the key, and once the last renewal's reply is in ExpiresAt is at or after that deadline by less than the reply took plus one second |
| LockRefresh.LateMeansFree | lock/distributed_lock.go:301-329 | in the first state in which a renewal is late any other client that asks is granted the key while the call goes on |
| LockRefresh.SilentAfterRelease | lock/distributed_lock.go:301-329 | once ReleaseLock was executed the refresher sends no extend, in every interleaving, timely or not |
| LockRefresh.RefusedAttempts | lock/distributed_lock.go:242-259 | against a key that stays held each attempt uses up a retry, and the one after the last gives up |
| LockRefresh.FloorIsTight | lock/distributed_lock.go:117 | a gap of exactly the whole-second floor after an extend lets another client in, before the client's own ExpiresAt |
| Clusters.ClusterManager.RebalanceTasks | crawler/distributed/cluster.go:328-378 | the whole pass: the ideal is the truncated mean of the active nodes, with conservation, banding, gain and progress for it; the ideal that the next pass computes is the same; and every write that failed shows in the log |
| Clusters.Measure | crawler/distributed/cluster.go:344-367 | the ideal is the truncated mean of the active nodes; overloaded and underloaded are exactly the active nodes more than 10 above or below it, each once |
| Clusters.TruncDivIsMean | crawler/distributed/cluster.go:355 | the quotient toward zero is within one unit of the exact mean, on its near side of zero; MeanIsUnique shows that no other number is |
| Clusters.SumCounts | crawler/distributed/cluster.go:345-352 | the loop adds each active node once, in any order |
| Clusters.TotalGrows | crawler/distributed/cluster.go:344-352 | the total of which conservation speaks is the sum of the counters, node by node |
| Clusters.Classify | crawler/distributed/cluster.go:361-367 | the loop lists exactly the nodes outside the band of 10, without duplicates, in any order |
| Clusters.ClusterManager.MigrateTasksBetweenNodes | crawler/distributed/cluster.go:381-476 | for every pattern of pop, push and push-back failures the new state is reached by a log of moves, returns and losses that keeps everything LogKeeps states and has exactly the writes that failed; without pop failures and with long enough queues each source ends within the number of targets less one, plus failed pushes, of the ideal, or every target is full |
| Clusters.ClusterManager.MigrateFrom | crawler/distributed/cluster.go:387-473 | one node's turn: only its source gives and only targets below the ideal receive; the source ends at most at the ideal plus the targets already full when the turn began plus failed pushes, or every target is full |
| Clusters.ClusterManager.Pass | crawler/distributed/cluster.go:403-472 | one pass of the inner loop keeps the turn's invariant and spends one unit of the budget, or stops because the pop failed or found nothing |
| Clusters.ClusterManager.MoveTask | crawler/distributed/cluster.go:422-466 | what happens is one event, a move, a return or a loss, whose failed writes are exactly the commands that failed; nothing if there was nothing to pop or the pop failed |
| Clusters.EventEffects | crawler/distributed/cluster.go:422-466 | the popped id leaves the tail of its list for the head of the target's, the record names the target unless SET failed, and both counters move by one; on a failed push it goes back to the head of its own list, or is lost if that fails too |
| Clusters.LogKeeps | crawler/distributed/cluster.go:344-473 | every migration log conserves the multiset of queued and lost ids and the sum of the counters, moves each counter toward the ideal and never past it, lowers the total distance from the ideal by exactly 2 per move, and leaves every changed assignment record naming a node whose queue holds the id |
| Clusters.TurnKeepsProgress | crawler/distributed/cluster.go:387-473 | the per-turn bound survives all later turns |
| CircuitBreakers.CircuitBreakerMiddleware.Process | crawler/fetcher/middleware.go:322-372 | with arbitrary sections of other goroutines in each of its three gaps: rejected exactly when Open was read and, at the test, no more than the timeout had passed since the last failure; otherwise the outcome is returned and recorded, a failure being an error or a status of at least 500, after a half-open write if Open was read |
| CircuitBreakers.CircuitBreakerMiddleware.RecordResult | crawler/fetcher/middleware.go:351-369 | the result section appends one success or failure to the history that the fields replay |
| CircuitBreakers.CircuitBreakerMiddleware.WriteHalfOpen | crawler/fetcher/middleware.go:334-337 | the half-open section appends one probe to the history that the fields replay |
| CircuitBreakers.FieldsExplained | crawler/fetcher/middleware.go:354-369 | failures is the length of the trailing run of failed calls, successes that of the successes since the last failure or half-open write, never both positive; lastFailTime is the last failure; Closed keeps failures, and HalfOpen successes, below its threshold |
| CircuitBreakers.StateExplained | crawler/fetcher/middleware.go:335-368 | the state told without replay: Open after a failure that completed a run of failureThreshold, HalfOpen or Closed after a half-open write according to whether successThreshold consecutive successes followed it |
| CircuitBreakers.ClosingNeedsSuccesses | crawler/fetcher/middleware.go:362-368 | closing happens only on the last of successThreshold successes, all after the latest half-open write |
| CircuitBreakers.RunRefinesHistory | crawler/fetcher/middleware.go:322-372 | every interleaving of any number of requests, stale readers of Open included, leaves the breaker its history explains |
| CircuitBreakers.OpenCircuitFailsFast | crawler/fetcher/middleware.go:328-341 | once Open with nobody about to probe, until the timeout has passed since that failure only calls already in flight complete, each at most once, and the circuit stays Open |
| CircuitBreakers.OthersPass | crawler/fetcher/middleware.go:323-346 | a circuit that is not open lets a request through at once |
| CircuitBreakers.OpenCircuitRecovers | crawler/fetcher/middleware.go:328-341 | a request to an open circuit, uninterrupted, makes it half-open and goes through if and only if the timeout has passed since the last failure |
| CircuitBreakers.ProbePasses | crawler/fetcher/middleware.go:332-337 | a request that tests after the timeout goes on to its half-open write, whatever others do before and after the test, and then through |
| Batches.BatchAggregatorMiddleware.Process | crawler/distributed/batch_middleware.go:38-111 | undisturbed: a result without batch id publishes its own event; a batch result counts, and publishes and resets the counter exactly when it completes the batch; other batches are untouched |
| Batches.SequentialCount | crawler/distributed/batch_middleware.go:61-107 | k results of a batch of size B one after another publish exactly k/B events and leave the counter at k mod B |
| Batches.UninterruptedIsProcessOne | crawler/distributed/batch_middleware.go:61-107 | the three Redis steps of one processor, run together, are the sequential step |
| Batches.NoBatchMissed | crawler/distributed/batch_middleware.go:61-107 | for every interleaving and every pattern of INCR, publish and DEL failures: without a lapse at least (counted results)/B processors publish, none before B results were counted and at most one per result from the B-th on; each lapse forgets at most B-1 results |
| Batches.EveryBatchPublished | crawler/distributed/batch_middleware.go:88-107 | when all k processors have finished without failures: at least k/B events, none if k < B, exactly one if k = B, at most k-B+1 |
| Batches.EventComesLast | crawler/distributed/batch_middleware.go:88-98 | with B results the one completion event comes only after all B increments |
| Batches.LateResultPublishesAgain | crawler/distributed/batch_middleware.go:61-107 | for every k > B >= 2 a run to the end without failures that publishes k-B+1 events, more than k/B |
| Batches.ExactlyOnceIff | crawler/distributed/batch_middleware.go:61-107 | every run to the end without failures publishes exactly k/B events if and only if B = 1 or k <= B |
| RateLimits.RateLimitMiddleware.CheckRateLimit | middleware/ratelimit.go:106-157 | prunes, counts, adds and sets the expiry; allowed, remaining and reset time from the count before adding |
| RateLimits.RateLimitMiddleware.GetRateLimitStatus | middleware/ratelimit.go:204-228 | prunes and counts only |
| RateLimits.RateLimitMiddleware.FixedWindowRateLimit | middleware/ratelimit.go:160-196 | counts this request under the key of its window, with the expiry set by the first |
| RateLimits.WindowsAreAligned | middleware/ratelimit.go:169-171 | a window starts at a multiple of its length and contains the request |
| RateLimits.CountIsHistory | middleware/ratelimit.go:119-147 | on every ordered run of requests and status calls the pruned log is exactly the requests, allowed or not, of the last window |
| RateLimits.SlidingLogIsExact | middleware/ratelimit.go:119-147 | the pruned log counts what the full history would on every run if and only if the window is at most a second or of whole seconds |
| RateLimits.AllowedIsHistory | middleware/ratelimit.go:147 | a request is allowed exactly when fewer than Limit earlier requests lie in the window before it |
| RateLimits.SlidingWindowSafety | middleware/ratelimit.go:115-156 | no interval (t-W, t] contains more than Limit allowed requests |
| RateLimits.CounterIsExact | middleware/ratelimit.go:169-183 | for whole-second windows the counter is the number of earlier requests of its aligned window, and its key expires no earlier than that window ends |
| RateLimits.WindowBound | middleware/ratelimit.go:175-186 | each aligned window admits exactly its first Limit requests |
| RateLimits.FixedWindowIsExact | middleware/ratelimit.go:169-186 | for a positive window and limit, every aligned window admits exactly its first Limit requests on every run if and only if the window is of whole seconds |
| RateLimits.FixedWindowBound | middleware/ratelimit.go:169-195 | at most Limit allowed per aligned window and at most twice that in any half-open span as long as the window |
| Flattening.Flatten | crawler/extractor/json.go:297-329 | the recursive walk overwrites the caller's map with exactly the possible writes; with colliding keys some write of that key survives, by map order |
| Flattening.ExtractFlat | crawler/extractor/json.go:85-95 | the result map of the walk from the root |
| Flattening.LeavesAreValues | crawler/extractor/json.go:297-329 | the leaves are the values of the document that are no objects and lie above MaxDepth, arrays only with FlattenArrays off, and then nothing inside an array |
| Flattening.DecimalStarts | crawler/extractor/json.go:315 | indices are written without leading zeros |
| Flattening.WriteIsLeaf | crawler/extractor/json.go:302-328 | every write is a leaf above MaxDepth under its rendered path, for arbitrary keys |
| Flattening.LeafIsWritten | crawler/extractor/json.go:302-328 | every leaf above MaxDepth whose rendered path is not empty is written, for arbitrary keys |
| Flattening.ParseRender | crawler/extractor/json.go:305-315 | a rendered path reads back as the path if and only if none of its keys contains a dot or opening bracket and it does not start with an empty key |
| Flattening.FlattenIsFaithful | crawler/extractor/json.go:85-95 | for every document, map order and FlattenArrays: the entries are exactly the non-root leaves above MaxDepth, each under its own key, and reading a key as a path reaches the stored value, if and only if every such leaf has a path as in ParseRender |
| Flattening.DelimiterFreeIsReadable | crawler/extractor/json.go:302-328 | keys without delimiters, empty ones included except at the root, suffice for that |
| Flattening.CollidingKeys | crawler/extractor/json.go:305-309 | with a dot in a key two leaves share one flattened key |
| Compaction.CompactThenExpand | crawler/compression/storage_optimizer.go:186-215 | the expansion table undoes each of the 28 entries of the compaction table |
| Compaction.ExpandThenCompact | crawler/compression/storage_optimizer.go:285-314 | the compaction table undoes each of the 28 entries of the expansion table |
| Compaction.CodesAbbreviate | crawler/compression/storage_optimizer.go:186-215 | which 28 keys have a code; each code is shorter than its key and starts with the same letter |
| Compaction.CodesAreDistinct | crawler/compression/storage_optimizer.go:186-215 | no two keys have the same code |
| Compaction.CompactDocumentKeys | crawler/compression/storage_optimizer.go:185-249 | every key with a code gives way to it and every other key stays; at every depth visited the result is marked and has no key left that has a code; maps directly inside arrays are visited, arrays inside arrays are left alone; with two keys of one name either value may stay |
| Compaction.ExpandDocumentKeys | crawler/compression/storage_optimizer.go:284-350 | every code gives way to its key and every other key but the mark stays; at every depth visited the result has no mark and no code left, with the same visiting rule |
| Compaction.CompactedIsPacked | crawler/compression/storage_optimizer.go:217-249 | a visited map of a compacted document, at any depth, is marked and has no key that has a code |
| Compaction.ExpandedIsUnpacked | crawler/compression/storage_optimizer.go:316-350 | a visited map of an expanded document, at any depth, has neither the mark nor a code |
| Compaction.RoundTrip | crawler/compression/storage_optimizer.go:185-350 | expanding a compacted document restores it if and only if no visited map has a key that is a short code or the mark |
| Coordinators.Coordinator.DistributeTaskBatch | crawler/distributed/coordinator.go:177-232 | pops min(BatchSize, queue length) payloads, all but the last -BatchSize if it is not positive, and offers position i to active node i modulo their number, for any pattern of send failures, all of which show in the result |
| Coordinators.Coordinator.HandleTaskResult | crawler/distributed/coordinator.go:460-517 | removes the id from both tables and, error or not, neither requeues it nor records a failure |
| Coordinators.Coordinator.HandleTaskFailure | crawler/distributed/coordinator.go:520-569 | while RetryCount < MaxRetries the count goes up, the status is retrying and the bare id is queued; else the status is failed and a failure is recorded; unknown ids are ignored |
| Coordinators.Coordinator.CheckTaskTimeouts | crawler/distributed/coordinator.go:407-429 | applies the failure step once to exactly the pending tasks that started more than the timeout ago, in any order |
| Coordinators.Coordinator.CheckAndReassignTasks | crawler/distributed/coordinator.go:615-658 | exactly the pending ids assigned to nodes dead for more than 60 seconds lose their assignment, and their bare ids are queued |
| Coordinators.DispatchConserves | crawler/distributed/coordinator.go:200-231 | with distinct ids: the queue becomes its old tail followed by the unsent payloads in order, each sent entry is in both tables under the node of its position, and no other entry of either table moves |
| Coordinators.RoundRobinIsFair | crawler/distributed/coordinator.go:210-212 | of k popped payloads each of n active nodes is offered those at k/n positions, and the first k mod n of them one more |
| Coordinators.DispatchIsFair | crawler/distributed/coordinator.go:200-231 | a batch of distinct tasks that are all sent leaves each node with exactly that share of them in taskAssignments |
| Coordinators.AssignedIsPending | crawler/distributed/coordinator.go:361-365 | in every run every key of taskAssignments is in pendingTasks |
| Coordinators.BareIdIsNeverDispatched | crawler/distributed/coordinator.go:543-654 | once a task was dispatched and only its bare id is queued, as after a timeout or the death of its node, no run makes or changes its assignment unless it is submitted anew, and it stays pending until a result arrives |
| Coordinators.FailuresUseUpRetries | crawler/distributed/coordinator.go:520-569 | over every run in which a pending task whose payload is not queued is not submitted anew and gets no result: of k failures the first max(MaxRetries - RetryCount, 0) are retried, each queueing its bare id once, and there is a failure record if and only if there was one or k is larger |
| Moneys.Sum | decimal/money.go:248-254 | the loop computes the sum |
| Moneys.Split | decimal/money.go:280-305 | the two loops fill the slice with the shares, empty for n at most 0 |
| Moneys.SplitShape | decimal/money.go:286-302 | every share is the whole units of m/n or one cent more, larger ones first, and they sum to n times those units plus min(whole cents left, n) cents |
| Moneys.SplitConserves | decimal/money.go:280-305 | the shares never exceed m, and equal it if and only if the remainder after whole units is a whole number of cents no larger than n |
| Moneys.HundredByThree | decimal/money.go:280-305 | 100.00 in three gives 33.01 each, 99.03 together |
| Moneys.Allocate | decimal/money.go:308-347 | the rounded proportional parts, the first largest of them moved by the rounding difference; zeros if the ratios sum to zero |
| Moneys.LargestIndex | decimal/money.go:337-342 | the loop finds the first of the largest parts |
| Moneys.RoundError | decimal/money.go:329 | a rounded amount is a whole number of cents, nearest to the amount, the one farther from zero of two equally near |
| Moneys.RoundIsUnique | decimal/money.go:329 | and no other amount is |
| Moneys.RoundShares | decimal/money.go:326-331 | the loop computes the rounded shares and their sum |
| Moneys.AllocateConserves | decimal/money.go:326-346 | if the ratios do not sum to zero the parts sum to exactly m, every unadjusted part is its proportional share to the nearest cent, the adjustment is at most half a cent per part, and if m is in whole cents all parts are |
| MemoryStorages.MemoryStorage.StoreWithTTL | crawler/storage/memory.go:38-50 | sets the value, and the expiry only for a positive lifetime |
| MemoryStorages.MemoryStorage.Get | crawler/storage/memory.go:53-72 | a hit exactly when the key is stored and its expiry has not passed |
| MemoryStorages.MemoryStorage.Exists | crawler/storage/memory.go:87-102 | agrees with Get |
| MemoryStorages.MemoryStorage.BatchStore | crawler/storage/memory.go:105-117 | every item is stored for a day from now and nothing else changes, in any order |
| MemoryStorages.MemoryStorage.BatchGet | crawler/storage/memory.go:120-143 | pointwise equal to Get |
| MemoryStorages.MemoryStorage.Query | crawler/storage/memory.go:146-175 | the values of exactly the entries that have not expired and whose full key starts with the full pattern, if that is not empty, each once |
| MemoryStorages.MemoryStorage.Count | crawler/storage/memory.go:178-201 | counts entries before their expiry and entries without one |
| MemoryStorages.MemoryStorage.Cleanup | crawler/storage/memory.go:236-247 | the loop removes exactly the entries whose expiry has passed, and keeps the ttl keys within the data keys |
| MemoryRuns.CleanupIsInvisible | crawler/storage/memory.go:38-249 | on every run with ordered times, cleanups inserted anywhere change no answer of Get, Exists, BatchGet, Query or Count, provided no store without lifetime meets an entry whose old expiry has passed |
| MemoryRuns.PositiveLivesAreCareful | crawler/storage/memory.go:45-47 | the proviso holds for every run whose stores all have a positive lifetime |
| MemoryRuns.CarelessStoreTells | crawler/storage/memory.go:43-47 | and it is needed: after such a store an immediate Get tells whether a cleanup ran just before |
| MemoryRuns.CountIsExists | crawler/storage/memory.go:178-201 | Count falls short of the number of keys that Exists accepts by exactly the keys that expire at this instant |
| MemoryRuns.ServedForItsLifetime | crawler/storage/memory.go:38-72 | on every run with ordered times a value stored with a positive lifetime is served exactly until that has passed, whatever happens under other keys and whenever cleanups run |
| Cleaners.Process | crawler/pipeline/processors.go:39-50 | the recursive walk computes the cleaned value |
| Cleaners.CleanMap | crawler/pipeline/processors.go:68-88 | the map loop, in any order: exactly the keys stay whose value is not a string that cleans to nothing under RemoveEmpty, and the strings among the values are cleaned |
| Cleaners.CleanSlice | crawler/pipeline/processors.go:90-110 | the slice loop |
| Cleaners.CleanStringIsClean | crawler/pipeline/processors.go:52-66 | trimmed, single blanks only, one case, as far as each flag asks |
| Cleaners.CleanStringKeepsText | crawler/pipeline/processors.go:52-66 | only white space is taken away; the other characters stay in order, case aside |
| Cleaners.CleanStringKeepsWords | crawler/pipeline/processors.go:52-66 | no word is lost, joined, split or reordered, case aside |
| Cleaners.CleanStringCutsEnds | crawler/pipeline/processors.go:52-66 | without NormalizeSpace only white space at the ends is cut, and none without TrimSpace |
| Cleaners.CleanIsCleanedFrom | crawler/pipeline/processors.go:39-110 | at every depth: the same keys and, at the positions that survive, the same items, those of emptied strings aside under RemoveEmpty; every string cleaned; everything else as it was |
| Cleaners.CleanRemovesEmpty | crawler/pipeline/processors.go:75-100 | with RemoveEmpty no map or slice at any depth holds an empty string |
| Cleaners.CleanIdempotent | crawler/pipeline/processors.go:39-110 | cleaning twice is cleaning once, for every flag combination and every nested value |
| Pipelines.DeduplicatorProcessor.ProcessSlice | crawler/pipeline/processors.go:236-249 | the loop passes what is new and remembers every key |
| Pipelines.DeduplicatorProcessor.ProcessMap | crawler/pipeline/processors.go:228-234 | a single map behaves as a slice of one |
| Pipelines.ChunksDoNotMatter | crawler/pipeline/processors.go:226-254 | over any split of the input into slices, each call starting from the keys the call before it left, the outputs join to the output on the whole |
| Pipelines.UniqueIsFirstOccurrences | crawler/pipeline/processors.go:236-249 | the output is the input at exactly the positions of the first occurrence of each key and of the items that are no maps, in order |
| Pipelines.BatchProcessor.Process | crawler/pipeline/processors.go:424-434 | adds the item and hands over the batch when it is full |
| Pipelines.BatchProcessor.FlushBatch | crawler/pipeline/processors.go:437-444 | hands over what waits, if anything |
| Pipelines.BatchesAreTheInput | crawler/pipeline/processors.go:424-444 | the batches handed over plus the waiting items are the whole input in order, and no batch exceeds its size |
| Pipelines.FlushedIsAll | crawler/pipeline/processors.go:437-444 | after a flush nothing waits and the batches handed over are all inputs in order |
| Pipelines.UnflushedBatchesAreFull | crawler/pipeline/processors.go:427-431 | without a flush every batch is full, so n inputs make n/size batches and leave n mod size waiting |

## Left out

- DistributedLocks.DistributedLock.AcquireLock: an expiration of 0 means no deadline and a negative one is an error reply, as Redis has it; the client library's special value of minus one nanosecond and its rounding of fractional seconds to milliseconds are not modelled.
- DistributedLocks.DistributedLock.ExtendLock: the conversion through a 64-bit float in `Seconds()` is exact here; for durations of months it can round up.
- LockRuns.MutualExclusion: a command that never reaches Redis changes nothing and is not a step; in runs of many clients a reply that is lost after the server executed the command is not modelled (the methods do model it); all clocks are one clock.
- LockRefresh.HeldExactlyWhenTimely: a lost reply is the caller giving up or the refresher returning; a request that the server executes only after its caller gave up on it is not modelled.
- RateLimits.CounterIsExact: only whole-second windows; by `FixedWindowIsExact` no other window counts right.
- RateLimits.RateLimitMiddleware.CheckRateLimit: the four pipelined commands run without another client's commands between them, and scores are exact integers; an unparsable window or a Redis error, on which the handler lets the request pass, is not modelled.
- RateLimits.RateLimitMiddleware.FixedWindowRateLimit: windows of zero or negative length.
- RateLimits.SlidingLogIsExact: requests at equal times, which share one member of the sorted set. The lifetime of a key (`KeyTtl`) is the client library's: whole seconds, but one second for a positive window below that.
- Clusters.ClusterManager.MoveTask: a push or pop that reports an error was not executed; one whose reply was lost after the server executed it is not modelled.
- Clusters.ClusterManager.RebalanceTasks: the source dereferences the metrics of every active node, so active nodes are required to have them; two passes running at once are not modelled.
- Flattening.Flatten: numbers are exact reals, and parsing the JSON text is not modelled.
- Coordinators.Coordinator.AssignTaskToNode: building the protobuf message, and the assignment record in Redis that nothing reads back.
- Coordinators.Coordinator.HandleTaskResult: the scheduler update, the stored result, the middleware chain and seed expansion, which touch neither the queue nor the tables of this model except by submitting anew.
- Moneys.SplitShape: the quotient is an exact real; the decimal library rounds it to 16 places.
- Moneys.AllocateConserves: the ratio quotient is an exact real where the source goes through a 64-bit float.
- Cleaners.CleanIdempotent: strings are ASCII.
- Pipelines.ChunksDoNotMatter: the key function is a parameter; `%v` formatting and MD5 are not modelled.
- Pipelines.BatchProcessor.Process: a negative batch size, on which the constructor panics, and the processor function's own result.
- Batches.EveryBatchPublished: all results of a batch carry the same size, at least 1; with a smaller size every result publishes, as with 1.
- Batches.ExactlyOnceIff: runs in which a command fails or the key lapses are bounded by `NoBatchMissed` only.
- MemoryStorages.MemoryStorage.Get: expired and unknown keys are both a miss; the source words the two errors differently.
- `extractPaths`, `extractSchema`, the JSON transforms and `RestoreDocument`: easier walks of the same kind, and compression.
- `electLeader`, node health, registries, and the `crawler/task` package.
- The retry, cache, throttle and header middlewares, the validating, transforming, filtering and enriching processors.
- `WithLock`, `WithLockT`, `IsLocked`, `GetLockInfo`: an acquire, a call and a release, or plain reads.
- HTTP, gRPC, databases, message queues, logging, monitoring, configuration and JWT: plumbing around libraries.

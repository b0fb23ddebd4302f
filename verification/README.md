# Verified models of the shared-library cores

This project models five groups of code of a Go service library and proves what they are for:

- **Eviction caches** (`cache/lfu.go`, `cache/lru.go`, `cache/fifo.go`). Nodes and lists are heap objects with
  `prev`/`next`/`head`/`tail` fields. Ghost state ties them to a model on values, and the model is proved to answer
  every run of Get, Set and Delete as a flat map does that scans for the least entry when it must evict.
- **Idempotency** (`idempotency/postgres.go`, `idempotency/memory.go`, `idempotency/middleware.go`). The PostgreSQL
  store is a transition system over single SQL statements with stale clock samples, lost replies and failures. The
  memory store is an object whose responses live on the heap; the middleware drives it, request against request.
- **Circuit breakers** (`circuitbreaker/ratio.go`, `circuitbreaker/consecutive.go`). Admission and result are separate
  steps, so results of old calls arrive at any later time. Both breakers are refinements of one shared gate.
- **Rate limiters** (`ratelimit/token_bucket.go`, `ratelimit/sliding_window.go`, `db/ratelimit.go`). Many callers share a
  registry of buckets with identities, one critical section at a time. Bounds on what is admitted in any interval, and
  the exact conditions under which collecting idle keys cannot be noticed.
- **Worker pool and calendar** (`workerpool/workerpool.go`, `timeutil/timeutil.go`). A submit/close/drain protocol with
  its conservation law and progress, and civil-day and business-day arithmetic against walking one day at a time.

Time is an integer read from a clock that does not run backwards (the PostgreSQL limiter needs no such assumption). A
block under a mutex and a single SQL statement are one step. Clocks, contexts, handler results and map iteration order
are parameters, actions or nondeterministic choices. Each object-level method is proved against a function on values,
and the whole-run theorems are about those functions.

## Where an expected property has an exact condition

| property | holds exactly when | member |
|---|---|---|
| one live lease per key in PostgreSQL, when callers finish within their lease and nobody deletes the row | `lockTTL <= responseTTL` | `Lease.ExclusionIffLeaseFitsRow` |
| one request per key runs the handler over the memory store | there is neither a lock timeout nor a cap on entries | `MemoryModel.ExclusionIff` |
| the memory store makes room for a new key | it has room, or expired records to spare, or is just full and the empty key is not its oldest live record | `MemoryStore.RoomIffEmptyKeyNotOldest` |
| `halfOpenInFlight` is the number of probes in flight | one probe is allowed and no probe ends its goroutine with runtime.Goexit | `RatioBreaker.ExactIffOneProbe`, `ConsecutiveBreaker.ExactIffOneProbe` |
| a trip keeps calls out until more than `resetTimeout` later | one probe is allowed | `RatioBreaker.TripHoldsIffOneProbe`, `ConsecutiveBreaker.TripHoldsIffOneProbe` |
| collecting idle token buckets goes unnoticed by AllowN and Reset, calls taking no time and none straddling a collection | `capacity*refillRate <= idleTimeout + 1` | `TokenLimiter.UnnoticedIff` |
| the same when Remaining is called as well, or when calls take time | `refillRate` is one clock unit and `capacity <= idleTimeout + 1` | `TokenLimiter.UnnoticedIff` |
| collecting idle sliding windows goes unnoticed by every operation, however calls overlap, none straddling a collection | `window <= idleTimeout + 1` and `limit*(2*window - idleTimeout - 1) < window` | `SlidingLimiter.UnnoticedIff` |
| either limiter's collection goes unnoticed by calls that may straddle it | never: one call that holds its bucket across a collection, in a run that is disciplined otherwise, doubles what is granted | `TokenLimiter.OrphanedBucket`, `SlidingLimiter.OrphanedEntry` |
| the token bucket's rate bounds survive collection, however calls overlap, none straddling a collection | `capacity*refillRate <= idleTimeout + 1` | `TokenLimiter.RateBoundIff` |
| a sliding window admits at most `limit`, and an interval of its length at most `2*limit`, with collection, none straddling one | `window <= idleTimeout + 1` | `SlidingLimiter.WindowBoundsIff` |
| what the PostgreSQL limiter grants at one instant is bounded | the window is a millisecond or more | `PgLimiter.InstantBoundIff` |
| when StopWait returns no accepted task is left | fewer tasks call runtime.Goexit than there are workers | `WorkerPool.LeavesNothingIff` |
| the PostgreSQL limiter's Remaining is what the next request gets | the window survives conversion to whole seconds (or milliseconds) | `PgLimiter.HonestIffWholeUnits` |
| BusinessDaysBetween inverts AddBusinessDays | the start is a weekday or `n <= 0`, and `n` is within one million either way | `BusinessDays.AddThenCount` |
| AddBusinessDays is the walk of `n` days | `n` is within one million either way | `BusinessDays.ClampExact` |

Each is an equivalence, except where it says never: outside its condition some run or input breaks the property. Three
more findings. A breaker with one probe whose probe ends its goroutine with runtime.Goexit stays half-open and refuses
every call for ever (`BreakerGate.VanishedProbeRefusesForever`). Over a memory store without a lock timeout, a request
whose context is done when it closes its record, or whose handler ends with Goexit, locks everybody out of its key
(`MemoryModel.LostRequestLocksOut`). The flag that the PostgreSQL limiter's SQL returns is true whenever a row comes
back, so only the WHERE clause decides (`PgLimiter.FlagIsTrue`).

A call of an in-process limiter is up to three critical sections: look-up under the read lock, collection and creation
under the write lock, and use under the bucket's own lock. A run without straddling calls is one in which no collection
takes a bucket that a caller holds, and no Reset of a key falls between a caller's failed look-up of it and the making
of its bucket. `TokenLimiter.OrphanedBucket` and `TokenLimiter.ResetBetween`, and their sliding-window counterparts,
show that neither restriction can be dropped for any configuration.

## Model

| member | source | states |
|---|---|---|
| NodeLists.NodeList.PushFront | cache/lfu.go:30-41 | pointer surgery at the head: the list becomes the node followed by the old nodes, all neighbour links consistent, length exact |
| NodeLists.NodeList.Remove | cache/lfu.go:43-59 | unlinking at head, middle or tail: exactly that node disappears, the rest keep their order and links, and the node is fully detached |
| NodeLists.BridgedIsLinked | cache/lfu.go:43-56 | joining the two neighbours of a removed node leaves a properly linked list of the others |
| NaiveCache.EvictTakesLeast | cache/lfu.go:252-262 | the reference's scan for the least rank has one candidate, so a cache that evicts a least entry evicts the same key |
| LfuModel.RemoveValid | cache/lfu.go:242-250 | a removal may leave minFreq on an empty bucket but keeps it a lower bound and leaves the cache below capacity |
| LfuModel.BumpValid | cache/lfu.go:230-240 | moving a key up one bucket keeps minFreq a lower bound, and exact when the cache is full |
| LfuModel.EvictIsRemove | cache/lfu.go:252-262 | eviction removes the last key of the bucket that minFreq names, a key stored with that frequency |
| LfuModel.FullHasVictim | cache/lfu.go:153-165 | whenever Set evicts, minFreq names a nonempty bucket, and there is room afterwards |
| LfuModel.StepValid | cache/lfu.go:111-262 | every call keeps: each key in exactly the bucket of its frequency and once, minFreq a lower bound and exact when full, size within capacity |
| LfuRefinement.VictimIsLeast | cache/lfu.go:252-262 | the tail of the minFreq bucket has the least (use count, last touch) of all entries |
| LfuRefinement.StepAgrees | cache/lfu.go:111-212 | one Get, Set or Delete, expiry included, gives the same answer as the scanning reference and keeps the correspondence |
| LfuRefinement.RunAgrees | cache/lfu.go:111-262 | the same over every sequence of calls from corresponding states |
| LfuRefinement.LfuRefinesScan | cache/lfu.go:111-262 | from an empty cache: same answers, same surviving keys, never over capacity, minFreq sound at the end of every run |
| LfuCache.Cache.constructor | cache/lfu.go:83-108 | an empty cache, with capacity 128 in place of one that is not positive |
| LfuCache.Cache.RemoveNode | cache/lfu.go:242-250 | the heap represents the model with the key removed and minFreq bumped if its bucket emptied |
| LfuCache.Cache.GetBucket | cache/lfu.go:221-228 | the list of a frequency, created empty when missing; all other lists unchanged |
| LfuCache.Cache.IncrementFreq | cache/lfu.go:230-240 | the heap represents the model with the key moved to the front of the next bucket |
| LfuCache.Cache.EvictMinFreq | cache/lfu.go:252-262 | the heap represents the model after eviction, with no effect when the bucket is missing or empty |
| LfuCache.Cache.Get | cache/lfu.go:111-134 | the answer and the new state are those of the model, expired entries removed |
| LfuCache.Cache.Set | cache/lfu.go:137-166 | overwrite and bump, or evict if full and insert, as the model does |
| LfuCache.Cache.Delete | cache/lfu.go:204-212 | removal as in the model, without effect on a missing key |
| LfuCache.Cache.Len | cache/lfu.go:215-219 | the number of entries, never above the capacity |
| CacheReplay.ReplayLfu | cache/lfu.go:83-219 | the linked LFU cache, driven through any list of calls, returns the answers and the length of the scanning reference |
| QueueModel.StepValid | cache/lru.go:61-114 | every call keeps the order listing exactly the stored keys, each once, and the size within capacity |
| QueueRefinement.EvictAgrees | cache/lru.go:206-214 | the last key is the least recently touched (LRU) or the first inserted (FIFO), and the reference evicts the same |
| QueueRefinement.StepAgrees | cache/lru.go:61-114 | one call gives the reference's answer and keeps the correspondence |
| QueueRefinement.RunAgrees | cache/fifo.go:62-113 | the same over every sequence of calls, for both policies |
| QueueRefinement.QueueRefinesScan | cache/fifo.go:62-205 | from an empty cache: same answers, same surviving keys, within the given capacity, and the list in order of last touch (LRU) or first insertion (FIFO) |
| QueueCache.Cache.RemoveNode | cache/lru.go:181-196 | the node leaves the linked list and nothing else changes |
| QueueCache.Cache.AddToFront | cache/lru.go:169-179 | the node becomes the head of the list and nothing else changes |
| QueueCache.Cache.MoveToFront | cache/lru.go:198-204 | the key becomes the most recent, the others keep their order |
| QueueCache.Cache.EvictOldest | cache/fifo.go:197-205 | the tail's key leaves list and map, with no effect when the list is empty |
| QueueCache.Cache.Get | cache/lru.go:61-84 | the answer and the new state are those of the model; the FIFO cache does not reorder |
| QueueCache.Cache.Set | cache/fifo.go:87-113 | overwrite in place (LRU also moves to the front), or evict if full and insert |
| QueueCache.Cache.Delete | cache/lru.go:152-160 | removal as in the model, without effect on a missing key |
| QueueCache.Cache.Len | cache/lru.go:163-167 | the number of entries, never above the capacity |
| CacheReplay.ReplayQueue | cache/lru.go:61-214 | the linked LRU and FIFO caches, driven through any list of calls, return the answers and the length of the scanning reference |
| CacheMemory.LastAnswer | cache/lfu.go:111-166 | under every policy and after any run, a Get is answered with the value set last if ttl <= 0 or the clock is before the time of the Set plus ttl, and with nothing otherwise, as long as the key was neither set, deleted nor evicted in between |
| CacheMemory.SetGet | cache/lfu.go:137-151 | the same for a Set and a Get on an empty cache |
| CacheMemory.DeleteForgets | cache/fifo.go:151-159 | after a Delete a Get finds nothing until the key is set again, under every policy and after any run |
| CacheReplay.AskLfu | cache/lfu.go:111-166 | the linked LFU cache, driven through such a run, gives that answer |
| CacheReplay.AskQueue | cache/lru.go:61-114 | so do the linked LRU and FIFO caches |
| Lease.StepInv | idempotency/postgres.go:110-267 | every statement of a disciplined run keeps: unexpired leases are on file in their row, reclaims were justified when decided, one live holder per key |
| Lease.ReclaimInv | idempotency/postgres.go:175-201 | a compare-and-swap decided on an old reading succeeds only on a row that nobody holds any more |
| Lease.RunInv | idempotency/postgres.go:110-267 | the invariant in every reachable state of every interleaving |
| Lease.ExclusionIffLeaseFitsRow | idempotency/postgres.go:110-201 | at most one client holds an unexpired lease on a key in all disciplined runs, if and only if lockTTL <= responseTTL |
| Lease.LongLeaseRun | idempotency/postgres.go:175-186 | for every lockTTL > responseTTL, a disciplined run in which a row is reclaimed under a live lease |
| Lease.LateUnlockBreaksExclusion | idempotency/postgres.go:255-267 | for all other TTLs, a run whose only undisciplined step is one late Unlock and in which two clients hold a live lease: the assumption on callers is needed |
| Lease.SavedStep | idempotency/postgres.go:137-201 | until its retention ends a saved row survives every statement, including reclaims decided before the save, and grants nobody |
| Lease.SavedRun | idempotency/postgres.go:137-201 | the same along every disciplined run: every Lock that reads the row is answered with the saved response |
| Lease.SavedResponseIsReplayed | idempotency/postgres.go:226-251 | from any reachable Save on: no grant and faithful replay until the Save's clock sample plus responseTTL |
| Lease.LiveIsReported | idempotency/postgres.go:136-172 | in every reachable state, a Lock that reads the row of a key on which another client holds a live lease is told that it is in progress |
| Lease.ReadIsFaithful | idempotency/postgres.go:152-172 | what a Lock answers or goes on to reclaim is the row as it read it; a row that is gone makes it start over with a new clock sample |
| Lease.ReclaimIsFaithful | idempotency/postgres.go:175-206 | a reclaim that does not win ends in the status of the row that was read |
| Lease.LockDecides | idempotency/postgres.go:110-201 | from any state, a Lock with nobody in between is granted for lockTTL exactly if there is no row, its retention is over, or it is in progress with its lease over; otherwise it answers the row's status and changes nothing |
| Lease.UnlockFrees | idempotency/postgres.go:255-267 | in every reachable state, Unlock by a live holder removes the row and the next Lock is granted at once |
| Lease.DeleteFrees | idempotency/postgres.go:269-282 | Delete removes the row of its key, whatever its status, and no other; the next Lock is granted at once |
| Lease.BeginDecides | idempotency/postgres.go:110-116 | a Lock starts with a clock sample of its own and fails for the empty key |
| Lease.FailureGrantsNothing | idempotency/postgres.go:125-162 | an INSERT or SELECT that is refused or whose reply is lost fails its Lock |
| Lease.RefusalChangesNothing | idempotency/postgres.go:110-267 | a refused statement of any call leaves every row as it was |
| Lease.LostReplyTakesEffect | idempotency/postgres.go:110-267 | a lost reply changes what the caller knows, not what the statement did |
| Lease.CallIsOver | idempotency/postgres.go:223-267 | Save samples the clock when it starts; Save and Unlock are over with their statement, whatever its fate; Unlock spares a completed row and all other rows |
| Lease.OrphanStep | idempotency/postgres.go:110-267 | a locked row that nobody holds survives every statement until its lease ends, reclaims decided before included, and nobody gets it |
| Lease.LostInsertLocksOut | idempotency/postgres.go:125-133 | after any reachable INSERT that takes the row but loses its reply: nobody holds the key in any disciplined run until lockTTL after its clock sample, every Lock by itself is told of a conflict until then, and is granted after |
| MemoryModel.StepInv | idempotency/middleware.go:115-167 | without a lock timeout and a cap every step (arrival, panic, Goexit, 5xx, cancelled context, sweep) keeps one owner per key, whose record is in progress |
| MemoryModel.RunInv | idempotency/middleware.go:115-167 | the same in every reachable state |
| MemoryModel.ExclusionIff | idempotency/memory.go:67-118 | at most one request per key runs the handler in every interleaving, if and only if locks do not time out and the store has no cap |
| MemoryModel.TimedOutLock | idempotency/memory.go:76-81 | for every positive lockTTL, capped or not, a run with two handlers on one key |
| MemoryModel.EvictedLock | idempotency/memory.go:103-118 | for every cap, a run in which evictOldest drops the lock of a running handler and its key is granted again |
| MemoryModel.KeptStep | idempotency/memory.go:83-101 | within its retention a completed record survives every step and every live request for its key is served it |
| MemoryModel.KeptRun | idempotency/memory.go:83-101 | the same along every run |
| MemoryModel.SavedResponseIsReplayed | idempotency/memory.go:121-146 | after any reachable Save, until retention ends, no handler runs for the key and requests get exactly the saved response |
| MemoryModel.ResponseIsReplayed | idempotency/middleware.go:143-167 | the same from the handler's response on: what a reachable request's handler answers, if it is to be kept, is what every later live request for the key gets |
| MemoryModel.CompletedStays | idempotency/memory.go:121-162 | in every uncapped store, with lock timeouts too and from any state: a completed record stays, whatever late handlers end in, until its retention is over or another response for the key is saved |
| MemoryModel.LostRequestLocksOut | idempotency/middleware.go:143-167 | without a lock timeout and a cap, after any reachable request whose closing store call finds its context done, or whose handler ends with Goexit, every later live request for its key is told of a conflict |
| MemoryModel.RequestIsDecided | idempotency/memory.go:67-118 | from any state, a live request is let in exactly if its key has no record, a lock held longer than lockTTL or a response kept longer than responseTTL, and starts a new record; otherwise it is told of the conflict or served the response, and nothing changes |
| MemoryModel.RequestEnds | idempotency/middleware.go:115-167 | a request whose context is done gets an error and changes nothing; closing with a done context, or Goexit, changes no record; every closing call ends its request |
| MemoryModel.FailedRequestFrees | idempotency/middleware.go:143-167 | without a lock timeout and a cap, after any reachable request that fails or panics has closed its record the key is free, and the next live request for it runs the handler |
| MemoryModel.SweepRemoves | idempotency/memory.go:193-205 | a sweep removes exactly the locks older than lockTTL and the responses older than responseTTL |
| MemoryModel.RoomCosts | idempotency/memory.go:103-109 | making room changes nothing below the cap; at the cap it clears out what is over, and takes one live record, the least recently updated, only if the live ones fill the cap by themselves; a record under the empty key is never taken |
| MemoryModel.SweepsGoUnnoticed | idempotency/memory.go:187-205 | in an uncapped store every request of every run is treated the same with and without sweeps |
| MemoryStore.CopyHeaders | idempotency/memory.go:231-236 | the same header names with equal values in freshly allocated slices |
| MemoryStore.DeepCopy | idempotency/memory.go:223-238 | an equal response that shares no part with the original |
| MemoryStore.Store.Lock | idempotency/memory.go:67-118 | the model's Lock on a known key; on a new key, room is made first; a replayed response is fresh; a done context changes nothing |
| MemoryStore.Store.Save | idempotency/memory.go:121-146 | the model's Save of a copy of the argument; what the store newly owns was allocated by the call |
| MemoryStore.Store.Unlock | idempotency/memory.go:149-163 | the model's Unlock: only a record in progress is removed |
| MemoryStore.Store.Delete | idempotency/memory.go:166-176 | exactly the key is removed, unless the context is done |
| MemoryStore.Store.EvictExpired | idempotency/memory.go:193-205 | exactly the expired records go, and the count of them is returned |
| MemoryStore.Store.EvictOldest | idempotency/memory.go:207-221 | some least recently updated record goes, except one under the empty key |
| MemoryStore.Store.MakeRoom | idempotency/memory.go:103-109 | below the cap nothing changes; at the cap expired records go, and then one oldest record if that was not enough |
| MemoryStore.SaveIsolates | idempotency/memory.go:93-101 | Save, change the argument, Lock, change the result, Lock again: the second replay still equals the response as it was saved |
| MemoryStore.LockReplays | idempotency/memory.go:93-101 | within retention Lock returns a fresh copy of the saved response and leaves the store as it was |
| MemoryStore.RoomIffEmptyKeyNotOldest | idempotency/memory.go:103-109 | any store, overfull ones included, ends below its cap in every choice of evictOldest, if and only if it has room, or drops below by expiry, or is just full of live records of which the empty key is not the oldest |
| MemoryStore.CapIsKept | idempotency/memory.go:130-140 | inserting or overwriting a nonempty key keeps a store without the empty key within maxEntries |
| MemoryStore.Drive | idempotency/memory.go:67-205 | a store object driven through any list of Lock, Save, Unlock, Delete and EvictExpired on nonempty keys never holds more than maxEntries records |
| MemoryStore.EmptyKeyOverflows | idempotency/memory.go:218-220 | a store capped at one entry that holds the empty key grows to two |
| Middleware.Begin | idempotency/middleware.go:115-136 | the Lock call and its answer to the client are one step of the interleaving model, from any state with that table and clock, after room has been made if the store has a cap and the key is new |
| Middleware.Finish | idempotency/middleware.go:143-167 | Save, Unlock after 5xx, and Unlock after a panic are the closing steps of the model, likewise after room has been made for a key that is gone |
| Middleware.FailAndRetry | idempotency/middleware.go:115-167 | on a store object, capped or not: a request for a new key runs the handler, and after it has failed or panicked a retry runs it again |
| BreakerGate.StepSingleProbe | circuitbreaker/ratio.go:281-319 | with one probe allowed each step keeps at most one probe, counted, and none outside HalfOpen, moves along one of the four transitions, and keeps the count exact unless a probe ends with Goexit |
| BreakerGate.RunSingleProbe | circuitbreaker/consecutive.go:153-259 | the same along every run of any breaker |
| BreakerGate.OneProbeAtATime | circuitbreaker/ratio.go:189-319 | the same in every interleaving from the start, for both breakers |
| BreakerGate.TripHolds | circuitbreaker/consecutive.go:221-259 | after a trip the gate does not change and nothing is admitted until more than resetTimeout has passed, whatever ends meanwhile |
| BreakerGate.GateDecides | circuitbreaker/ratio.go:281-319 | in any state a call goes through exactly when the gate is closed, and becomes a probe exactly when it is open for more than resetTimeout or half-open with room for probes |
| BreakerGate.ProbeDecides | circuitbreaker/ratio.go:189-234 | a probe that fails or panics opens the gate now, one that succeeds closes it, one that is cancelled leaves it, and each takes one off the counter; one that ends with Goexit does not |
| BreakerGate.CallEnds | circuitbreaker/ratio.go:236-253 | a call that ends while the gate is not closed, or cancelled, or with Goexit, changes nothing else |
| BreakerGate.CounterInRange | circuitbreaker/ratio.go:214-219 | in every run of any breaker the counter stays between zero and the number of probes allowed |
| BreakerGate.StuckForever | circuitbreaker/ratio.go:281-319 | a half-open breaker whose counter is at its limit with no probe in flight never changes again and refuses every call |
| BreakerGate.VanishedProbeRefusesForever | circuitbreaker/ratio.go:164-172 | with one probe allowed, whenever a probe ends with runtime.Goexit the breaker is half-open and refuses every call in every later run |
| BreakerGate.VanishedProbesStick | circuitbreaker/ratio.go:164-172 | however many probes are allowed, as many that end with Goexit leave the breaker that way |
| BreakerGate.ProbesCross | circuitbreaker/ratio.go:221-234 | with two or more probes, one that fails reopens the breaker and one that then succeeds closes it at the same instant; if it stays out instead, it is no longer counted |
| BreakerGate.ExactIff | circuitbreaker/ratio.go:214-319 | for any breaker that can trip, the in-flight counter is exact in all runs if and only if maxHalfOpen is 1 and probes do not end with Goexit |
| BreakerGate.TripHoldsIff | circuitbreaker/consecutive.go:177-259 | for any breaker that can trip, a trip keeps calls out until more than resetTimeout later, in all runs, if and only if maxHalfOpen is 1 |
| RatioBreaker.EvaluateIsExact | circuitbreaker/ratio.go:255-279 | pruning a running window leaves exactly the history no older than now - window, with its failure count and the verdict on it |
| RatioBreaker.WindowIsCounted | circuitbreaker/ratio.go:255-268 | the window has as many entries, and as many failures, as there are indices of recent, and of recent failed, entries in the history |
| RatioBreaker.OutcomeIsExact | circuitbreaker/ratio.go:221-253 | an outcome recorded while closed leaves that window and opens the breaker exactly when at least minRequests entries are recent and at least failureRatio times as many of them failed |
| RatioBreaker.WindowRefinesHistory | circuitbreaker/ratio.go:221-279 | the same in every reachable state, for any number of probes, with the history told from the run's actions alone: results of calls while closed, cancelled and lost ones left out, since the last successful probe |
| RatioBreaker.ExactIffOneProbe | circuitbreaker/ratio.go:214-319 | the ratio breaker can trip, so for every proper configuration its counter is exact in all runs if and only if maxHalfOpen is 1 and probes do not end with Goexit |
| RatioBreaker.TripHoldsIffOneProbe | circuitbreaker/ratio.go:221-319 | for every proper configuration a trip keeps calls out until more than resetTimeout later, in all runs, if and only if maxHalfOpen is 1 |
| RatioBreaker.CanGetStuck | circuitbreaker/ratio.go:152-187 | for every proper configuration a run after which the breaker refuses every call for ever |
| RatioBreaker.FinishIsStep | circuitbreaker/ratio.go:189-253 | the field updates of recordResult and onPanic are the model's step |
| RatioBreaker.Breaker.constructor | circuitbreaker/ratio.go:45-103 | each setting is kept if in range and otherwise gets its default (0.5, 10, 10 s, 30 s, 1); the breaker starts closed with an empty window |
| RatioBreaker.Breaker.CanExecuteNow | circuitbreaker/ratio.go:281-319 | admission as the gate decides it, the window untouched |
| RatioBreaker.Breaker.Prune | circuitbreaker/ratio.go:255-268 | the loop over the front of the records drops exactly the stale ones and corrects the running count |
| RatioBreaker.Breaker.EvaluateRatio | circuitbreaker/ratio.go:255-279 | the model's pruned window and running count, and a trip exactly on its verdict |
| RatioBreaker.Breaker.RecordResult | circuitbreaker/ratio.go:221-253 | the whole new state after a success, failure or cancellation, for probes and calls, in every mode |
| RatioBreaker.Breaker.OnPanic | circuitbreaker/ratio.go:189-212 | the whole new state after a panic |
| ConsecutiveBreaker.StepInv | circuitbreaker/consecutive.go:153-212 | every step keeps failures equal to the trailing run of failures in the history of the run, and below maxFailures while closed |
| ConsecutiveBreaker.TripsOnCompletedRun | circuitbreaker/consecutive.go:177-212 | the same in every reachable state, with the history told from the run's actions alone; and a recorded outcome trips the breaker exactly when it completes a run of maxFailures |
| ConsecutiveBreaker.ExactIffOneProbe | circuitbreaker/consecutive.go:177-259 | for every proper configuration the in-flight counter is exact in all runs if and only if maxHalfOpen is 1 and probes do not end with Goexit |
| ConsecutiveBreaker.TripHoldsIffOneProbe | circuitbreaker/consecutive.go:177-259 | for every proper configuration a trip keeps calls out until more than resetTimeout later, in all runs, if and only if maxHalfOpen is 1 |
| ConsecutiveBreaker.CanGetStuck | circuitbreaker/consecutive.go:116-151 | for every proper configuration a run after which the breaker refuses every call for ever |
| ConsecutiveBreaker.FinishIsStep | circuitbreaker/consecutive.go:153-212 | the field updates of recordResult and onPanic are the model's step |
| ConsecutiveBreaker.Breaker.InitDefaults | circuitbreaker/consecutive.go:75-97 | each positive setting is kept, the others get their defaults (5, 60 s, 1) |
| ConsecutiveBreaker.Breaker.CanExecuteNow | circuitbreaker/consecutive.go:221-259 | defaults first, then admission as the gate decides it |
| ConsecutiveBreaker.Breaker.RecordResult | circuitbreaker/consecutive.go:177-212 | the whole new state after a success, failure or cancellation |
| ConsecutiveBreaker.Breaker.OnPanic | circuitbreaker/consecutive.go:153-175 | the whole new state after a panic |
| WorkerPool.StepSubmitters | workerpool/workerpool.go:163-248 | the lock keeps a submitter between the flag test and the send apart from close(tasks): no send on a closed channel |
| WorkerPool.StepInv | workerpool/workerpool.go:121-254 | every atomic operation keeps the lock discipline and the ledger of tasks |
| WorkerPool.PoolIsSafe | workerpool/workerpool.go:121-254 | in every run: no crash; accepted = queued + running + completed + panicked + ended by Goexit, as multisets; tasks start in order of acceptance; when StopWait can return and a worker has left by itself, each accepted task has run once |
| WorkerPool.CrashIff | workerpool/workerpool.go:163-248 | what the absence of a crash excludes: a send on the closed channel, and closing the signal or the channel twice |
| WorkerPool.LeavesSelect | workerpool/workerpool.go:179-235 | in every reachable state a submitter leaves its select with its task in a queue that had room, or refused: Submit only when the queue holds capacity tasks, SubmitContext only when the pool is closing or its context is done |
| WorkerPool.MayLeaveSelect | workerpool/workerpool.go:179-235 | and each of these ways is open when its reason holds |
| WorkerPool.ReachesSelect | workerpool/workerpool.go:163-180 | a submitter that has come in gets to its select unless the flag or the signal says that the pool is closing |
| WorkerPool.ClosedAcceptsNothing | workerpool/workerpool.go:240-248 | once Stop has set its flag, no task is accepted in any later run |
| WorkerPool.NewIsReady | workerpool/workerpool.go:72-119 | at least one worker, and a queue of the given size or else of twice the workers |
| WorkerPool.QuitLeavesTasks | workerpool/workerpool.go:121-157 | in every pool, a run in which each worker's goroutine is ended by a task's runtime.Goexit and StopWait returns with a task queued |
| WorkerPool.LeavesNothingIff | workerpool/workerpool.go:121-254 | no task is left when StopWait returns, in all runs with at most q such tasks, if and only if q is less than the number of workers |
| WorkerPool.ReaderCanMove | workerpool/workerpool.go:163-236 | while Stop waits for the write lock, every reader has an enabled step that brings the lock closer |
| WorkerPool.WaitIsBounded | workerpool/workerpool.go:240-248 | no other step moves the lock further away, and it is granted exactly when no reader is left |
| WorkerPool.StopGetsTheLock | workerpool/workerpool.go:240-248 | from every waiting state a bounded run without help from workers or contexts gives Stop the lock |
| WorkerPool.StopWaitCanReturn | workerpool/workerpool.go:251-254 | from every state after Stop, a run ends all workers, and leaves the queue empty if some worker has not been ended by a task |
| TokenBucket.AllowNOk | ratelimit/token_bucket.go:144-186 | tokens and Remaining stay within [0, capacity], and AllowN(n) succeeds exactly when n <= Remaining at that instant |
| TokenBucket.GrantedIff | ratelimit/token_bucket.go:144-170 | a request for n is granted exactly when n <= capacity and refillRate*n is at most refillRate*tokens plus the time since the last refill |
| TokenBucket.EmptyRefills | ratelimit/token_bucket.go:151-170 | a bucket that has been used up grants n again exactly when n refill periods have passed and n <= capacity |
| TokenBucket.ClockBehind | ratelimit/token_bucket.go:144-186 | with the clock behind the last refill, AllowN goes by the tokens there are and moves no date, and Remaining takes off the whole refill periods still missing |
| TokenBucket.RefillCredit | ratelimit/token_bucket.go:151-162 | refilling never creates credit (tokens plus the carried fraction) and caps it below capacity + 1 |
| TokenBucket.AdmittedIsPaid | ratelimit/token_bucket.go:144-170 | what a run of requests is granted is paid for by the credit at its start and the time that passes |
| TokenBucket.RateBound | ratelimit/token_bucket.go:144-170 | refillRate*(A - capacity - 1) < T over every interval |
| TokenBucket.RateBoundFromCreation | ratelimit/token_bucket.go:88-170 | refillRate*(A - capacity) <= T from a bucket's creation |
| RegistryRuns.CallRuns | ratelimit/token_bucket.go:88-170 | look-up, making and use of a bucket in a row, with nobody in between, are one whole call; a found key skips the second |
| Registry.NothingAsked | ratelimit/token_bucket.go:144-148 | a request for nothing is granted at once and leaves the limiter and its callers as they were |
| RegistrySimulation.StepAgrees | ratelimit/token_bucket.go:88-195 | one critical section of any caller keeps a collecting and a non-collecting limiter in agreement (who holds which cell, who shares it, what each cell remembers), with the same answer and the same grant |
| RegistrySimulation.RunAgrees | ratelimit/token_bucket.go:88-195 | the same over every interleaving in which no call straddles the collection of its cell: same answers, same amounts granted on every key at any time |
| RegistrySimulation.CollectAgrees | ratelimit/token_bucket.go:122-136 | a collection that takes no held cell only removes cells with nothing left to remember |
| RegistrySimulation.ReviveAgrees | ratelimit/token_bucket.go:105-119 | the new cell of a collected key stands for the old one, for this caller and all others |
| RegistryRuns.OrphanShows | ratelimit/token_bucket.go:122-149 | a caller that holds a cell across its collection is granted as much as the one who got the new cell, at the same instant, in a run that is possible and disciplined but for that collection |
| RegistryRuns.ResetShows | ratelimit/token_bucket.go:88-113 | a Reset between a failed look-up and the making of the cell tells the two limiters apart, in a run that is possible and disciplined but for that Reset |
| RegistryBounds.KeyRunsAlone | ratelimit/token_bucket.go:88-170 | absent Reset and collection, whatever the interleaving, a key is granted exactly what its one cell grants to the same uses in order |
| RegistryBounds.NewKeyRunsAlone | ratelimit/token_bucket.go:111-119 | a new key starts from a new cell, at the moment it is made |
| TokenLimiter.UnnoticedIff | ratelimit/token_bucket.go:88-195 | for every configuration, schedule and start: on runs without straddling calls collection cannot be noticed if and only if capacity*refillRate <= idleTimeout + 1 and either refillRate is one clock unit or calls take no time and nobody asks for Remaining |
| TokenLimiter.SequentialIff | ratelimit/token_bucket.go:122-186 | calls one at a time: with AllowN and Reset alone if and only if capacity*refillRate <= idleTimeout + 1; with Remaining too if and only if refillRate == 1 and capacity <= idleTimeout + 1 |
| TokenLimiter.EarlyCollectionShows | ratelimit/token_bucket.go:122-136 | for every shorter timeout, a run of three calls tells the two apart on every schedule |
| TokenLimiter.FractionShows | ratelimit/token_bucket.go:151-162 | for every refill period above one unit, dating a new bucket before it is used tells the two apart |
| TokenLimiter.OrphanedBucket | ratelimit/token_bucket.go:88-170 | for every configuration, a possible run in which the one undisciplined step is a collection that takes a held bucket: twice the capacity is granted at one instant, the capacity without collection |
| TokenLimiter.ResetBetween | ratelimit/token_bucket.go:88-113 | for every configuration, a possible run in which the one undisciplined step is a Reset between a caller's failed look-up and its making of the bucket: the two limiters grant different amounts |
| TokenLimiter.KeyRateBound | ratelimit/token_bucket.go:144-170 | the interval bound for one key among many, from any reachable state and in every interleaving, absent Reset and collection; the sharper bound if the key is new |
| RegistryBudget.GrantsArePaid | ratelimit/token_bucket.go:88-170 | in every disciplined run of the collecting limiter, what a key is granted is paid for by the worth of its cell (or of having none) at the start and the time that passes |
| TokenLimiter.CollectingRateBound | ratelimit/token_bucket.go:88-170 | if capacity*refillRate <= idleTimeout + 1, the interval bound, and the sharper one for a key without a bucket, hold with collection on every schedule, from any reachable state |
| TokenLimiter.RateBoundIff | ratelimit/token_bucket.go:122-136 | those bounds hold with collection if and only if capacity*refillRate <= idleTimeout + 1 |
| TokenLimiter.EarlyCollectionExceeds | ratelimit/token_bucket.go:122-136 | for every shorter timeout, a disciplined run that is granted too much |
| TokenLimiter.TokenBucketLimiter.constructor | ratelimit/token_bucket.go:35-62 | defaults for settings that are not positive, no buckets |
| TokenLimiter.TokenBucketLimiter.Find | ratelimit/token_bucket.go:89-98 | the section under the read lock: the bucket object of the key, if there is one |
| TokenLimiter.TokenBucketLimiter.MakeBucket | ratelimit/token_bucket.go:104-119 | the section under the write lock: collect, look again, and make a full bucket, a new object, if the key is still missing |
| TokenLimiter.TokenBucketLimiter.MaybeGC | ratelimit/token_bucket.go:122-136 | the deletion loop drops exactly the idle buckets from the map, at most once per interval; the objects stay as they are |
| TokenLimiter.TokenBucketLimiter.Spend | ratelimit/token_bucket.go:149-169 | the section under the bucket's lock, on any bucket there has ever been, in the map or not: refill, carry, and take or refuse; no other bucket changes |
| TokenLimiter.TokenBucketLimiter.Count | ratelimit/token_bucket.go:175-185 | the same section of Remaining, which changes nothing and truncates as the source does when the clock is behind |
| TokenLimiter.TokenBucketLimiter.GetBucket | ratelimit/token_bucket.go:88-120 | the first two sections in a row |
| TokenLimiter.TokenBucketLimiter.AllowEvents | ratelimit/token_bucket.go:144-170 | the whole call of a caller that is alone, including n <= 0 |
| TokenLimiter.TokenBucketLimiter.RemainingEvents | ratelimit/token_bucket.go:173-186 | the whole call of a caller that is alone |
| TokenLimiter.TokenBucketLimiter.ResetKey | ratelimit/token_bucket.go:189-195 | the key is no longer found; the bucket object stays with whoever holds it |
| SlidingWindow.AdvanceTwice | ratelimit/sliding_window.go:141-155 | advancing in two steps is advancing once, over any number of windows |
| SlidingWindow.AllowStays | ratelimit/sliding_window.go:170-197 | AllowN(n) succeeds exactly when n <= Remaining, which is within [0, limit], and leaves the estimate below limit + 1 |
| SlidingWindow.EntryIsRecount | ratelimit/sliding_window.go:141-155 | after any run, brought up to date, the two counts of an entry are what a recount of the run's grants gives for this aligned window and the last |
| SlidingWindow.DecisionIsExact | ratelimit/sliding_window.go:157-187 | after any run on a new key, a request for n is granted exactly when the recount of this window, plus n, plus the recount of the last window times the share of it that still counts, is below limit + 1 |
| SlidingWindow.EstimateFalls | ratelimit/sliding_window.go:157-162 | without admissions the weighted estimate never rises and Remaining never drops, across any number of rollovers |
| SlidingWindow.WindowBound | ratelimit/sliding_window.go:170-187 | every aligned window admits at most limit |
| SlidingWindow.IntervalBound | ratelimit/sliding_window.go:141-187 | any interval of one window's length admits A with A*window < (limit+1)*window + limit*offset, hence at most 2*limit, and at most limit when aligned |
| SlidingLimiter.UnnoticedIff | ratelimit/sliding_window.go:90-206 | for every configuration and schedule: on runs without straddling calls, of all operations and however they overlap, collection cannot be noticed if and only if what it forgets always weighs less than one event |
| SlidingLimiter.TwoWindowsSuffice | ratelimit/sliding_window.go:125-139 | a timeout of two windows is enough, on every schedule |
| SlidingLimiter.EarlyCollectionShows | ratelimit/sliding_window.go:125-139 | for every insufficient timeout, a run of three calls tells the two apart on every schedule |
| SlidingLimiter.OrphanedEntry | ratelimit/sliding_window.go:90-187 | for every configuration, a possible run in which the one undisciplined step is a collection that takes a held entry: twice the limit is granted at one instant, the limit without collection |
| SlidingLimiter.ResetBetween | ratelimit/sliding_window.go:90-123 | for every configuration, a possible run in which the one undisciplined step is a Reset between a caller's failed look-up and its making of the entry: the two limiters grant different amounts |
| SlidingLimiter.KeyBounds | ratelimit/sliding_window.go:141-187 | for any key, over every interleaving absent Reset and collection: each aligned window admits at most limit, and any interval of one window's length obeys the offset bound and 2*limit |
| SlidingLimiter.CollectingBounds | ratelimit/sliding_window.go:90-187 | the same bounds, the offset bound included, for the collecting limiter, when what is collected weighs less than one event and no call straddles a collection |
| SlidingLimiter.WindowBoundsIff | ratelimit/sliding_window.go:125-139 | with collection, each aligned window admits at most limit in all disciplined runs if and only if window <= idleTimeout + 1, and any interval of one window's length at most 2*limit under the same condition |
| SlidingLimiter.WindowFilledTwice | ratelimit/sliding_window.go:125-139 | for every shorter timeout, a disciplined run that fills one aligned window twice |
| SlidingLimiter.IntervalOverfilled | ratelimit/sliding_window.go:125-139 | for every shorter timeout, a disciplined run that admits 2*limit + 1 within one window's length |
| SlidingLimiter.SwEntry.AdvanceTo | ratelimit/sliding_window.go:141-155 | the update of window start and counts in place is advancing by window number |
| SlidingLimiter.SwEntry.EstimatedCount | ratelimit/sliding_window.go:157-162 | the entry is advanced, and the integer part of its weighted estimate returned |
| SlidingLimiter.SlidingWindowLimiter.constructor | ratelimit/sliding_window.go:37-64 | defaults for settings that are not positive, no entries |
| SlidingLimiter.SlidingWindowLimiter.Find | ratelimit/sliding_window.go:91-100 | the section under the read lock: the entry object of the key, if there is one |
| SlidingLimiter.SlidingWindowLimiter.MakeEntry | ratelimit/sliding_window.go:106-122 | the section under the write lock: collect, look again, and make a blank entry, a new object, if the key is still missing |
| SlidingLimiter.SlidingWindowLimiter.MaybeGC | ratelimit/sliding_window.go:125-139 | the deletion loop drops exactly the idle entries from the map, at most once per interval; the objects stay as they are |
| SlidingLimiter.SlidingWindowLimiter.Spend | ratelimit/sliding_window.go:175-186 | the section under the entry's lock, on any entry there has ever been: advance, estimate, and count or refuse; no other entry changes |
| SlidingLimiter.SlidingWindowLimiter.Count | ratelimit/sliding_window.go:192-196 | the same section of Remaining |
| SlidingLimiter.SlidingWindowLimiter.GetEntry | ratelimit/sliding_window.go:90-123 | the first two sections in a row |
| SlidingLimiter.SlidingWindowLimiter.AllowEvents | ratelimit/sliding_window.go:170-187 | the whole call of a caller that is alone, including n <= 0 |
| SlidingLimiter.SlidingWindowLimiter.RemainingEvents | ratelimit/sliding_window.go:190-197 | the whole call of a caller that is alone |
| SlidingLimiter.SlidingWindowLimiter.ResetKey | ratelimit/sliding_window.go:200-206 | the key is no longer found; the entry object stays with whoever holds it |
| PgLimiter.FlagIsTrue | db/ratelimit.go:124-147 | the statement never returns false: no row, or true |
| PgLimiter.RateIsBounded | db/ratelimit.go:113-160 | for timestamps in any order and lost replies: window starts an interval apart, each window's grants within current_count <= limit, and the total bounded by the span of the starts |
| PgLimiter.StatementDecides | db/ratelimit.go:113-147 | for a row that is there, the statement starts a new window if the configured window, cut down to whole seconds (milliseconds below a second), has passed, adds to the count if that fits the limit, and otherwise changes nothing |
| PgLimiter.RefusedWithinWindow | db/ratelimit.go:123-147 | a request that does not fit is refused until less than a second (millisecond) before the configured window is over, and throughout it if it is a whole number of them |
| PgLimiter.StartsApart | db/ratelimit.go:113-147 | in every interleaving successive windows start more than the configured window less a second (millisecond) apart, and no less than the window if it is whole |
| PgLimiter.RemainingInRange | db/ratelimit.go:163-196 | Remaining is between 0 and the limit |
| PgLimiter.InstantBoundIff | db/ratelimit.go:123-126 | after any history, what is granted at one instant is bounded, and then by limit, if and only if the window is at least a millisecond |
| PgLimiter.Flood | db/ratelimit.go:123-126 | for every shorter window, any number of requests for the whole limit are all granted at one instant |
| PgLimiter.HonestIffWholeUnits | db/ratelimit.go:163-196 | Remaining equals what the next request can get, for every row and time, if and only if the interval sent is the configured window |
| PgLimiter.PromiseIsKept | db/ratelimit.go:163-196 | a request within Remaining is granted at that instant, whatever the window |
| PgLimiter.Limiter.AllowN | db/ratelimit.go:113-160 | refusals and a failed statement do not touch the table; otherwise the upsert on the key's row and no other, with false for a lost reply; what does not fit is refused within the window |
| PgLimiter.Limiter.RemainingFor | db/ratelimit.go:163-196 | 0 for the empty key and for a failed query, otherwise computed from the key's row |
| PgLimiter.Limiter.Reset | db/ratelimit.go:199-209 | the key's row is deleted, unless the key is empty or the statement fails |
| Calendar.NextDayNumber | timeutil/timeutil.go:93-111 | the successor of every date, over all month, leap, century and era boundaries and negative years, has the next number |
| Calendar.EpochIsZero | timeutil/timeutil.go:93-111 | 1970-01-01 is day 0 |
| Calendar.EarlierNumber | timeutil/timeutil.go:93-111 | the numbering is strictly increasing in calendar order |
| Calendar.SameNumber | timeutil/timeutil.go:93-111 | one number names one date, and comparing numbers is comparing dates |
| Calendar.EraIsFloor | timeutil/timeutil.go:98-104 | the truncating era division with its correction for negative years is floor division |
| BusinessDays.WeekdayCycle | timeutil/timeutil.go:93-111 | the weekday moves on by one each day, from a Thursday at the epoch |
| BusinessDays.AddPositiveBusinessDays | timeutil/timeutil.go:113-135 | the weekend shift, whole weeks and remainder loop arrive where the day-by-day walk does |
| BusinessDays.SubtractBusinessDays | timeutil/timeutil.go:137-160 | the same, backward |
| BusinessDays.AddBusinessDays | timeutil/timeutil.go:165-180 | the walk of n days cut off at one million, with the time of day kept |
| BusinessDays.BusinessDaysBetween | timeutil/timeutil.go:192-222 | the signed number of weekdays in the half-open range of dates |
| BusinessDays.WalkIsCounted | timeutil/timeutil.go:192-222 | counting over a walk of n days gives n, or n - 1 going forward from a weekend |
| BusinessDays.RoundTrip | timeutil/timeutil.go:165-222 | counting back over what AddBusinessDays walks gives n, if and only if the start is a weekday or n <= 0, and n is within one million |
| BusinessDays.AddThenCount | timeutil/timeutil.go:165-222 | the two methods called one after the other return n under exactly that condition |
| BusinessDays.ClampExact | timeutil/timeutil.go:165-180 | the cut-off changes the result if and only if n is beyond one million either way |

## Left out

- GetOrFetch of all caches, which rests on golang.org/x/sync/singleflight, and the sampled LRU of `cache/cache.go`, which depends on map iteration order.
- HTTP, gin, telemetry, logging, database, crypto and validation packages, and the small utility packages: they would add only easier members.
- Metrics, log lines, panic handlers and state-change callbacks of all modelled types; callbacks are assumed not to panic.
- Floating point and integer overflow: ratios are exact reals, the sliding estimate is an exact rational, durations are unbounded integers.
- Time zones and daylight saving: a moment is a civil date and a time of day.
- SQL text, JSON encoding of headers, table name validation and call timeouts; a failed statement or a lost reply is part of the lease and limiter models.
- Fencing of stale holders: Save and Unlock check no owner, so exclusion in PostgreSQL assumes that they take effect within the caller's lease and that nobody deletes rows. Starting such a call in time is not enough.
- MemoryModel.SavedResponseIsReplayed: is about a store without a cap, since evictOldest may drop a saved response within its retention.
- Breaker.State and Breaker.Failures, which only read.
- A section under a lock reads the clock once, and a collection is one step: a caller using a bucket it holds while the collection loop is under way counts as before or after the loop.
- TokenBucket.AllowNOk: takes the clock not to run backwards, as do the bounds and collection theorems of both in-process limiters.
- The LRU and FIFO backends are one class with a `recency` flag over a separate list object; the source keeps head and tail in each backend. popTail is inlined in EvictMinFreq. Cache keys are of any type with equality.
- The worker pool, the PostgreSQL store and the interleaving of requests are transition systems on values, since their point is the interleaving; goroutines and heap objects are not modelled there. The nil-task error and a panicking panic handler are left out. Fair scheduling is not assumed: progress is that enabled steps exist and lead to the end.
- Drain and IsClosed of the pool, and Response parts other than status code, headers and body.
- MemoryStore.Store.Save: requires that the caller's response does not contain the store object itself, which holds by construction of the types in the source.
- Requests that bypass the store (ignored methods, a missing key header).

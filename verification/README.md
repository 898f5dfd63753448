# Verified models of the platform SDK's protocols

A Dafny project about the parts of this Go SDK whose correctness spans several
functions: the Redis lease lock and the job runner on top of it, the Redis job
queue with retries and dead letters, the token-bucket limiters, the file and the
memory cache, the circuit breaker, the layered configuration, the validation-tag
parser, the non-blocking log handler, the key ring and the recursive prefix delete.

Concurrent parts are transition systems: a state, the actions of any number of
replicas, workers or threads, and a run, a finite sequence of states joined by
enabled actions. Every Redis command, critical section, channel operation and file
access is an action of its own, and the theorems speak of every state of every run.
Objects that the program updates in place are classes whose methods are proved
against the functions that the transition systems and the lemmas use. Times are
integers or reals given from outside, durations are nanoseconds unless said
otherwise, `float64` is `real`, and `int64` arithmetic wraps where the program's does.

`dafny verify dfyconfig.toml` checks the whole project.

| file | what it models |
|---|---|
| LeaseLock.dfy | acquisition, renewal loop and release of the Redis lease lock, by any number of replicas |
| JobRunner.dfy, JobOutcomes.dfy | the process-local lock and the life of a scheduled run with its lease watcher, on top of the lease lock's own system; what a run reports and leaves behind |
| JobQueue.dfy, JobCensus.dfy, JobFates.dfy, Retry.dfy | the Redis queue backend under racing workers; the census of its jobs for arbitrary tickets; success, death and order; retry delays and worker waits |
| TokenBucket.dfy, RateLimiters.dfy | one bucket; the keyed Redis and memory limiters against one that forgets nothing |
| FileCache.dfy, MemoryCache.dfy, CacheHistory.dfy | the reference-counted key mutex and its clients; the lazily expired and swept map, by a timed map and by its history |
| Decimal.dfy, Int64.dfy, Wrappers.dfy | decimal text of counters; wrap-around; optional values |
| CircuitBreaker.dfy | the breaker as a function of its call history |
| ConfigTree.dfy, ConfigStore.dfy, ConfigKeys.dfy | merge, lookup, set and forget on values; the repository as map objects updated in place, and its reload; dotted keys and the flat view |
| Text.dfy, TagParser.dfy, TagPrinter.dfy | trimming; the validation-tag parser; tags as they are written and what is read in them |
| AsyncLog.dfy | the bounded log queue, its worker and its shutdown |
| KeyRing.dfy | tokens, the growing key ring, hexadecimal keys |
| PrefixDelete.dfy | listing and recursive deletion in a hierarchical object store |

## Where the code does not do what is said of it

Each of these has a lemma for an input or a family of inputs, and the exact condition
under which the property does hold.

- With a TTL under two seconds the lease lock loses a key to a renewal that is late by a
  nanosecond; some lateness is tolerated on all runs exactly from two seconds on
  (`LeaseLock.ShortTtlLosesTheLease`, `LeaseLock.LatenessToleratedIff`).
- The comment at scheduler/scheduler.go:346-349 excludes a double report of a run. A
  lease lost between the read of the flag and the end of the run is reported twice. A
  job can report twice exactly if it runs on one server
  (`JobRunner.DoubleReportIffOnOneServer`); a given run does so exactly when its callback
  returned and the flag was set after it was read (`JobRunner.ReportOfAFinishedRun`).
- `Run` gives one context of 100ms to a whole cycle (queue/queue.go:209-210), the handler
  and the settlement included. A job whose handler fails later is neither released nor
  dead-lettered: it is gone (`JobQueue.LateSettlementLosesAJob`). Nothing is lost exactly
  when every failed job is settled before the deadline of its cycle, or the cycle has
  none (`JobQueue.NothingIsLostIff`).
- Job ids are counters of one process. Pushes that agree in id, queue and payload can
  lose a job; two pushes are safe on every run exactly when they differ in one of the
  three, or MaxAttempts is one (`JobCensus.ConservedIffTicketsDiffer`). On any run with
  any tickets, as many jobs are there as were pushed exactly when none was settled late
  and none written over in a sorted set (`JobCensus.BalancedIff`).
- The retry delay overflows: attempt 2 panics for every base above half the int64 range,
  and a base of 2^54+1 ns waits a microsecond before attempt 11 (`Retry.OverflowPanics`,
  `Retry.OverflowShortensTheDelay`). Exactly when it panics is `Retry.NeverPanicsIff`,
  exactly when it keeps to its target `Retry.BackoffWithinATenthIff`.
- A configured TTL or idle time too short to refill a burst lets callers exceed the
  rate; the bound holds in all windows of all runs exactly when the TTL, or the idle
  time, covers the refill (`RateLimiters.RedisRateBoundIff`,
  `RateLimiters.MemoryRateBoundIff`). The default TTL does so exactly when the refill
  takes less than 9223372036 seconds (`RateLimiters.DefaultTtlCoversRefillIff`).
- The Redis limiter takes the time from its callers. However little their clock steps
  back, it lets any number of calls pass in a window (`TokenBucket.SkewedClockBreaksWindow`);
  the bound holds in all windows of all runs with skew at most d exactly when d is zero
  (`TokenBucket.BoundedUnderSkewIff`). `TokenBucket.RateBound` is the bound for any clock.
- resilience/circuitbreaker.go:22-24 speaks of a single probe while half-open; every call
  is admitted (`CircuitBreaker.HalfOpenAdmitsEveryProbe`).
- A key id with a colon is accepted and its tokens cannot be decrypted
  (`KeyRing.RotationKeepsTokens`, an equivalence).
- With the in-memory storage driver an object `a` hides the directory `a`, and deleting a
  prefix leaves the objects below it (`PrefixDelete.HiddenObjectSurvives`,
  `PrefixDelete.DeleteIsExactIff`).

## Model

| member | source | states |
|---|---|---|
| LeaseLock.SlackIsPositiveFromTwoSeconds | scheduler/lock/redis.go:133-146 | the period max(ttl/3, 1s) leaves some slack under the truncated renewed life exactly from ttl >= 2s on |
| LeaseLock.RedisServer.SetNX | scheduler/lock/redis.go:113-119 | set-if-absent with a TTL succeeds exactly when no live key is there, and is the step used by the runs |
| LeaseLock.RedisServer.RunRenewScript | scheduler/lock/redis.go:21-26 | extends the key only for the stored token; a zero expiry is rejected; otherwise nothing changes |
| LeaseLock.RedisServer.RunReleaseScript | scheduler/lock/redis.go:31-36 | answers 1 and deletes the key exactly for the stored token of a live key; otherwise nothing changes; other keys never do |
| LeaseLock.OnlyTheOwnerTouchesALiveKey | scheduler/lock/redis.go:18-36 | no action for another token, errors included, changes or deletes a live key |
| LeaseLock.AcquireTakesAFreeKey | scheduler/lock/redis.go:106-138 | on every run, an acquisition gets the lease exactly when no live key is there; then the key carries its token for the TTL and the first renewal is due after max(ttl/3, 1s); otherwise store and leases stay |
| LeaseLock.RenewalExtendsTheKey | scheduler/lock/redis.go:144-162 | a renewal by the owner sets the expiry to whole seconds of the TTL from now; any other leaves the store and closes `lost`; the next is due a period later |
| LeaseLock.ErrorsGiveUp | scheduler/lock/redis.go:113-157 | a renewal whose reply is an error closes `lost`, an acquisition with an error gives no lease, whether or not the server had carried it out |
| LeaseLock.ReleaseDeletesTheKey | scheduler/lock/redis.go:31-36 | a release by the owner deletes the key and touches no other; by anybody else it leaves the store |
| LeaseLock.ReleaseFreesTheKey | scheduler/lock/redis.go:125-130 | after it a fresh acquisition of the key gets the lease |
| LeaseLock.LoopRunsWhileHeld | scheduler/lock/redis.go:140-143 | the renewal loop of a held lease has not returned |
| LeaseLock.ReplicasAreNeverStuck | scheduler/lock/redis.go:106-165 | any key can be tried with a fresh token, a due tick is taken, a renewal ends, and a holder can stop and release at any time |
| LeaseLock.RunAccounts | scheduler/lock/redis.go:120-124 | on every run, `lost` of a lease is closed at most once, and exactly when its sync.Once fired |
| LeaseLock.StaleForever | scheduler/lock/redis.go:18-36 | a token that no live key carries is never stored again, with any timing and any errors |
| LeaseLock.StaleHolderIsHarmlessAndSignalled | scheduler/lock/redis.go:125-165 | renewals and releases of a stale holder leave the store as it is, and a renewal leaves `lost` closed exactly once |
| LeaseLock.LeaseContinuity | scheduler/lock/redis.go:106-165 | if each due renewal is late by less than the slack and none errs, the holder owns the live key, with `lost` open, in every state until it starts to release |
| LeaseLock.HoldersOfOneKeyAreUnique | scheduler/lock/redis.go:101-131 | ownership intervals of one key by well served replicas are disjoint |
| LeaseLock.AcquireFailsWhileHeld | scheduler/lock/redis.go:113-119 | nobody acquires a key that a well served replica holds |
| LeaseLock.ShortTtlLosesTheLease | scheduler/lock/redis.go:133-165 | for every ttl under 2s, a run of one replica with a renewal late by 1ns that ends with the lease lost, the key past its expiry |
| LeaseLock.LatenessToleratedIff | scheduler/lock/redis.go:106-165 | some positive lateness of renewals is tolerated on every run, whatever other replicas do, exactly when ttl >= 2s; every lateness below the slack is |
| LeaseLock.StaleIffNotOwner | scheduler/lock/redis.go:18-36 | on every run, a lease whose replica does not own its key is stale, so lost for good, and conversely |
| LeaseLock.LeaseStays | scheduler/lock/redis.go:120-131 | no step of anybody forgets or renames a lease, and only its own release stops it |
| JobRunner.MemoryLock.TryAcquire | scheduler/lock/memory.go:20-36 | succeeds exactly when the local locks of the runs do not hold the name, and then shows them with it taken |
| JobRunner.MemoryLock.Release | scheduler/lock/memory.go:32-35 | shows the local locks of the runs without that one |
| JobRunner.RunsDoNotOverlap | scheduler/scheduler.go:273-281 | in every interleaving two runs of one WithoutOverlapping job on a process are never both in the callback |
| JobRunner.LocksRun | scheduler/scheduler.go:253-261 | every run of the jobs is a run of the lease lock: acquisitions and releases are its steps |
| JobRunner.CallbackOwnsItsKey | scheduler/scheduler.go:247-271 | a run whose replica is well served owns the live key of its job, with `lost` open, while it calls back |
| JobRunner.OneServerIfWellServed | scheduler/scheduler.go:247-271 | two runs of one OnOneServer job, on any processes, whose replicas are well served are never both in the callback |
| JobRunner.LeaseEnds | scheduler/scheduler.go:253-325 | a callback that does not own its key is stale in every later state, and each of its renewals enables its watcher if on duty |
| JobRunner.OneServerUnlessLeaseEnded | scheduler/scheduler.go:247-325 | with any timing and errors, of two such runs in the callback at once the lease of one has ended for good, and its next renewal lets its watcher cancel it |
| JobRunner.WatcherGuardsTheCallback | scheduler/scheduler.go:300-325 | while a callback on one server has a live context, its watcher is on duty or about to cancel; once it has cancelled or stopped the context is done; the flag is set only if `lost` is closed |
| JobRunner.LossReachesTheWatcher | scheduler/scheduler.go:316-319 | once the key is gone, the next renewal that runs or fails lets a watcher on duty fire |
| JobRunner.LocksCoverTheRun | scheduler/scheduler.go:261-325 | while the callback runs or the watcher has not stopped, the run holds the local lock and a lease it has not begun to release |
| JobRunner.OneOutcome | scheduler/scheduler.go:350-359 | at most one of finished and failed, at most one lost lease, in health and for listeners, and no outcome if the flag was read as set |
| JobRunner.FlagStays | scheduler/scheduler.go:307-350 | a flag set before the run reads it is read as set, unless the callback panics |
| JobRunner.LostLeaseReportsNoOutcome | scheduler/scheduler.go:346-352 | a flag set before it is read, so in particular before the callback returned, means neither finished nor failed is ever recorded or delivered |
| JobRunner.ReportOfAFinishedRun | scheduler/scheduler.go:307-360 | the exact record of a run that has joined its watcher: outcome and loss together exactly when the callback returned and the flag was set after it was read; for listeners exactly when besides the outcome was emitted before the context was done |
| JobRunner.LateLossReportsTwice | scheduler/scheduler.go:314-359 | for every OnOneServer job, a run whose listeners receive started, finished and skipped for a lost lease |
| JobRunner.DoubleReportIffOnOneServer | scheduler/scheduler.go:346-359 | a job has a run that delivers an outcome and a lost lease exactly if it runs on one server |
| JobOutcomes.OutcomeIsWhatTheCallbackReturned | scheduler/scheduler.go:350-359 | a run that launched and joined is recorded as finished exactly if its callback returned without error, as failed exactly if it returned one, unless the flag was found set; listeners receive that if it was delivered |
| JobOutcomes.DeliveredUnlessCancelled | scheduler/scheduler.go:283-298 | without timeout and without a lost lease the outcome of a run that returned is delivered |
| JobOutcomes.StartIsAnnounced | scheduler/scheduler.go:329 | the start is announced at most once, and for certain while the context is alive |
| JobOutcomes.SkippedExactlyIfBusy | scheduler/scheduler.go:247-261 | a run on one server is skipped as busy exactly when the key is live or the acquisition errs, and reports nothing else; otherwise it goes on and owns the key |
| JobOutcomes.SkippedExactlyIfOverlapping | scheduler/scheduler.go:273-281 | a run is skipped for overlap exactly when another run of its job is between taking and freeing the local lock of the process, and reports nothing else; otherwise it takes the lock |
| JobOutcomes.OverMeansGivenBack | scheduler/scheduler.go:261-280 | a run that is over holds no local lock and, unless it was busy, has stopped and released its lease |
| JobOutcomes.LastStepFreesTheKey | scheduler/scheduler.go:261 | the release of a run that still owns its key deletes it from the server and touches no other |
| JobOutcomes.RunsAreNeverStuck | scheduler/scheduler.go:247-360 | every run that is not over can take a step of its own, the join of the watcher included |
| JobQueue.RedisServer.RightPush | queue/drivers/redis/redis.go:115-118 | appends to the job's list |
| JobQueue.RedisServer.BlockingLeftPop | queue/drivers/redis/redis.go:137-156 | takes the head of the list, nothing exactly when it is empty, other lists untouched |
| JobQueue.RedisServer.RemoveMember | queue/drivers/redis/redis.go:173-179 | removes the member if it is there and tells how many were removed |
| JobQueue.RedisServer.AddMember | queue/drivers/redis/redis.go:211-215 | stores the member with the time it is due |
| JobQueue.StepKeeps | queue/drivers/redis/redis.go:96-216 | every action that pushes no (id, queue, payload) twice keeps the invariant that one card on file locates each pushed job and fixes its attempts and handler runs |
| JobQueue.RunKeeps | queue/queue.go:127-157 | the invariant holds in every state of every run on distinct tickets, late settlements included |
| JobQueue.LostByLateSettlement | queue/queue.go:136-151 | on every run, with any tickets, jobs are lost by exactly the settlements begun after the deadline of their cycle |
| JobQueue.Conservation | queue/drivers/redis/redis.go:96-216 | in every state a pushed job is at exactly one place (a list position, a sorted set, one worker's hands, done or dead) unless it was settled after its deadline, and then at none; nothing else is anywhere |
| JobQueue.NothingIsLostIff | queue/queue.go:209-211 | every pushed job is somewhere exactly when every settlement was begun before the deadline of its cycle, or its cycle has none |
| JobQueue.LateSettlementLosesAJob | queue/queue.go:136-151 | for every policy, job and handler time of 100ms or more, a run of the worker loop after which the job is nowhere |
| JobQueue.DelayedJobsAreTakenWhenDue | queue/drivers/redis/redis.go:160-185 | a removal after a peek, however stale, takes a job only when it is due now, and otherwise, or after the deadline, changes neither lists nor sets |
| JobQueue.HandlerSeesItsAttempts | queue/queue.go:135-139 | handler run k of a job sees k-1 attempts, and k <= MaxAttempts |
| JobQueue.DeadAfterAllAttempts | queue/queue.go:136-147 | a dead job was run exactly MaxAttempts times, died once, was never done, and its payload was pushed as one other job on the dead-letter queue |
| JobQueue.SettlementDecidesByAttempts | queue/queue.go:136-151 | a failed job is dead-lettered exactly when it is settled in time with MaxAttempts runs; in time with fewer it waits again with one attempt more; late it is nowhere |
| JobFates.DoneCountsSuccesses | queue/queue.go:135-157 | on every run with any tickets, a job is done as often as its handler returned without error, and was run as often as it returned |
| JobFates.SuccessIsTheEnd | queue/queue.go:153-156 | from a success on, the job is done, once, and in no list, sorted set or hands, and not dead |
| JobFates.DeadOnlyByFailures | queue/queue.go:136-147 | a dead job has no success and MaxAttempts failures |
| JobFates.ListsAreFifo | queue/drivers/redis/redis.go:115-156 | in one step a list stays, gains a job at its end or loses the one at its front to the worker that popped it |
| JobFates.PushAppends | queue/drivers/redis/redis.go:104-118 | a push appends a job with no attempts to its list and touches nothing else |
| JobFates.ReleaseWaitsForItsDelay | queue/drivers/redis/redis.go:203-215 | a failed job with attempts left, settled in time, waits with one attempt more at the end of its list or, with a delay, in the sorted set with score now + delay |
| JobFates.DelayedJobsAreTakenInOrder | queue/drivers/redis/redis.go:160-184 | a delayed job that is taken was, at the peek of its worker and within its deadline, due and the earliest due of its queue |
| JobFates.DeadlineOfItsCycle | queue/queue.go:209-210 | a worker at work is under the deadline its cycle began with |
| JobFates.WorkersAreNeverStuck | queue/queue.go:127-157 | a worker at work can always go on: removal, either handler result, settlement with any delay |
| JobFates.IdleWorkersFindWork | queue/drivers/redis/redis.go:121-185 | an idle worker can pop any non-empty list, and peek some member whenever one is due |
| JobCensus.RunBalances | queue/drivers/redis/redis.go:96-216 | on every run with any tickets, the pushes of a ticket are its jobs in list, sorted set, hands, done and dead, plus those settled late, plus those written over in a sorted set |
| JobCensus.BalancedIff | queue/drivers/redis/redis.go:208-215 | as many places as pushes exactly when no job of the ticket was settled late and none was written over |
| JobCensus.CollidingTicketsLoseAJob | queue/drivers/redis/redis.go:105-110 | for every ticket pushed twice and more than one attempt, eight steps after which two jobs are one member |
| JobCensus.ConservedIffTicketsDiffer | queue/drivers/redis/redis.go:105-118 | all runs that begin with two pushes keep as many places as pushes exactly when the two differ in id, queue or payload, or MaxAttempts is one |
| Retry.DelayOf | queue/retry.go:46-57 | for every policy and attempt, the call panics exactly if the wrapped and capped product is below 10ns |
| Retry.CapHidesSomeOverflows | queue/retry.go:51-54 | the delay before jitter is the target exactly when the product fits int64 or wraps to at least the cap, and otherwise less |
| Retry.BackoffWithinATenthIff | queue/retry.go:46-57 | for every policy and attempt, the delay is in [c, c + c/10) for all random numbers, with c = min(Max, Base*2^min(attempt-1,10)), exactly when c >= 10ns, the overflow of this attempt is none or hidden by the cap, and the jitter fits |
| Retry.NeverPanicsIff | queue/retry.go:30-57 | no attempt panics exactly when the cap and each of the eleven wrapped doublings are at least 10ns; if 1024*base fits, exactly when cap and base are |
| Retry.OverflowPanics | queue/retry.go:51-55 | attempt 2 panics for every policy with a base above half the int64 range |
| Retry.OverflowShortensTheDelay | queue/retry.go:51-56 | a base of 2^54+1 ns waits 1024 to 1125 ns before attempt 11 instead of the cap |
| Retry.TargetsGrow | queue/retry.go:46-54 | targets do not shrink with the attempts |
| Retry.TargetsDouble | queue/retry.go:46-54 | the target is the base at attempt 1, doubles with each attempt up to the eleventh, and is capped |
| Retry.WorkerWaits | queue/queue.go:200-233 | an error after k errors in a row waits min(100ms*2^k, 5s); any other outcome does not wait and ends the row |
| TokenBucket.TokensAlwaysInBounds | ratelimit/drivers/memory/memory.go:85-102 | tokens stay in [0, burst] over any calls on any clock |
| TokenBucket.RateBound | ratelimit/drivers/redis/redis.go:36-57 | on any clock, a window allows at most burst + rate * (the sum of the clock's advances) calls |
| TokenBucket.RateBoundInWindow | ratelimit/drivers/memory/memory.go:85-102 | on a clock that does not step back, at most burst + rate*(t-s) in [s,t] |
| TokenBucket.AllPassIffConforming | ratelimit/drivers/memory/memory.go:85-102 | on a clock that does not step back all calls pass exactly when between any two of them, both counted, there are at most burst + rate*(time between them) |
| TokenBucket.SkewedClockBreaksWindow | ratelimit/drivers/redis/redis.go:44-46 | for all limits, every skew d > 0 and every n, a run between 0 and d lets burst + n calls pass |
| TokenBucket.BoundedUnderSkewIff | ratelimit/drivers/redis/redis.go:36-57 | for all limits, every window of every run whose clock steps back by at most d obeys burst + rate*(t-s) exactly when d is zero |
| RateLimiters.RedisLimiter.constructor | ratelimit/drivers/redis/redis.go:88-113 | non-positive rate and burst become 10 and 20; the TTL is the one set, by default floor(burst/rate)+1 seconds and at least 2, computed in int64 nanoseconds |
| RateLimiters.RedisLimiter.Allow | ratelimit/drivers/redis/redis.go:29-58 | the script's answer and new hash are those of a bucket that is refilled, asked and stored with a new expiry |
| RateLimiters.RedisLimiter.Reset | ratelimit/drivers/redis/redis.go:138-146 | forgets the key |
| RateLimiters.MemoryLimiter.constructor | ratelimit/drivers/memory/memory.go:57-71 | non-positive settings become 10 calls a second, bursts of 20 and ten minutes |
| RateLimiters.MemoryLimiter.Allow | ratelimit/drivers/memory/memory.go:75-103 | answer and new bucket are those of the limiter that forgets nothing, on the buckets present |
| RateLimiters.MemoryLimiter.Reset | ratelimit/drivers/memory/memory.go:105-110 | forgets the key |
| RateLimiters.MemoryLimiter.EvictIdle | ratelimit/drivers/memory/memory.go:142-154 | removes exactly the buckets last seen before the cutoff, in any order of keys |
| RateLimiters.DefaultTtlCoversRefillIff | ratelimit/drivers/redis/redis.go:96-112 | the default TTL outlasts the refill of a burst exactly when that takes less than 9223372036 seconds |
| RateLimiters.ExpiryIsUnobservable | ratelimit/drivers/redis/redis.go:36-57 | with such a TTL every run of calls and resets on any keys is answered as without expiry |
| RateLimiters.ShortTtlExceedsTheRate | ratelimit/drivers/redis/redis.go:96-112 | for every shorter TTL, a run with a window that allows more than burst + rate*(t-s) |
| RateLimiters.ShortTtlIsObservable | ratelimit/drivers/redis/redis.go:96-112 | for every shorter TTL, a run that is answered differently |
| RateLimiters.ExpiryUnobservableIffTtlCovers | ratelimit/drivers/redis/redis.go:36-57 | expiry is unobservable on all runs exactly when ttl*rate >= burst |
| RateLimiters.EvictionIsUnobservable | ratelimit/drivers/memory/memory.go:142-154 | with idleTTL*rate >= burst, sweeps anywhere in a run change no answer |
| RateLimiters.ShortIdleExceedsTheRate | ratelimit/drivers/memory/memory.go:142-154 | for every shorter idle time, a run with one sweep and a window that allows more than burst + rate*(t-s) |
| RateLimiters.ShortIdleIsObservable | ratelimit/drivers/memory/memory.go:142-154 | for every shorter idle time, a run with one sweep that is answered differently |
| RateLimiters.EvictionUnobservableIffIdleCovers | ratelimit/drivers/memory/memory.go:142-154 | eviction is unobservable on all runs exactly when idleTTL*rate >= burst |
| RateLimiters.KeysAreIndependent | ratelimit/drivers/memory/memory.go:124-127 | calls for a key that is not reset are answered as by a bucket of its own |
| RateLimiters.ResetRestoresTheBurst | ratelimit/drivers/redis/redis.go:138-146 | after a reset a whole burst of calls passes at any time, whatever was stored, and other keys are as before |
| RateLimiters.MemoryResetRestoresTheBurst | ratelimit/drivers/memory/memory.go:105-110 | the same for the memory limiter |
| RateLimiters.RedisRateBound | ratelimit/drivers/redis/redis.go:36-57 | in any window of any run, expiry and other keys included, a key gets at most burst + rate*(t-s) |
| RateLimiters.RedisRateBoundIff | ratelimit/drivers/redis/redis.go:36-57 | that holds for all windows, runs and keys exactly when ttl*rate >= burst |
| RateLimiters.MemoryRateBound | ratelimit/drivers/memory/memory.go:75-103 | the same with sweeps anywhere |
| RateLimiters.MemoryRateBoundIff | ratelimit/drivers/memory/memory.go:75-103 | that holds for all windows, runs and keys exactly when idleTTL*rate >= burst |
| FileCache.KeyMutex.LockSection | cache/drivers/file/file.go:269-280 | finds or makes the entry of the key and counts one holder more |
| FileCache.KeyMutex.UnlockSection | cache/drivers/file/file.go:282-294 | unlocks, counts one holder less and removes the entry at zero |
| FileCache.EnterKeeps | cache/drivers/file/file.go:269-278 | entering keeps: keys in the map are the keys in flight, counts are owners plus waiters, one owner |
| FileCache.AcquireKeeps | cache/drivers/file/file.go:279 | locking a free inner mutex keeps them |
| FileCache.LeaveKeeps | cache/drivers/file/file.go:282-294 | leaving keeps them, the deletion of the entry included |
| FileCache.OneOwnerPerKey | cache/drivers/file/file.go:254-294 | in every state at most one thread owns a key, holders is owners plus waiters, and the map holds exactly the keys in flight |
| FileCache.Linearizable | cache/drivers/file/file.go:116-242 | in every state the files and all answers are those of the operations executed one after the other |
| FileCache.EffectOfAWrite | cache/drivers/file/file.go:116-242 | the step that writes: after Put the key holds the value, after Forget nothing, Add answers true and stores exactly if there was no file, an adjustment leaves text that reads as the answered wrapped sum or refuses and leaves the file; no other file changes |
| FileCache.EffectOfARead | cache/drivers/file/file.go:84-90 | a read answers what is on disk and changes nothing |
| FileCache.OnlyWritesChangeFiles | cache/drivers/file/file.go:116-242 | on every run a step that is not a write leaves every file as it is |
| FileCache.PerformsWhatWasStarted | cache/drivers/file/file.go:116-242 | a busy thread performs the operation its caller started |
| FileCache.NoDeadlock | cache/drivers/file/file.go:269-294 | whenever a key is in flight some thread that uses it can take its next step |
| FileCache.NoUpdateIsLost | cache/drivers/file/file.go:212-242 | a key touched by increments and decrements only holds the sum of all deltas, wrapped to int64 |
| Int64.WrapSum | cache/drivers/file/file.go:236 | wrapping early or late gives the same sum |
| Decimal.ParseUndoesFormat | cache/drivers/memory/memory.go:204-214 | decimal text reads back as its number exactly for int64 numbers, negatives included |
| Decimal.DigitsAreBaseTen | cache/drivers/memory/memory.go:213 | a digit appended is worth ten times the number before it plus itself |
| Decimal.ParseAccepts | cache/drivers/memory/memory.go:204-207 | a plus sign and leading zeros are accepted, a minus negates, a bare sign and empty text are refused |
| MemoryCache.Cache.Get | cache/drivers/memory/memory.go:85-101 | the value if it is there and not expired; an expired entry is removed |
| MemoryCache.Cache.Put | cache/drivers/memory/memory.go:103-120 | stores under the prefixed key, with an expiry exactly for a positive TTL |
| MemoryCache.Cache.Add | cache/drivers/memory/memory.go:122-134 | stores exactly when nothing unexpired is there |
| MemoryCache.Cache.Has | cache/drivers/memory/memory.go:147-163 | tells whether an unexpired entry is there |
| MemoryCache.Cache.Forget | cache/drivers/memory/memory.go:136-145 | removes that key only |
| MemoryCache.Cache.Flush | cache/drivers/memory/memory.go:167-183 | removes exactly the keys with the prefix, in any order |
| MemoryCache.Cache.Adjust | cache/drivers/memory/memory.go:193-217 | the new counter, or a refusal that changes nothing when the text is no int64 |
| MemoryCache.Cache.SweepOnce | cache/drivers/memory/memory.go:73-80 | removes exactly the entries expired at the tick |
| MemoryCache.StepRepresents | cache/drivers/memory/memory.go:62-217 | every operation keeps the items a representation of a plain timed map, and all stored keys prefixed |
| MemoryCache.FlushRepresents | cache/drivers/memory/memory.go:167-183 | since every stored key has the prefix, Flush empties the store |
| MemoryCache.CacheIsATimedMap | cache/drivers/memory/memory.go:44-217 | every run, with sweeps anywhere, gets the results of a plain map with expiry times |
| MemoryCache.AdjustedReadsBack | cache/drivers/memory/memory.go:193-217 | an adjusted counter reads back as the answered number and keeps its expiry |
| CacheHistory.CacheMeansItsHistory | cache/drivers/memory/memory.go:44-217 | every result of every run, with any prefix and sweeps anywhere, is what the operations so far determine: a value put is hit until its TTL has passed, an addition counts only if nothing was there, an adjusted counter lives as long as the old one |
| CircuitBreaker.CircuitBreaker.constructor | resilience/circuitbreaker.go:66-81 | defaults applied, closed, nothing notified |
| CircuitBreaker.CircuitBreaker.RefreshLocked | resilience/circuitbreaker.go:137-143 | open becomes half-open exactly when the window has elapsed |
| CircuitBreaker.CircuitBreaker.NotifyChange | resilience/circuitbreaker.go:149-153 | notifies exactly the real transitions |
| CircuitBreaker.CircuitBreaker.Allow | resilience/circuitbreaker.go:95-105 | the step of the history model, rejecting exactly when the breaker is then open |
| CircuitBreaker.CircuitBreaker.ReadState | resilience/circuitbreaker.go:86-92 | the step of the history model and its state |
| CircuitBreaker.CircuitBreaker.Success | resilience/circuitbreaker.go:108-117 | the step of the history model |
| CircuitBreaker.CircuitBreaker.Failure | resilience/circuitbreaker.go:120-131 | the step of the history model |
| CircuitBreaker.RunMeansHistory | resilience/circuitbreaker.go:86-143 | after any calls in order the fields mean the failures since the last success and the last failure's time |
| CircuitBreaker.BreakerRefinesHistory | resilience/circuitbreaker.go:86-105 | what Allow and State observe is a function of that history |
| CircuitBreaker.AllowRejectsByHistory | resilience/circuitbreaker.go:95-131 | rejected exactly when at least maxFailures failures followed the last success and now is before the last failure + resetTimeout |
| CircuitBreaker.HalfOpenAdmitsEveryProbe | resilience/circuitbreaker.go:95-105 | after any number of probes in a row the next one is still admitted |
| CircuitBreaker.NotificationsFormAPath | resilience/circuitbreaker.go:86-153 | the notified transitions form a path from closed to the present state without self-loops |
| ConfigTree.MergeTrees | config/repository.go:391-403 | the loop, in any order of keys, computes the merge |
| ConfigTree.MergeMeaning | config/repository.go:391-403 | for every path: src's non-map, the merge of both maps, nothing below a non-map of src, or else dst's lookup |
| ConfigTree.UndecidedIsAbsent | config/manager.go:105-117 | a path that no loaded source speaks about is absent after a reload |
| ConfigTree.LastSourceWins | config/manager.go:91-120 | a path is decided by the last loaded source that mentions it or a non-map prefix of it |
| ConfigStore.Write | config/repository.go:77 | one assignment to one map object turns the laid out tree into the one with that path set |
| ConfigStore.Erase | config/repository.go:96 | one deletion from one map object turns the laid out tree into the one without that path |
| ConfigStore.Repository.Replace | config/repository.go:38-45 | the repository holds the new tree |
| ConfigStore.Repository.Get | config/repository.go:299-318 | the walk over map objects finds what the lookup in the tree finds, nothing for an empty path |
| ConfigStore.Repository.MakeWay | config/repository.go:68-76 | the loop of Set leaves a map object for the last name, and a tree in which setting the path gives the same as before |
| ConfigStore.Repository.Set | config/repository.go:61-78 | the in-place walk and write leave objects that hold the tree with the path set; what lookups then find is ConfigTree.LookupAfterSet |
| ConfigStore.Repository.FollowWay | config/repository.go:88-95 | the loop of Forget finds the map object of the last name, or there is nothing to forget |
| ConfigStore.Repository.Forget | config/repository.go:81-97 | the in-place walk and delete leave objects that hold the tree without the path; what lookups then find is ConfigTree.LookupAfterForget |
| ConfigStore.Manager.Reload | config/manager.go:95-120 | the repository holds the merge of the sources that loaded, in order; the first failure is answered; a closed manager keeps its tree |
| ConfigTree.LookupAfterSet | config/repository.go:61-78 | every path after Set: at and below the path the value, on the way the maps that gained it, elsewhere as before |
| ConfigTree.LookupAfterForget | config/repository.go:81-97 | every path after Forget: nothing at and below it, on the way the maps without it, elsewhere as before |
| ConfigKeys.SplitUndoesJoin | config/repository.go:320-333 | splitting undoes joining with dots on non-empty dot-free names |
| ConfigKeys.SplitKeyLaws | config/repository.go:320-333 | a dot separates, and text without one is one name, or none if empty: the two laws determine splitKey |
| ConfigKeys.JoinIsInjective | config/repository.go:335-347 | flat keys of different paths differ |
| ConfigKeys.Flatten | config/repository.go:335-347 | writes exactly the leaves below the map, in any order of keys, and keeps the rest of the output |
| ConfigKeys.AllFlat | config/repository.go:291-297 | key maps to x exactly when key is canonical and its lookup is the non-map x |
| ConfigKeys.FlatMeansLookup | config/repository.go:291-347 | the same of any output that holds exactly the leaves |
| TagParser.IndexOutsideQuotes | validation/parser.go:83-96 | the first occurrence preceded by an even number of quotes, or -1 |
| TagParser.ParseTag | validation/parser.go:23-81 | the one-pass scanner computes: trim, cut at commas outside quotes, drop a blank end, read each segment as a call; what that gives for written tags is TagPrinter.WrittenTagIsRead |
| TagParser.CallsFailExactly | validation/parser.go:33-55 | reading segments fails exactly if one is blank or has a blank name |
| TagParser.ParsingFailsExactly | validation/parser.go:56-80 | parsing fails exactly on an odd quote count, a blank non-final segment or a blank rule name |
| TagParser.SegmentsRebuild | validation/parser.go:56-73 | the segments joined by commas are the tag, from either quote state |
| TagParser.CutIsDetermined | validation/parser.go:56-73 | the segments are the only list that joins to the tag by commas, holds no comma outside quotes and closes quotes before its end |
| TagPrinter.CallIsReadBack | validation/parser.go:33-54 | a written call is read as its name and parameter, white space around both dropped, quotes taken off exactly if they are at both ends |
| TagPrinter.WrittenTagIsRead | validation/parser.go:14-103 | for every list of calls, each with or without a parameter, in quotes, partly in quotes or not, with white space anywhere around names, equals signs, parameters and commas, and perhaps a comma at the end, the parser gives back the calls |
| TagPrinter.BareParametersAreRead | validation/parser.go:14-21 | a list with parameters written without quotes, equals signs in them included, is read back |
| TagPrinter.ParserUndoesPrinter | validation/parser.go:14-103 | every list of calls with trimmed non-empty names free of quote, comma and equals, and parameters free of quotes, is read back from its printed form |
| AsyncLog.Core.constructor | observability/asynchandler.go:87-98 | an empty open channel of the given or the default capacity |
| AsyncLog.Core.Handle | observability/asynchandler.go:125-133 | queues or drops, as the step of the system, and never blocks |
| AsyncLog.Core.Receive | observability/asynchandler.go:102-112 | one round of the worker's loop, as the receive or exit step of the system |
| AsyncLog.Core.Close | observability/asynchandler.go:167-168 | closes once |
| AsyncLog.RecordsAreConserved | observability/asynchandler.go:102-175 | in every state accepted = processed ++ in flight ++ queued, in order; accepted + dropped = calls; the queue is within capacity; Shutdown returning nil implies processed = accepted |
| AsyncLog.DropsOnlyWhenFull | observability/asynchandler.go:125-133 | a record is dropped exactly when the queue is full, and otherwise queued last |
| AsyncLog.NobodyIsStuck | observability/asynchandler.go:102-175 | producers are never blocked, and after Shutdown has closed the channel the worker can go on until Shutdown can return nil |
| KeyRing.TokenRoundTrip | encryption/encrypter.go:106-166 | a token is taken apart into its id and bytes exactly when the id has no colon |
| KeyRing.TokensAre | encryption/encrypter.go:106-166 | exactly the texts `v1:<id>:<encoded bytes>` with a non-empty id without colon are tokens of that id and bytes |
| KeyRing.Encrypter.constructor | encryption/encrypter.go:30-32 | an empty ring |
| KeyRing.Encrypter.AddKey | encryption/encrypter.go:40-57 | accepted exactly for a non-blank new id and a fitting key; the first key becomes primary; a refusal changes nothing |
| KeyRing.Encrypter.SetPrimary | encryption/encrypter.go:62-70 | accepted exactly for a registered id; a refusal changes nothing |
| KeyRing.KeysStay | encryption/encrypter.go:40-70 | no history replaces or removes a key |
| KeyRing.HistoryStep | encryption/encrypter.go:40-70 | what each action of a history does: a key is added exactly if its id is new and not blank and it fits, and is primary exactly if it is the first; a registered id becomes primary; anything else changes nothing |
| KeyRing.NextTokenCarriesTheNewId | encryption/encrypter.go:62-107 | after SetPrimary of a registered id without colon the next token carries it |
| KeyRing.DecryptNeedsItsKey | encryption/encrypter.go:115-132 | nothing decrypts without the key its token names |
| KeyRing.EncryptsOnceAKeyIsThere | encryption/encrypter.go:93-101 | at every moment of every history encryption works exactly if some key was accepted |
| KeyRing.RotationKeepsTokens | encryption/encrypter.go:93-166 | a token of any moment decrypts at every later one, and names the primary of its moment, exactly if that id has no colon |
| KeyRing.DecodeHex | encryption/encrypter.go:189-218 | fails exactly on odd length or a character that is no hex digit; otherwise yields the bytes of the digit pairs |
| KeyRing.DecodingUndoesPrinting | encryption/encrypter.go:189-218 | the decoding of printed bytes is those bytes and nothing else, whichever case each digit has (section 8 of RFC 4648) |
| PrefixDelete.Store.Delete | storage/drivers/memory/memory.go:145-157 | removes the object and tells whether it was there |
| PrefixDelete.Store.List | storage/drivers/memory/memory.go:190-232 | in any order of objects: the direct children, a directory only if something is below it and, for the in-memory driver, no object has its key |
| PrefixDelete.Store.DeleteBelow | storage/disk.go:278-295 | terminates and leaves exactly the survivors: objects not strictly below the directory and, for the in-memory driver, those below another object that is |
| PrefixDelete.DirectoriesShrink | storage/disk.go:284-289 | each recursive call has strictly fewer directories below it |
| PrefixDelete.ListingCovers | storage/disk.go:278-293 | an object is reached from a directory exactly when one entry of its listing takes it |
| PrefixDelete.DeleteIsExactIff | storage/disk.go:271-295 | everything strictly below the directory and nothing else is removed exactly when the driver does not hide directories or no object below it has another below itself |
| PrefixDelete.HiddenObjectSurvives | storage/drivers/memory/memory.go:213-225 | with objects a and a/b the in-memory driver leaves a/b |

## Left out

- Clocks, randomness, the network and the disk: times, tokens, jitter and outcomes are inputs of the actions; the Redis server executes its documented commands.
- Floating point: tokens, rates and Redis scores are exact.
- LeaseLock.LeaseContinuity: a tick that the Go ticker would drop because the previous one is unread stays due here, so lateness is counted from the due time; a renewal that errs although it was applied is outside the hypotheses, since the holder then gives up.
- JobRunner.OneServerIfWellServed: is about the leased lock with compare-and-delete; the cache-backed lock of scheduler/lock/cache.go deletes unconditionally and is not modelled. The context of the scheduler itself is alive throughout.
- Scheduling, maintenance mode, environments, time windows and conditions that skip a run before it takes a lock: easy branches in front of the modelled part.
- JobQueue.Conservation: Redis itself does not fail and processes do not crash; the one error is a command begun under an expired context, which is not sent. A command that was sent is carried out, as go-redis does unless told otherwise. JSON text of a job is modelled by the record it encodes. Closing the backend is not a step.
- The in-memory queue driver: its delayed jobs are not conserved (queue/drivers/memory/memory.go:120-126).
- RateLimiters.MemoryLimiter.Allow: takes the monotonic clock of Go's time values as given; `last` and `lastSeen` are one field, since they are always set together.
- RateLimiters.MemoryLimiter.EvictIdle: is one atomic round; the gap between its check and its deletion is not modelled.
- RateLimiters.DefaultTtlCoversRefillIff: a quotient beyond int64 itself, whose conversion Go leaves to the platform, wraps here.
- FileCache.Linearizable: is about entries without TTL and a disk without errors; corrupt envelopes, the unlocked removal of expired files in `read`, and `Flush` are not modelled. A plain write counts as a read whose result is not used. The two statements of unlock, `m.Unlock` and `holders--`, are one step, although a waiter could lock between them.
- MemoryCache.CacheIsATimedMap: is about the time before Shutdown; copies of byte slices are values here.
- CircuitBreaker.NotificationsFormAPath: orders notifications by the lock; callbacks run outside it and may be delivered late.
- ConfigStore.Repository.Set: asks that a map given as the value shares no object with the tree, and `Replace` lays out fresh objects; Go's Merge may keep a source's own submap, and then the source sees later writes. Keys are paths here; ConfigKeys says how keys are split.
- ConfigTree.MergeMeaning: associativity of Merge is not claimed; it fails for a map, a scalar and a map across three sources.
- Typed getters, config sources, watchers and subscribers: conversions and wiring.
- ConfigKeys.AllFlat: for names that are non-empty and free of dots, as the flat view needs; other names collide.
- TagParser.ParseTag: errors carry no text; the scanner's bytes are characters here, which agree on the separators.
- AsyncLog.RecordsAreConserved: Handle after Shutdown panics in Go and is not a step. A drop is counted in the step of the select that decides it.
- KeyRing.RotationKeepsTokens: the cipher and base64 are given, with their round trips as hypothesis.
- PrefixDelete.Store.DeleteBelow: keys are sequences of names; trimming and path cleaning of the prefix text, driver errors other than a missing object, and concurrent writers are not modelled.
- All cloud, mail, webhook, NATS, database and telemetry drivers, HTTP middleware, registries and context helpers: clients and wiring over libraries.

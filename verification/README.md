# GitDuppy: protocols and recovery, in Dafny

GitDuppy mirrors git repositories. Its hard logic is in-process: a pool of clone workers
that must not lose or repeat a job, a cache of validated users that must not outlive a
revocation, an evicting table of locks, a paperbin of pruned branches whose git refs and
database rows must stay in step, and a set of loops that bound retries, logins and request
rates. This project models those components and proves what they promise.

Where components run concurrently the model is a transition system: a `State`, a `Step`
with a guard and an effect, an invariant, and results over every run, in any interleaving.
Where the code updates an object in place there is also a class with the same fields whose
methods have the code's branches and loops, each proved against the functions the results
are about. The database, git and the file system are maps with atomic steps. What comes
from outside (clocks, network, git's answers, the order of a map's iteration, random
jitter) is a parameter or a free choice.

| file | component |
|---|---|
| Wrappers.dfy | shared types |
| DispatchLine.dfy, ClonePool.dfy, CloneWorker.dfy, Shutdown.dfy | the clone pool: the dispatcher's line, the whole pool as interleaved steps, the worker's methods, the way to Stop's return |
| Restart.dfy, Scheduler.dfy, JobWriters.dfy, RetryBackoff.dfy | the start-up pass, the tick and CreateCloneJob, all writers of jobs interleaved, the pacing of retries |
| ClonePlacement.dfy | clone into a temporary directory, rename or copy into place, with crashes |
| KeyedMutex.dfy | reference-counted locks, as a refinement of permanent ones |
| AuthCache.dfy | the generation protocol between validators and revokers |
| Paperbin.dfy, PaperbinWork.dfy, RepositoryExpiry.dfy | archival refs and rows interleaved, the operations one by one, expiry of repositories |
| TokenBucket.dfy, IdleSweep.dfy | request rates; lookups, calls, idle checks and deletions interleaved |
| Archive.dfy | soft delete and restore through an archive |
| Webhook.dfy, LoginThrottle.dfy, Dedupe.dfy | delivery attempts, login lockout, disk accounting |
| LogHub.dfy | live log channels |

## Where the code does not do what it says

Each of these is a lemma with a concrete state or input, next to the exact condition under
which the promise does hold.

- Start-up comment (internal/gitops/scheduler.go:15-28): rows no live worker owns do not
  linger. The pass tells them by age alone, so after a crash a row started within the clone
  timeout is taken for a live worker's: it stays running, belongs to nobody, and keeps its
  repository busy (`Restart.CrashPinsRecentRun`; `Restart.PassResumesUnlessPinned` is the
  exact condition).
- The gap after a failed clone has two holes. A scheduler tick that straddles the failure
  reads the repository before it and the busy set after it; and a second job, made because
  the running one was cancelled, waits beside it and starts at once when it fails
  (`RetryBackoff.StaleTickBreaksTheGap`, `RetryBackoff.SecondJobBreaksTheGap`;
  `RetryBackoff.GapHoldsExactly` is the exact condition).
- A repository can have two unfinished jobs: handleFailure inserts its retry without a look,
  and a look and its insert are separate statements
  (`JobWriters.CancelledFailureMakesTwo`, `JobWriters.TwoLooksMakeTwo`; exactly:
  `JobWriters.OneUnfinishedExactly`, `JobWriters.RetryIsSafeExactly`).
- The cache's generation is 64 bits wide and wraps (`AuthCache.WrappedGenerationResurrects`;
  exactly: `AuthCache.PublishIsSafeExactly`).
- A second restore of one branch name takes the branch from the first, and with it the
  first commit's only ref (`Paperbin.SecondRestoreDropsFirst`; exactly:
  `Paperbin.RestoreKeepsExactly`).
- A legacy ref that is passed over because it is shared can outlive all of its rows
  (`Paperbin.TwoLegacyRowsLeak`, `Paperbin.TwoReleasesTogetherLeak`; exactly:
  `Paperbin.LegacyRefGoesExactly`).
- A restore keeps going when it cannot release the event ref, and says the ref pins the
  commit only a little longer; nothing ever removes it (`Paperbin.FailedReleaseForgets`,
  `Paperbin.ForgottenEventRefStays`; exactly: `Paperbin.EventRefGoesExactly`).
- A repository restored between the listing of expired ones and its transaction is purged all
  the same (`RepositoryExpiry.Store.PurgeListed`, with the exact condition).
- The rate limiter deletes a bucket it judged idle earlier. A client that spends the bucket in
  between gets a second burst (`IdleSweep.LateDropDoubles`; exactly: `IdleSweep.LinkedExactly`,
  `IdleSweep.HarmlessExactly`).
- After twelve failed renames a finished clone is copied into place, and the copy is not atomic:
  a process that dies in it leaves a part that passes for a repository, which every later
  attempt fetches into (`ClonePlacement.TornCopyIsTakenForAClone`; exactly:
  `ClonePlacement.WholeExactly`). And a copy onto a leftover that could not be removed goes
  inside it, so the job succeeds without a repository on the path
  (`ClonePlacement.Storage.PlaceClone`).
- A local branch whose own name begins with "refs/remotes/origin/" is recorded, and would be
  restored, without that part (`PaperbinWork.Names`, `PaperbinWork.BatchExactly`).
- A clone interval has a lower bound and no upper one; above 153722867 minutes its 64-bit
  duration wraps, and a repository meant to be cloned almost never can be cloned on every tick
  (`Scheduler.LongIntervalIsOverAtOnce`; exactly: `Scheduler.IntervalIsKeptExactly`).
- Retention days are not bounded before they become a 64-bit duration; above 106751 days a
  branch can go at once (`PaperbinWork.KeptForRetention`).
- Extraction compares a resolved path with an unresolved destination. When the storage
  root lies below a symbolic link no archive can be unpacked, and a delete whose row update
  fails loses the tree (`Archive.ContainedExactly`, `Archive.Checkout.Delete`). A restore whose
  row update fails removes the tree even when it could not be archived again
  (`Archive.Checkout.Restore`).
- A webhook's budget may be ten attempts, but the ten-minute deadline never leaves time for
  a seventh (`Webhook.SixFit`, `Webhook.Delivery.Deliver`).
- The limit on throttle entries is a trigger for a sweep, not a bound
  (`LoginThrottle.FullMapStillGrows`), and logins past the gate together are all counted
  (`LoginThrottle.TogetherTheyAreCounted`; exactly: `LoginThrottle.PacedExactly`).

## Model

| member | source | states |
|---|---|---|
| `DispatchLine.DeliveryIsFifo` | internal/gitops/worker.go:334-400 | in every reachable state of callers, dispatcher and workers the received jobs are a prefix of the Enqueue order, everything enqueued is received, buffered, in hand or in the backlog in that order, the channel keeps its capacity, and a dispatcher waiting on a non-empty backlog has a token or a caller about to signal |
| `DispatchLine.ParkedDispatcherCanProceed` | internal/gitops/worker.go:368-398 | from a parked dispatcher with work waiting, at most three steps (signal, wake-up, scan) put the oldest waiting job into its hand |
| `DispatchLine.DueStepsStayDue` | internal/gitops/worker.go:334-398 | and along every run without a stop, whatever callers and workers do, a job has been handed on, or the same job is first, the next of those steps is enabled, and as many fewer are due as were taken |
| `DispatchLine.WakesAreSignalled` | internal/gitops/worker.go:334-398 | every Enqueue signals once, and the dispatcher wakes no more often than it is signalled, so it never spins |
| `DispatchLine.StepCounts` | internal/gitops/worker.go:334-400 | only an Enqueue puts a job into the line, and only a receive or the dispatcher's exit takes one out, counted per job |
| `ClonePool.EveryJobIsInOnePlace` | internal/gitops/worker.go:246-448 | conservation: in every reachable state, shutdown and starts after a crash included, a job has a row exactly if it is in exactly one of caller's hand, backlog, dispatcher, channel, worker, timer, settled, left for the next start, or left running by a crashed process |
| `ClonePool.OneGitOperationPerPath` | internal/gitops/worker.go:512-567 | at most one worker is inside the clone or fetch section of a path, duplicates of one repository's job included; a TryLock is refused only while another worker is in it |
| `ClonePool.LoserIsDeferredOnce` | internal/gitops/worker.go:518-541 | the loser of a path gets exactly one timer and then one appearance anywhere, unless its row was cancelled, when it is settled |
| `ClonePool.SafeDrain` | internal/gitops/worker.go:294-326 | the in-flight counter equals the workers inside processJob; from the moment stopping is set no step of any run raises it, and once seen at zero no worker ever enters processJob again |
| `ClonePool.StopLeavesResumableRows` | internal/gitops/worker.go:323-326 | when Stop has returned every job is settled with a final status, or its row is pending or cancelled; only rows a crashed process left running can still be |
| `Shutdown.StopCanAlwaysReturn` | internal/gitops/worker.go:294-326 | no deadlock: from every reachable state, whatever is under way, some run of Stop's and the pool's own steps drains and ends with Stop returned, and no git operation need be interrupted for it |
| `Shutdown.NobodyLeavesEarly` | internal/gitops/worker.go:294-448 | until Stop has begun the dispatcher and all workers are there, in every run |
| `Shutdown.DispatcherGoesOn` | internal/gitops/worker.go:334-398 | a parked dispatcher with work waiting goes on in at most three steps of the pool |
| `ClonePool.FinalStatusIsForever` | internal/gitops/worker.go:836-843 | a row that reaches success, failed or cancelled keeps it for the rest of the process, whoever writes next |
| `ClonePool.PoolIsFifo` | internal/gitops/worker.go:334-448 | FIFO and no lost wake-up carried from the line to the whole pool |
| `CloneWorker.Pool.Enqueue` | internal/gitops/worker.go:334-347 | appends to the backlog and leaves a token in the notify channel, and changes nothing else |
| `CloneWorker.Pool.Dispatch` | internal/gitops/worker.go:368-401 | from any backlog and channel: what is moved, held and left is the old sequence, in order; it returns exactly when a stop has been signalled, and otherwise parks only on an empty backlog without a token or on a full channel |
| `CloneWorker.SequentialDispatch` | internal/gitops/worker.go:368-401 | the state the loop parks in is reached by a run of the line's steps |
| `CloneWorker.Pool.Admit` | internal/gitops/worker.go:408-416 | admits exactly while not stopping, and then adds exactly one to the counter |
| `CloneWorker.Pool.ProcessJob` | internal/gitops/worker.go:475-919 | from any rows, locks and answers of git, database and shutdown, case by case: a cancelled row stays; a refused job fails; one whose path is locked is pending with its timer; once git runs the row is a success exactly if git succeeded, pending exactly if the stop interrupted it and failed otherwise, with a retry row and timer exactly then; path lock and in-flight count are given back and no other row changes |
| `CloneWorker.OutcomeOfJob` | internal/gitops/worker.go:475-919 | the same cases said of the outcome the methods and the pool's runs share |
| `CloneWorker.Pool.LockAndRun` | internal/gitops/worker.go:512-560 | the locked section: path held while git runs, free again on every way out |
| `CloneWorker.Pool.DeferJob` | internal/gitops/worker.go:518-541 | a job that lost its path goes back to pending with one timer, a cancelled one is left cancelled without a timer |
| `CloneWorker.Pool.RunGit` | internal/gitops/worker.go:553-898 | with the path locked: success exactly if git succeeds, pending exactly if it fails under a stop, failed otherwise, never over a cancelled row |
| `CloneWorker.Pool.FinishGit` | internal/gitops/worker.go:567-898 | git runs only under the path lock and a running row; success exactly if it succeeds, pending exactly if it fails under a stop, failed otherwise, with a retry row and timer exactly then |
| `CloneWorker.Pool.FailJob` | internal/gitops/worker.go:901-919 | fails a row unless it is cancelled |
| `CloneWorker.Pool.CancelJob` | internal/services/clone_service.go:218-240 | cancels exactly an unfinished row, and refuses every other |
| `CloneWorker.SequentialProcessJob` | internal/gitops/worker.go:475-919 | the outcome of processJob run to its end is reached by a run of the pool's steps, so the pool's safety results cover it; that run has a successful git step if and only if git runs and succeeds, and a failing one if and only if it runs and fails |
| `CloneWorker.SequentialGit` | internal/gitops/worker.go:553-898 | the same for the part under the path lock, git steps included |
| `CloneWorker.SequentialError` | internal/gitops/worker.go:836-871 | the same for the ways out after a git error: requeue on shutdown, else failure and an optional retry |
| `Restart.Startup.ReapOrphanedJobs` | internal/gitops/scheduler.go:29-71 | the start-up pass: failed are exactly the rows running without a start or since longer than the clone timeout (an hour if not set) and a minute, and those pending longer than that; every row still pending is enqueued once, oldest first |
| `Restart.LeftoversAreResolvedOnce` | internal/gitops/scheduler.go:42-71 | a pending row left behind is failed as stale or enqueued exactly once, never both; other rows are not enqueued and final rows keep their status |
| `Restart.PassResumesUnlessPinned` | internal/gitops/scheduler.go:42-49 | after the pass no row is running if and only if no row of the dead process was both running and recently started |
| `Restart.CleanStopResumes` | internal/gitops/scheduler.go:29-71 | after any Stop that returned final rows keep their status and the next start finds no row running that its predecessor had not found so |
| `Restart.CrashPinsRecentRun` | internal/gitops/scheduler.go:14-49 | after a crash a recently started running row stays unfinished and is not enqueued, against the comment that a start leaves no such row |
| `Restart.CrashPinsExample` | internal/gitops/scheduler.go:42-49 | a concrete table that ends up so |
| `Scheduler.JobTable.ScheduleCloneJobs` | internal/gitops/scheduler.go:128-201 | one new pending row, enqueued in order, for exactly the due, idle, accepted repositories; every old row unchanged |
| `Scheduler.JobTable.CreateCloneJob` | internal/services/clone_service.go:106-149 | returns the newest unfinished job of the repository if there is one, else makes and enqueues exactly one |
| `Scheduler.TickKeepsOneUnfinished` | internal/gitops/scheduler.go:143-201 | a tick whose look at the busy set and inserts nobody comes between never gives a repository a second unfinished job |
| `Scheduler.CreateKeepsOneUnfinished` | internal/services/clone_service.go:115-149 | a new pending row keeps at most one unfinished job if and only if the repository is idle at the moment of the insert |
| `Scheduler.TickHonoursBackoff` | internal/gitops/scheduler.go:163-201 | on times: a tick makes a job for a repository if and only if none of its jobs is pending or running, the row is accepted, its backoff is over and its interval is, which up to 153722867 minutes means that sixty seconds for each of them have passed since its last clone; and then exactly one |
| `Scheduler.IntervalIsKeptExactly` | internal/gitops/scheduler.go:175-176 | the interval is kept if and only if it is at most 153722867 minutes; above, the 64-bit duration wraps and some repository is due too early |
| `Scheduler.LongIntervalIsOverAtOnce` | internal/gitops/scheduler.go:175-176 | two hundred million minutes are over at once, on every tick |
| `JobWriters.OneUnfinishedExactly` | internal/gitops/scheduler.go:143-201 | over every run of all writers, with looks and inserts apart and the retry insert without a look: at most one unfinished job per repository throughout if and only if no row is inserted while its repository has one |
| `JobWriters.LateInsertCollidesExactly` | internal/services/clone_service.go:115-139 | a writer that saw the repository idle collides if and only if another row of it was inserted since its look and is still unfinished |
| `JobWriters.LookThenInsert` | internal/services/clone_service.go:115-139 | a look and the insert right after it cannot collide |
| `JobWriters.TickIsARun` | internal/gitops/scheduler.go:143-201 | a tick nobody interrupts is a run of these steps, so the results about runs cover it |
| `JobWriters.TickServesOnce` | internal/gitops/scheduler.go:143-201 | a tick serves a repository once, and never one it saw busy |
| `JobWriters.RetryIsSafeExactly` | internal/gitops/worker.go:990-1003 | the retry row of a failed job is safe if and only if the row was not cancelled under way or nothing has taken its place |
| `JobWriters.AttemptEnds` | internal/gitops/worker.go:836-1003 | how an attempt ends: success, pending again, or failed with or without a retry row; a cancelled row stays cancelled, and nothing is left under way |
| `JobWriters.CancelledFailureMakesTwo` | internal/gitops/worker.go:990-1003 | cancel a running job, ask for another, let the first fail: two unfinished rows |
| `JobWriters.TwoLooksMakeTwo` | internal/services/clone_service.go:115-139 | two requests that both look before either inserts: two unfinished rows |
| `RetryBackoff.RetryDelay` | internal/gitops/worker.go:930-946 | for every base and failure count, in 64-bit arithmetic without overflow: min(base * 2^n, 1 h) plus at most half of it |
| `RetryBackoff.FailureSchedules` | internal/gitops/worker.go:953-1004 | a handled failure with any delay RetryDelay can return: one failure more, the scheduler's gate at its end, and a retry row timed for then while the budget lasts |
| `RetryBackoff.DeferredJobWaits` | internal/gitops/worker.go:518-541 | over every run, a job that found its path locked tries again after five seconds at the earliest |
| `RetryBackoff.DeferredJobReturns` | internal/gitops/worker.go:518-541 | and after those five seconds it is back in the line |
| `RetryBackoff.PromisedDoubles` | internal/gitops/worker.go:930-946 | the delay begins at the configured base, or a minute, doubles with each failure and stops at an hour |
| `RetryBackoff.NextAttemptWaits` | internal/gitops/worker.go:953-1004 | over any run with any number of jobs of the repository, an attempt that was not asked for starts no earlier than the last failure plus its backoff, unless its job was there at that failure or comes from a tick that had read before it |
| `RetryBackoff.RequestsDoNotWait` | internal/services/clone_service.go:106-149 | an attempt that is asked for can start at once, whatever the backoff |
| `RetryBackoff.GapAfterFailure` | internal/gitops/worker.go:953-1004 | the same on times: failure at f after n failures, no tick half-way and no other job waiting: next such attempt at f + min(base * 2^n, 1 h) or later |
| `RetryBackoff.GapHoldsExactly` | internal/gitops/scheduler.go:138-201 | every run after a failure keeps the gap if and only if no tick was half-way with a reading that opens before the gap is over and no other job of the repository, not asked for, could start before then |
| `RetryBackoff.BudgetBlocksStaleTick` | internal/gitops/worker.go:981-1004 | a half-way tick whose gate is open is held back exactly by an unfinished job: the retry row while the budget lasts, or another |
| `RetryBackoff.StaleTickBreaksTheGap` | internal/gitops/scheduler.go:138-161 | for every budget, after that many failures: a run where a tick that read the repositories before a failure and the busy set after it starts the attempt at once |
| `RetryBackoff.SecondJobBreaksTheGap` | internal/gitops/worker.go:518-560 | and one without a half-way tick: a running attempt is cancelled, a tick makes a second job, the attempt fails and the second starts at once |
| `KeyedMutex.ReachableSafety` | internal/gitops/keyedmutex.go:8-80 | in every reachable state: two holders of a key are one, an entry exists exactly while its count is the positive number of sessions between acquire and release, sessions of a key share one object, and an idle table is empty |
| `KeyedMutex.RunRefines` | internal/gitops/keyedmutex.go:8-80 | every run of Lock, TryLock and unlock sessions, evictions included, is a run of one permanent lock per key |
| `KeyedMutex.PermanentIsALock` | internal/gitops/keyedmutex.go:8-80 | the permanent locks the table refines: at most one holder per key, and a session holds it exactly if it was granted once more often than given back |
| `KeyedMutex.RefusedWhileHeld` | internal/gitops/keyedmutex.go:8-80 | and a session is refused only while another holds the key |
| `KeyedMutex.StepRefines` | internal/gitops/keyedmutex.go:32-80 | each step is a step of the permanent locks or none; a TryLock refuses only a key that is held |
| `KeyedMutex.WaiterSeesTheKey` | internal/gitops/keyedmutex.go:57-66 | a waiting Lock can go on exactly when nobody holds its key: no waiter is left on a forgotten object |
| `KeyedMutex.DropEvictsOwnGeneration` | internal/gitops/keyedmutex.go:46-53 | a release evicts at most the releaser's own object, and only as the key's last session |
| `KeyedMutex.LockTable.AcquireRef` | internal/gitops/keyedmutex.go:32-42 | the objects on the heap follow the value-level table: the filed object of the key, or a fresh one, with one more reference |
| `KeyedMutex.LockTable.ReleaseRef` | internal/gitops/keyedmutex.go:46-53 | one reference less, and the entry gone at zero |
| `KeyedMutex.LockTable.TryLock` | internal/gitops/keyedmutex.go:70-80 | succeeds exactly on a free key; a refused attempt leaves the table as it was |
| `KeyedMutex.LockTable.Unlock` | internal/gitops/keyedmutex.go:57-66 | gives the mutex back and drops the reference |
| `AuthCache.CachedUsersAgreeWithDatabase` | internal/middleware/authcache.go:71-135 | in every interleaving of validators and mutators, while no validation outlives 2^64 evictions: a cached user is what the database held after a number of changes that covers every change of the credential and of the user whose eviction has returned |
| `AuthCache.RevokedCredentialIsNotServed` | internal/middleware/auth.go:150-251 | once the eviction for a revocation has returned the credential is not cached and no validation in flight can publish it |
| `AuthCache.DisabledUserIsNotServed` | internal/middleware/authcache.go:125-135 | once a deactivation's eviction has returned none of the user's credentials is cached |
| `AuthCache.RevokedSessionsEnd` | internal/middleware/authcache.go:125-135 | a password change or deactivation ends the sessions it names: whatever happens between its write and its eviction, afterwards none is in the cache and no validation under way puts one there, unless its row changed again |
| `AuthCache.EvictionStopsValidationsInFlight` | internal/middleware/authcache.go:97-135 | publishing under a generation older than an eviction stores nothing |
| `AuthCache.HitsAreFresh` | internal/middleware/authcache.go:71-109 | a hit is answered at most 30 s after its store, and from its own entry |
| `AuthCache.ValidationIsCached` | internal/middleware/authcache.go:71-109 | a validation of a usable credential that nothing overtakes puts its user in the cache; lookups find it for thirty seconds and no longer |
| `AuthCache.PublishIsSafeExactly` | internal/middleware/authcache.go:87-109 | publishing keeps cache and database in agreement if and only if the 64-bit counter tells the beginning from now, or the reading reflects every change evicted for |
| `AuthCache.OvertakenReadingIsHarmful` | internal/middleware/authcache.go:87-135 | a reading an eviction has overtaken does harm exactly after a multiple of 2^64 evictions |
| `AuthCache.WrappedGenerationResurrects` | internal/middleware/authcache.go:87-135 | a run that gets there: a credential already revoked is published |
| `AuthCache.Memory.Lookup` | internal/middleware/authcache.go:71-82 | hit exactly for an unexpired entry; an expired one is dropped |
| `AuthCache.Memory.Publish` | internal/middleware/authcache.go:97-109 | stores exactly under the current generation, with a full time to live |
| `AuthCache.Memory.EvictKey` | internal/middleware/authcache.go:114-121 | removes the entry and moves the generation |
| `AuthCache.Memory.EvictAll` | internal/middleware/authcache.go:125-135 | for any order of the walk: removes exactly the user's entries and moves the generation |
| `AuthCache.Memory.SweepExpired` | internal/middleware/authcache.go:140-158 | removes exactly the expired entries and leaves the generation |
| `AuthCache.Memory.Validate` | internal/middleware/auth.go:150-251 | without interference: a hit answers from the cache, a miss from the rows, and a usable pair of rows is cached afterwards |
| `Paperbin.SharedRefs` | internal/models/deleted_branch.go:55-72 | two rows name the same ref if and only if both are legacy rows of one branch |
| `Paperbin.SpacesAreDisjoint` | internal/models/deleted_branch.go:10-22 | event refs, legacy refs and branch refs never coincide |
| `Paperbin.RecordedEventsStayProtected` | internal/gitops/worker.go:648-720 | over whole runs of recording, failed inserts, expiry, restore and delete: a recorded event whose ref held its commit keeps row and ref until its own release |
| `Paperbin.InsertedEventsAreProtected` | internal/gitops/worker.go:679-704 | the refs are made before the rows, so every inserted event is protected at once |
| `Paperbin.ReleaseSparesEveryOtherRow` | internal/gitops/cleanup_worker.go:260-320 | deleting one row's ref leaves the ref of every other row where it was |
| `Paperbin.SharedLegacyRefWaits` | internal/gitops/cleanup_worker.go:282-293 | a shared legacy ref is not touched while another legacy row of the branch exists |
| `Paperbin.PassedOverLegacyRefStays` | internal/gitops/cleanup_worker.go:282-315 | once no row or release at its commit is left, a passed-over legacy ref stays through every run |
| `Paperbin.TwoLegacyRowsLeak` | internal/gitops/cleanup_worker.go:282-315 | two legacy rows at different commits reach that state when the one the ref points at goes first |
| `Paperbin.TwoReleasesTogetherLeak` | internal/gitops/cleanup_worker.go:282-315 | and at whatever commits when both releases pass the check before either row is dropped |
| `Paperbin.LegacyRefGoesExactly` | internal/gitops/cleanup_worker.go:282-315 | with no release under way some run still removes a legacy ref if and only if a legacy row of the branch at its commit is left |
| `Paperbin.ForgottenEventRefStays` | internal/gitops/cleanup_worker.go:273-320 | an event ref that no row, pending record, clean-up or release remembers at its commit stays through every run |
| `Paperbin.EventRefGoesExactly` | internal/gitops/cleanup_worker.go:273-320 | with no release under way some run still removes an event ref if and only if one of them does |
| `Paperbin.FailedReleaseForgets` | internal/handlers/repository_handler.go:444-460 | a restore whose release fails, and an expiry that finds nothing on disk, drop the row and leave the ref so |
| `Paperbin.RestoreKeepsCommitReachable` | internal/handlers/repository_handler.go:438-460 | the restored commit is held at every step, by its archival ref until the branch exists and then by the branch, if it is not the checked-out one, until another restore takes it to another commit |
| `Paperbin.BranchStays` | internal/handlers/repository_handler.go:438-442 | step by step: such a branch keeps its commit if and only if the step is not a restore of another commit to it |
| `Paperbin.FetchTakesOnlyTheHead` | internal/gitops/worker.go:618-632 | a fetch under way can take a branch if and only if it is the checked-out one |
| `Paperbin.RestoreKeepsExactly` | internal/handlers/repository_handler.go:438-442 | after a restore has made its branch a commit is held by some ref if and only if it is the restored one or another ref than that branch held it |
| `Paperbin.SecondRestoreDropsFirst` | internal/handlers/repository_handler.go:439-442 | a forced second restore of the branch takes away the only ref of the first one's commit |
| `Paperbin.TwoRestoresOfOneBranch` | internal/handlers/repository_handler.go:438-460 | any two deletions of one branch reach such a state |
| `PaperbinWork.Mirror.RecordPruned` | internal/gitops/worker.go:648-720 | for any order of the walk, in the refs' own names: a branch whose local or remote-tracking ref vanished, which is no HEAD, passes the validator at a full lower-case sha and whose archival ref git creates, gets exactly one row with its name, commit and own event ref, and nothing else does; after a failed insert exactly the refs whose clean-up failed remain |
| `PaperbinWork.WorthExactly` | internal/gitops/worker.go:652-676 | a vanished ref calls for a record if and only if it names an accepted branch other than HEAD at a full sha |
| `PaperbinWork.BatchExactly` | internal/gitops/worker.go:652-704 | the batch holds a row for every ref that calls for one, and no other row |
| `PaperbinWork.Mirror.ReleaseArchivalRef` | internal/gitops/cleanup_worker.go:273-320 | succeeds exactly unless blocked; an error changes nothing, success leaves no ref of this row's at its commit, and every other row's ref is as it was |
| `PaperbinWork.Mirror.ExpireBranches` | internal/gitops/cleanup_worker.go:209-254 | for any order of the rows: only expired rows go, every expired releasable one goes, for a repository on disk none leaves its event ref behind, and kept rows keep their ref |
| `PaperbinWork.Mirror.RestoreBranch` | internal/handlers/repository_handler.go:394-470 | the branch holds the commit whenever the handler got past git, and the record goes exactly if the database then deletes it; every error before leaves refs and rows alone |
| `PaperbinWork.Mirror.PermanentDeleteBranch` | internal/handlers/repository_handler.go:473-521 | the record goes exactly if its ref could be released, or the repository is gone, and the database deletes it |
| `PaperbinWork.KeptForRetention` | internal/gitops/cleanup_worker.go:214-222 | no branch is purged before its retention, thirty days unless set, has passed, if and only if the setting is at most 106751 days; up to there it is due exactly from then on, and above the 64-bit duration wraps |
| `PaperbinWork.RecordingIsARun` | internal/gitops/worker.go:648-704 | recording in any order is a run of the machine's steps, so the run results cover it |
| `PaperbinWork.RecordPrunedIsARun` | internal/gitops/worker.go:648-720 | and so is the whole of it: the insert or its failure and the clean-up, ending with the rows and refs the method promises |
| `PaperbinWork.ReleaseIsARun` | internal/gitops/cleanup_worker.go:209-320 | an expiry or permanent delete of one row is a run of the machine's steps; the row stays exactly if the release is blocked |
| `PaperbinWork.RestoreIsARun` | internal/handlers/repository_handler.go:394-470 | and so is a restore: the branch, the release as far as it goes, and no row |
| `RepositoryExpiry.Store.ExpireRepositories` | internal/gitops/cleanup_worker.go:158-207 | with nobody else at work, for any order: rows of exactly the expired repositories whose transaction commits, with all their branch and job rows; on disk exactly what those own, subtrees included; with the service's names a repository that keeps its row keeps every file |
| `RepositoryExpiry.Store.PurgeListed` | internal/gitops/cleanup_worker.go:158-207 | the same from an older listing: a repository restored since is purged, row and files, if and only if its listed row was due and the transaction commits |
| `RepositoryExpiry.FilesAreDisjoint` | internal/gitops/cleanup_worker.go:191-204 | with the service's names no file lies in two repositories, neither the same nor below the other's |
| `RepositoryExpiry.NestedPathsAreShared` | internal/gitops/cleanup_worker.go:191-204 | and the names matter: a storage path below another's goes with it |
| `RepositoryExpiry.FilesFollowRows` | internal/gitops/cleanup_worker.go:158-207 | files stay exactly with the repositories whose rows stay |
| `RepositoryExpiry.OwnsExactly` | internal/gitops/cleanup_worker.go:191-204 | what goes with a repository: its checkout, its paperbin folder and its archive, wherever they are |
| `ClonePlacement.OnlyCompleteClonesAreRecognised` | internal/gitops/worker.go:722-831 | with crashes between any two steps and any number of attempts, as long as renames work: the final path is taken for a repository only if it holds a complete clone |
| `ClonePlacement.WholeExactly` | internal/gitops/worker.go:722-831 | over every run, the copy fallback included: whatever passes for a repository is a complete clone or a copy still under way, throughout, if and only if no torn copy is left behind |
| `ClonePlacement.StepKeepsWhole` | internal/gitops/worker.go:797-827 | step by step: one is left if and only if the process dies while a torn copy is being made or removed, or its removal fails |
| `ClonePlacement.TornCopyIsTakenForAClone` | internal/gitops/worker.go:797-827 | any proper part of a tree that passes for a repository can end up so, and the next attempt then fetches into it |
| `ClonePlacement.FetchesExactly` | internal/gitops/gitops.go:708-722 | an attempt fetches in place if and only if the path holds a .git, or a HEAD and a config; otherwise it clears the path |
| `ClonePlacement.RepositoryIsNeverRemoved` | internal/gitops/worker.go:624-632 | in every run a path that holds a repository is changed only by a fetch into it or the copy that made it |
| `ClonePlacement.RepositoryOutlivesRuns` | internal/gitops/worker.go:624-632 | after any run it still holds it, as it was or as a fetch of the run delivered it |
| `ClonePlacement.SuccessfulCloneCleansUp` | internal/gitops/worker.go:722-772 | the attempt that renames leaves exactly its own tree, and no temporary sibling it could remove |
| `ClonePlacement.AttemptIsARun` | internal/gitops/worker.go:722-831 | every uninterrupted attempt, however removals, renames and the copy turn out, is a run of the machine |
| `ClonePlacement.RemovalsTear` | internal/gitops/worker.go:722-831 | a removal may stop anywhere: any part of the tree can be what is left |
| `ClonePlacement.NextAttemptSelfHeals` | internal/gitops/worker.go:454-472 | from any debris an undisturbed attempt gets there, with no temporary sibling left |
| `ClonePlacement.Storage.CleanupStaleTempClones` | internal/gitops/worker.go:454-472 | for any order: removes exactly the removable temporary siblings |
| `ClonePlacement.Storage.MoveIntoPlace` | internal/gitops/worker.go:755-787 | at most twelve tries: placed by the first that works unless a wait before it is cancelled, aborted at the first cancelled wait, or out of attempts, in exactly these cases |
| `ClonePlacement.Storage.PlaceClone` | internal/gitops/worker.go:722-831 | one attempt, copy fallback included, whatever the directory listing shows: path and siblings afterwards for each way out; on success the path holds the clone, except that a copy onto a leftover that could not be removed goes inside it |
| `ClonePlacement.Storage.CopyIntoPlace` | internal/gitops/worker.go:797-830 | the fallback copy, undone as far as it can be when it fails; the temporary directory goes either way |
| `ClonePlacement.Storage.CloneOrFetch` | internal/gitops/worker.go:624-831 | fetch in place if and only if the path holds a .git, or a HEAD and a config, and then no sibling is touched; otherwise one clone attempt |
| `TokenBucket.RateBucket.Allow` | internal/middleware/ratelimit.go:36-57 | the bucket and the answer are those of the value-level bucket, field by field |
| `TokenBucket.CallExactly` | internal/middleware/ratelimit.go:36-57 | the level grows with the time since the last call up to the burst; a call takes one token if there is one, and is told what is left and how long to wait |
| `TokenBucket.CallKeepsSound` | internal/middleware/ratelimit.go:36-57 | tokens stay between zero and the burst |
| `TokenBucket.WindowBound` | internal/middleware/ratelimit.go:36-57 | over any stretch of any run without sweeps, of any budget: allowed calls of one client and tier are at most burst plus rate times elapsed |
| `TokenBucket.RetryAfterIsExact` | internal/middleware/ratelimit.go:53-57 | allowed after a wait if and only if it is at least retryAfter, the bucket can hold a token and it refills |
| `TokenBucket.RetryHeaderSuffices` | internal/middleware/ratelimit.go:189-199 | the header's whole seconds suffice and no smaller positive whole number does |
| `TokenBucket.KeyNamesTier` | internal/middleware/ratelimit.go:152-184 | a map key names one tier and one client |
| `TokenBucket.BudgetOfPath` | internal/middleware/ratelimit.go:148-178 | the figures each path gets: logins the configured login budget or a sixth of the general one, searches a third, the dashboard and the rest all of it, at least one request of burst |
| `TokenBucket.OneBucketExactly` | internal/middleware/ratelimit.go:148-184 | two requests draw on one bucket if and only if they come from one client and are both logins, both searches, both for the dashboard or neither of these |
| `TokenBucket.AllowedAtOneMoment` | internal/middleware/ratelimit.go:36-57 | at one moment a client is allowed exactly as many requests of a kind as it asks for, up to its whole tokens, whoever else asks |
| `TokenBucket.NewClientGetsTheBurst` | internal/middleware/ratelimit.go:148-178 | a client not seen before is allowed exactly its burst, in the configuration's figures |
| `TokenBucket.BurstBoundsOneMoment` | internal/middleware/ratelimit.go:148-178 | and no client more than that: the login burst for logins, a sixth or third of the general burst (or one) for the derived budgets, the general burst otherwise |
| `TokenBucket.PerMinuteCovers` | internal/middleware/ratelimit.go:64-70 | every tier built from requests-per-minute figures refills within the idle limit, fall-back budgets included |
| `TokenBucket.FullAfterIdle` | internal/middleware/ratelimit.go:117-127 | an idle bucket is full again, whatever it held, if and only if the idle limit covers its tier |
| `IdleSweep.LinkedExactly` | internal/middleware/ratelimit.go:110-146 | over every run of lookups, calls, idle checks and deletions in any order: indistinguishable throughout from a limiter that sweeps nothing and answers each request in one step if and only if every deletion is harmless at its moment (bucket full, held by no request), and then the answers are the same |
| `IdleSweep.HarmlessExactly` | internal/middleware/ratelimit.go:117-127 | a deletion is harmless if and only if no sequence of requests after it is answered otherwise |
| `IdleSweep.SweepIsInvisible` | internal/middleware/ratelimit.go:110-146 | with every tier covered and nothing between each idle check and its deletion, all answers equal those of the same requests without sweeps |
| `IdleSweep.SweepIsInvisibleExactly` | internal/middleware/ratelimit.go:110-146 | and that holds of every run with prompt deletions if and only if the idle limit covers every tier |
| `IdleSweep.WindowBound` | internal/middleware/ratelimit.go:36-57 | whatever interleaves: allowed calls of one client are at most burst, plus its requests holding objects off file, plus the refill, plus the tokens each deleted bucket lacked and the requests that held it |
| `IdleSweep.WindowBoundByLateDrops` | internal/middleware/ratelimit.go:110-127 | on a covered tier: at most burst times one more than the late deletions, plus the requests they catch, plus the refill |
| `IdleSweep.GiftsAtMost` | internal/middleware/ratelimit.go:117-127 | prompt deletions give nothing away, late ones at most a burst and one per request caught |
| `IdleSweep.LateDropDoubles` | internal/middleware/ratelimit.go:117-127 | with the tier covered: judged idle, spent, deleted, spent again, twice the burst at one moment |
| `TokenBucket.RateLimiter.GetLimiter` | internal/middleware/ratelimit.go:135-146 | the bucket on file, or a full fresh one |
| `TokenBucket.RateLimiter.Serve` | internal/middleware/ratelimit.go:180-215 | one request on the heap is one request of the value-level limiter, answer included; a bucket made for a login has the configured login budget |
| `TokenBucket.RateLimiter.JudgeIdle` | internal/middleware/ratelimit.go:119-125 | idle exactly for a key on file whose bucket was last used over ten minutes ago |
| `TokenBucket.RateLimiter.Delete` | internal/middleware/ratelimit.go:124-126 | takes exactly the key off file, whatever has happened to its bucket since the check |
| `TokenBucket.RateLimiter.CleanUp` | internal/middleware/ratelimit.go:110-131 | with no request in between, for any order and any clock: drops exactly the buckets idle for more than ten minutes when judged |
| `Archive.RoundTrip` | internal/services/repository_service.go:706-910 | for every tree of directories and files and every parents-first listing: extraction gives back exactly its paths, kinds and contents |
| `Archive.ExtractedExactly` | internal/services/repository_service.go:785-910 | a successful extraction leaves what was there and what the archive lists, nothing else, each path as its last entry has it |
| `Archive.OrderIsNeeded` | internal/services/repository_service.go:818-842 | conversely an archive extracts only if every entry follows its parent, so the walk must emit directories first |
| `Archive.ContainedExactly` | internal/services/repository_service.go:820-842 | the escape check accepts the first entry if and only if the destination's parent is its own resolution |
| `Archive.EscapeIsRefused` | internal/services/repository_service.go:800-842 | an entry whose name leads out of the destination stops the extraction, and nothing outside is ever written |
| `Archive.LinkedParentFails` | internal/services/repository_service.go:820-842 | below a linked parent no archive extracts anything |
| `Archive.Checkout.Walk` | internal/services/repository_service.go:718-765 | lists the whole subtree, each path once, each directory before its children |
| `Archive.Checkout.Compress` | internal/services/repository_service.go:706-782 | success exactly if the destination can be written and the tree exists, with a full listing |
| `Archive.Checkout.Decompress` | internal/services/repository_service.go:785-910 | the extraction loop leaves what the value-level extraction leaves, and reports whether it got through |
| `Archive.Checkout.Delete` | internal/services/repository_service.go:518-553 | fails before touching the tree, or ends with the tree archived and the row deleted; with a failing row delete the tree is back if and only if the parent is its own resolution, else tree and archive are lost |
| `Archive.Checkout.Restore` | internal/services/repository_service.go:560-602 | restores exactly what was archived, keeps the archive when it cannot unpack; when the row cannot be restored it packs up again, and the tree is lost if the archive cannot be written |
| `Archive.DeleteThenRestore` | internal/services/repository_service.go:518-602 | delete then restore returns the working tree if and only if the parent is its own resolution |
| `Webhook.RetryDelay` | internal/services/webhook_service.go:449-461 | for every attempt number, in 64-bit arithmetic without overflow: min(5^(attempt-1), 300) seconds |
| `Webhook.PromiseGrows` | internal/services/webhook_service.go:449-461 | a second, then five times longer each time, at most five minutes |
| `Webhook.ClampAttempts` | internal/services/webhook_service.go:167-178 | the budget is the setting from one to ten, three below and ten above |
| `Webhook.WaitsAddUp` | internal/services/webhook_service.go:52-60 | seven attempts need 756 s of waiting, past the ten-minute deadline |
| `Webhook.SixFit` | internal/services/webhook_service.go:447-461 | the waits before an attempt fit the deadline if and only if it is at most the sixth |
| `Webhook.Delivery.Deliver` | internal/services/webhook_service.go:472-541 | at most the budget (three if none is set, ten at most) and at most six attempts; the row's number equals the attempts; its status is pending until one last write; the metric counts the delivery once; waits follow the schedule; it fails only when the budget is spent, the webhook is gone, or the next attempt would begin after the end of its context |
| `Webhook.Delivery.Attempts` | internal/services/webhook_service.go:509-541 | the loop alone, from a pending row |
| `Webhook.Delivery.Update` | internal/services/webhook_service.go:635-672 | one write of the row, and the metric exactly on a terminal one |
| `Webhook.Delivery.RecordTerminalFailure` | internal/services/webhook_service.go:678-699 | a delivery that never left the process: one failed row, one count; its row says attempt one though none was made |
| `LoginThrottle.LockoutDuration` | internal/services/auth_service.go:221-239 | min(15 min * 2^max(0, f-5), 24 h) for every count, without overflow |
| `LoginThrottle.LockoutDoubles` | internal/services/auth_service.go:221-239 | fifteen minutes up to the fifth failure, doubled by each further one, at most a day |
| `LoginThrottle.LocksClosedForm` | internal/services/auth_service.go:20-29 | the locks before failure 12 + j add up to 1905 minutes plus j days |
| `LoginThrottle.BruteForceBound` | internal/services/login_throttle.go:53-72 | the (k+1)-th counted failure comes at least the sum of the locks 5..k after the first |
| `LoginThrottle.CountedFailuresAreSpread` | internal/services/auth_service.go:126-163 | that bound, for the entry of any pair after any sequence of logins, failures, resets and sweeps, unless it counts a failure inside a lock |
| `LoginThrottle.PacedExactly` | internal/services/auth_service.go:131-163 | one more failure keeps an entry paced if and only if it is counted while the entry is not locked |
| `LoginThrottle.TogetherTheyAreCounted` | internal/services/auth_service.go:131-163 | of two failures past the gate together both are counted, the second inside a lock if and only if the first reaches the threshold |
| `LoginThrottle.SweepSparesLocks` | internal/services/login_throttle.go:80-88 | a sweep lifts no lock that still runs |
| `LoginThrottle.FullMapStillGrows` | internal/services/login_throttle.go:10-12 | a map at its limit still grows by the new entry if and only if no entry is stale |
| `LoginThrottle.Throttle.LockedUntil` | internal/services/login_throttle.go:39-49 | answers exactly the running lock |
| `LoginThrottle.Throttle.RecordFailure` | internal/services/login_throttle.go:51-72 | counts one failure whenever it comes and remembers exactly whether it came inside a lock; every other entry stays, except that a full map loses its stale ones |
| `LoginThrottle.Throttle.Reset` | internal/services/login_throttle.go:74-78 | forgets exactly the pair |
| `LoginThrottle.Throttle.SweepLocked` | internal/services/login_throttle.go:80-88 | for any order: drops exactly the entries that are not locked and whose last failure is over a day old |
| `LoginThrottle.Throttle.Login` | internal/services/auth_service.go:126-171 | refused exactly while locked, whatever the password, and then nothing changes; otherwise one failure or a reset |
| `Dedupe.ComputeDedupeSavings` | internal/gitops/dedupe_savings.go:84-105 | for every URL list and any order of the map: saving = sum over URLs of pool sizes minus sum over distinct pools; count and shared bytes cover exactly the non-empty pools used at least twice |
| `Dedupe.CountPools` | internal/gitops/dedupe_savings.go:84-88 | one count per distinct pool, equal to its uses |
| `Dedupe.SavedIsDifference` | internal/gitops/dedupe_savings.go:55-64 | size times extra users, summed over pools, is the difference of the two sums |
| `Dedupe.SumAnyOrder` | internal/gitops/dedupe_savings.go:91-104 | a sum over the map's keys does not depend on the order |
| `LogHub.DeliveryIsInOrder` | internal/gitops/worker.go:107-133 | what a registered subscriber received and still has waiting is an in-order selection of its repository's logged broadcasts from where it subscribed, within capacity |
| `LogHub.FirehoseIsInOrder` | internal/gitops/worker.go:107-133 | the same for the firehose and all broadcasts |
| `LogHub.Hub.Subscribe` | internal/gitops/worker.go:52-58 | registers a fresh open channel of capacity 100 at the end of the repository's list |
| `LogHub.Hub.Unsubscribe` | internal/gitops/worker.go:64-82 | closes and removes exactly one registration, never a closed channel, leaves no empty list, touches no other list |
| `LogHub.WithoutOne` | internal/gitops/worker.go:69-73 | taking one element out leaves the others, in order |
| `LogHub.Hub.SubscribeAll` | internal/gitops/worker.go:86-92 | the same for the firehose, capacity 200 |
| `LogHub.Hub.UnsubscribeAll` | internal/gitops/worker.go:95-105 | closes and removes exactly one firehose registration |
| `LogHub.Hub.Broadcast` | internal/gitops/worker.go:109-133 | logs the line once, offers it to exactly the repository's subscribers and tagged to the firehose, dropping only where a buffer is full; every registered channel stays open and level with its log |
| `LogHub.Hub.Take` | internal/gitops/worker.go:52-58 | a subscriber takes its oldest message and disturbs nobody |
| `LogHub.OfferAll` | internal/gitops/worker.go:112-117 | one send per channel of a list, none of them blocking |

## Left out

- Clone pool: one process; writes of job rows are taken to succeed, and post-clone
  housekeeping, notifications and metrics are not part of the model. Deletion of a job's
  row or repository while the job is under way is not a step.
- CloneWorker.Pool.ProcessJob: credentials, options and progress are not modelled; the early
  rejections and git's result are parameters. Its methods run without interference; the
  interleaving is in ClonePool.
- Restart.Startup.ReapOrphanedJobs: one process restarting; peers on the same database are not modelled.
  Clone timeouts of 292 years and more, which wrap, are not either.
- RetryBackoff.GapHoldsExactly: handling a failure is one step, as are a timer's and a tick's
  enqueue; requested jobs are exempt, as in the code, and a repository's interval and activity
  are not edited while a tick is half-way. A restart forgets the timers and is not a step.
- ClonePlacement.Storage.PlaceClone: a directory is the set of names at its top; file contents
  below them are not modelled.
- AuthCache.CachedUsersAgreeWithDatabase: holds while no validation outlives 2^64 evictions;
  the lemma on the wrapped generation shows why. Hashes are taken to be distinct.
- Paperbin.RecordedEventsStayProtected: a fetch is taken to leave refs/paperbin alone and to
  move only remote-tracking refs and the checked-out branch; update-ref with an old value
  is one step. Hard deletion of the repository ends the run.
- PaperbinWork.Mirror.RecordPruned: the ref-name check is a set of accepted names; the sha
  check is modelled. Rows are those of one repository, so the handlers' check that a branch
  belongs to the repository is not modelled.
- Paperbin.FailedReleaseForgets: the refs of a repository with nothing on disk are those its
  archive holds.
- RepositoryExpiry.Store.PurgeListed: restores come before the loop, which is all that matters
  to transactions that do not look again. Other changes during the loop and a crash between
  the commit and the removal of files are not steps. The wiki directory beside a repository is
  not part of what the code removes. Rows from before the sharded layout are covered by the
  exact disk contract only.
- Paperbin.RestoreKeepsExactly: a commit counts as held when some ref points at it; that a
  descendant's ref also keeps it reachable is git's business.
- JobWriters.OneUnfinishedExactly: inserts succeed, and rows and repositories are not deleted.
- IdleSweep.WindowBound: reals instead of floating point, and time that never goes back. A
  lookup that finds no bucket makes and files one in a single step, as LoadOrStore does.
- Archive.RoundTrip: directories and regular files only; links, modes and times are not
  modelled, and neither is the compression itself. A walk visits children in any order
  (the code sorts them). Removing a directory is taken to succeed.
- Webhook.Delivery.Deliver: writes of the row succeed once it exists; a wait takes whichever
  of timer and cancellation is ready first; payload, signature and HTTP are parameters. The
  queue and its drops are not modelled.
- Dedupe.ComputeDedupeSavings: sums are unbounded integers; pools do not change size while they are measured.
- LogHub.Hub.Broadcast: the timestamp of a firehose entry; what a subscriber does after its channel is closed.
- Git, LFS, the egress proxy, OAuth, cryptography, HTTP routing, templates, e-mail, metrics,
  configuration, pagination and dashboard aggregates: outside this model.
- MigrateStoragePaths, the unconditional UpdateCloneJobStatus and the pool garbage collection: not modelled.

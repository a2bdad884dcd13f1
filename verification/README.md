# Verified models of the audio-sharing backend and its client

This project models the parts of the repository that keep state across calls, and proves what each of
them guarantees over every run: the background job queue, track upload and cleanup over object storage
and the database, the token refresh of the iOS client, the cached access checks, the two rate limiters,
the circuit breaker, the migration runner, the event log with its aggregate and read models, the two
signed-URL caches, the latency average and the filename sanitiser.

`dafny verify dfyconfig.toml` checks everything.

## How the model is built

- A protocol of several processes is a state machine: a `State`, a `Step`, `Enabled` says when a step may
  happen and `Apply` what it does. A run is any sequence of enabled steps, so every interleaving, crash
  and failed statement is covered. An invariant is kept by each step (`...KeepsInv`), and the main lemmas
  read their statements off it.
- An object whose methods update its fields is a class. Each method is proved against a function of the
  old state, and the lemmas are about that function: what it computes is said again in terms of whole runs
  and histories, and where a machine models the same code the method is shown to be a run of it (`...IsARun`,
  `...IsAStep`).
- Tables, the object store and Redis are maps and sets. Time is an explicit input that does not decrease.
  What a library call answers (an error, a row, a token) is an input too.
- Fields described as bookkeeping record where something came from. No step reads them.

| file | subject |
|---|---|
| `Basics.dfy` | notions shared by several models |
| `JobTable.dfy` | the `background_jobs` table and its statements |
| `JobBatch.dfy` | one claimed batch: a channel and its workers |
| `JobProtocol.dfy` | any number of processor instances, with crashes and failing statements |
| `JobHistory.dfy` | what a row says about the run behind it |
| `JobDrain.dfy` | how many claims and marks there can be |
| `JobProgress.dfy` | why the queue drains |
| `JobProcessor.dfy` | worker pool, batch, single job and poll loop |
| `TrackStorage.dfy` | uploads, deletions, cleanup jobs and sweeps over object store and database |
| `TrackSafety.dfy` | which objects are safe, which are left over and which stay for good |
| `TrackRuns.dfy` | runs that show the limits of that |
| `TrackUpload.dfy` | the upload handler and the handler of cleanup jobs |
| `CleanupJob.dfy` | the loops, buffer and counters of one cleanup pass |
| `TokenRefresh.dfy` | single-flight token refresh of a reentrant actor |
| `TokenHistory.dfy` | what its outcomes, memory and flag owe to the events of a run |
| `AccessKeys.dfy`, `AccessCache.dfy` | cached access checks and lists |
| `AccessBatch.dfy` | batch filters and the objects of the access cache |
| `RateLimit.dfy` | the two fixed-window limiters |
| `CircuitBreaker.dfy` | the circuit breaker |
| `SqlText.dfy`, `Migrations.dfy` | the line splitter and the migration runner |
| `Events.dfy` | event store, aggregate, projections and replay |
| `UrlKeys.dfy`, `SignedUrls.dfy` | keys and lifetimes of the signed-URL caches |
| `RequestMetrics.dfy` | the rolling latency average |
| `Filename.dfy` | the filename sanitiser |

## Where the code and its comments differ

The model follows the code.

- `SupabaseAuthService.swift:159-165` announces a minimum interval between refreshes. It never has an
  effect: without a task in the slot a new refresh starts at once (`MinimumIntervalIsInert`).
- `access_check_cache.go:55-76` stores the answers of track checks under the keys of project checks. An id that
  is granted on one route and asked for on the other is denied on its own route for up to a minute
  (`OtherRouteDenies`); a check is about what was asked, in every run, exactly when the same id has not been
  looked up in the tables on the other route for a minute plus the write delay (`GapDecides`).
- `access_check_cache.go:142-149` says that invalidation clears a user's access cache. It deletes the two
  list keys and leaves the answers about single projects and tracks (`InvalidationMissesChecks`), and a list
  read before the change may still be written after it (`InvalidationCoversLists`).
- `r2_cleanup.go:65-66` waits thirty days so that deleted projects can be recovered. The trigger in
  `025_add_r2_cleanup_triggers.sql:97-145` queues every version's object the moment its project is deleted,
  and the job removes it at once: the grace period protects only what no cleanup job may still delete and
  no sweep comes to (`GraceProtects`; the table alone does not tell, `ClaimedJobsLookAlike`), which is
  nothing that was committed before the deletion (`DeletionEndsProtection`), and a project restored within
  the second can lack its objects (`RestoredProjectLacksItsObject`).
- `SupabaseAuthService.swift:143-151` empties memory on signing out. A refresh that is answered afterwards puts
  its session back (`AnswerOutlivesSignOut`).
- `migrations.go:77-84` says that restricted statements are skipped. The SQL of the file is executed as one
  unit, so a tolerated error leaves all of it unapplied, and the file is recorded as applied nevertheless
  (`ToleratedIsRecorded`), whatever number of runs met such an error and then failed to record it; it is without effect exactly when every run that executed it met such an error
  (`RecordedWithoutEffect`).
- `event_store.go:195-235`: `Version` counts created and updated events only, while
  `GetEventsSince` expects a count of all events (`ResumingFromVersion`).
- `event_store.go:383-398`: replaying one aggregate can undo what another wrote to a shared key
  (`ReplayAggregateIsHarmless`).
- `rate_limiter.go:102-126`: a full entry whose window is over still reads as exhausted
  (`StatusIsAccurate`).
- `tracks.go:412-413` asks for links of one minute; the storage client may return one that is up to four
  minutes old and has expired (`InnerIsLive`). The fifteen-minute links of the download handler are never
  expired as long as nobody else requests them from the storage client (`SoleOuterIsLive`).
- `r2_cleanup.go:14` speaks of an hourly pass, the ticker at line 29 is set to four hours; line 125 speaks of
  marking a project in the audit log, the statement deletes it.

## What is assumed

- A commit reported as failed did not take effect, for uploads and for claims
  (`CommitErrorsMustBeTrue` shows what depends on it).
- Object keys and row ids are fresh; user ids contain no colon; names in a directory are distinct.
- The cleanup triggers are in force. Deleting a project deletes its versions' rows and waits for transactions
  that have inserted one. A delete call for a single object that reports success has removed it. A call to the
  object store takes effect, if at all, before its caller has the answer or has died.
- The SQL of one migration, executed in one call, takes effect as a whole or not at all.
- A detached cache write happens within `delay` of the read it stores, for any fixed `delay`.
- A circuit-breaker call holds the lock while its function runs, so calls follow one another. A function
  that panics releases the lock and leaves the breaker as it was at the call, half-open after a timeout.

## Model

| member | source | states |
|---|---|---|
| JobTable.DefaultedMax | backend/internal/db/queries_access.go:268-270 | a job is granted at least one attempt, and what was asked for when that is positive |
| JobTable.SelectOldest | backend/internal/db/queries_access.go:229-236 | distinct eligible rows, as many as the limit allows, none left behind older than one taken |
| JobTable.BackgroundJobs.CreateBackgroundJob | backend/internal/db/queries_access.go:267-289 | appends one pending row with no attempts |
| JobTable.BackgroundJobs.ClaimPendingJobs | backend/internal/db/queries_access.go:217-265 | exactly the oldest eligible, unlocked rows become `processing`; every other row is unchanged |
| JobTable.BackgroundJobs.MarkJobCompleted | backend/internal/db/queries_access.go:291-302 | only the named row changes, and only its status |
| JobTable.BackgroundJobs.MarkJobFailed | backend/internal/db/queries_access.go:304-318 | counts the attempt and returns the row to pending until the attempts are used up |
| JobBatch.PoolIsDone | backend/internal/jobs/processor.go:100-120 | a batch with an empty channel and idle workers has disposed of each claimed job exactly once |
| JobProtocol.StepKeepsInv | backend/internal/jobs/processor.go:85-178 | every enqueue, claim, hand-out, skip, run, mark, failed mark and crash keeps rows, batches and run counts consistent |
| JobProtocol.ExactlyOneOwner | backend/internal/db/queries_access.go:217-265 | in every interleaving a row is `processing` if and only if someone, live or lost, owns it, and nobody shares it |
| JobProtocol.AttemptsAreBounded | backend/internal/db/queries_access.go:304-318 | pending implies attempts left, failed if and only if none are left, and no handler runs more than `max_attempts` times |
| JobProtocol.BatchIsPartitioned | backend/internal/jobs/processor.go:85-121 | when the wait group releases a batch, the processed jobs are the claimed jobs, each once |
| JobProtocol.LostStaysProcessing | backend/internal/db/queries_access.go:217-265 | a job whose worker crashed or whose mark failed stays `processing` for good |
| JobHistory.RowsTellTheHistory | backend/internal/db/queries_access.go:267-318 | in every interleaving a row is the one its enqueue asked for, its attempts are the marks of failed handlers, it is completed if and only if a handler succeeded or the guard skipped it, at most once, and failed if and only if the failures reached the attempts granted |
| JobDrain.WorkUsesPotential | backend/internal/db/queries_access.go:217-318 | each claimed row and each mark lowers the sum of 2*(max-attempts), less one while processing; only an enqueue raises it |
| JobDrain.WorkIsBounded | backend/internal/db/queries_access.go:217-318 | over any run, claims and marks together are at most twice the attempts granted |
| JobProgress.NeverStuck | backend/internal/jobs/processor.go:47-121 | while an instance lives, an unfinished job that is not lost always leaves a step (claim, take, skip, start, mark, end of a batch) that moves the work along |
| JobProgress.ProgressUsesMeasure | backend/internal/jobs/processor.go:85-178 | every such step, skips by the guard, commits of claims and ends of batches included, lowers a measure of stages and attempts left |
| JobProgress.ProgressIsBounded | backend/internal/jobs/processor.go:85-178 | no more such steps than the measure can follow one another |
| JobProgress.DrainedMeansSettled | backend/internal/jobs/processor.go:47-121 | with an instance alive, moving the work along, skips included, until it cannot be moved ends with each job completed, failed or lost |
| JobProgress.QueueDrains | backend/internal/jobs/processor.go:47-121 | from any state with an instance alive there is such a way, in no more steps than the measure |
| JobProcessor.RunWorkerPool | backend/internal/jobs/processor.go:95-120 | whichever worker moves next, the workers' jobs are the batch, each job once |
| JobProcessor.ProcessJob | backend/internal/jobs/processor.go:124-178 | what the turn leaves of the row: completed with its attempts when the guard blocks it or the handler of a known type succeeds, else one more attempt, pending or failed by the attempts left; untouched without a mark |
| JobProcessor.TurnIsARun | backend/internal/jobs/processor.go:124-178 | one job's turn is a run of the queue: a skip, or a start and then a mark saying how the handler ended, or a failed mark; it settles the row as the method does and no other |
| JobProcessor.TurnsTellTheRow | backend/internal/jobs/processor.go:124-178 | after any turns: pending with as many attempts as turns while all failed and attempts are left, failed when they are used up, completed by the first good turn with the attempts as they were, and `processing` from the first turn whose mark fails |
| JobProcessor.ProcessBatch | backend/internal/jobs/processor.go:85-121 | the oldest eligible rows, and no others, are claimed, and each is settled as its handler, the guard and the mark went, exactly once |
| JobProcessor.ProcessPendingJobs | backend/internal/jobs/processor.go:47-82 | each pause is five seconds doubled per empty poll since the last busy one, at most sixty; failed claims pause without doubling |
| JobProcessor.PausesSinceWork | backend/internal/jobs/processor.go:51-80 | since work was last found the pauses are 5, 10, 20, 40 and then 60 seconds, one step further per poll that found nothing; failed claims pause as long without a step |
| TrackStorage.StepKeepsInv | backend/internal/handlers/tracks.go:300-353 | every step of an upload, a deletion, a sweep and a worker (claim, delete call, mark, loss) keeps the account of each row, job and object |
| TrackSafety.LiveProjectsKeepTheirObjects | backend/internal/jobs/r2_cleanup.go:62-132 | in every interleaving a committed version without its object is of a project that is not live, or was restored |
| TrackSafety.GraceProtects | backend/migrations/025_add_r2_cleanup_triggers.sql:97-145 | as long as the project is not restored, the grace period protects a version of a deleted project if and only if no cleanup job may still delete it (pending, or at a live worker before its call or with an attempt left) and no sweep under way comes to it |
| TrackSafety.DeletionEndsProtection | backend/migrations/025_add_r2_cleanup_triggers.sql:97-145 | a version committed when its project is deleted is not protected |
| TrackRuns.RestoredProjectLacksItsObject | backend/migrations/024_add_soft_deletes.sql:109-125 | a run without failures in which a project restored at once lacks its object |
| TrackRuns.ClaimedJobsLookAlike | backend/internal/db/queries_access.go:229-262 | two runs end in the same tables and objects, a job claimed: protected where its worker has died, not protected where the worker has yet to delete |
| TrackSafety.EveryOrphanIsExplained | backend/internal/handlers/compliance.go:116-140 | in any run an object lacks a row if and only if its upload is in flight or failed to clean up, or the row was deleted; then cleanup jobs exist for it and none has succeeded |
| TrackSafety.OrphanStays | backend/internal/jobs/processor.go:190-228 | such an object stays for good if and only if no cleanup job may still delete it and no sweep is about to flush it |
| TrackSafety.ErasureIsCleanedUp | backend/internal/handlers/compliance.go:116-140 | erasing an account deletes its projects and exactly their versions and those of its tracks, and a job that may delete the object is queued for each |
| TrackSafety.UploadLeftoversStay | backend/internal/handlers/tracks.go:316-352 | what an upload leaves by crashing or failing to delete is never removed |
| TrackSafety.UploadsLeaveNoOrphans | backend/internal/handlers/tracks.go:300-353 | when only uploads run, an object without a row is in flight or its compensating delete failed |
| TrackSafety.LeaksAreFailedCompensations | backend/internal/handlers/tracks.go:316-352 | along such a run the keys left over are exactly those whose compensating delete failed |
| TrackSafety.CleanSweepLeavesNothing | backend/internal/jobs/r2_cleanup.go:111-131 | deleting a swept project leaves no object of its versions if no delete kept one and none was committed after the listing |
| TrackRuns.LateCommitIsQueued | backend/migrations/025_add_r2_cleanup_triggers.sql:31-58 | a run without failures in which a version committed after the listing outlives its row, with one cleanup job queued that can still remove it |
| TrackRuns.JobDecides | backend/internal/jobs/processor.go:190-228 | in whatever state that job is, the object stays for good if and only if the job may not delete any more |
| TrackRuns.LateCommitCanStay | backend/internal/db/queries_access.go:304-318 | when that job's three attempts fail the object stays for good |
| TrackSafety.CommitErrorsMustBeTrue | backend/internal/handlers/tracks.go:348-353 | what the assumption on commit errors is needed for: otherwise a live version would keep its object if and only if the compensating delete failed |
| TrackUpload.TrackStore.UploadTrackVersion | backend/internal/handlers/tracks.go:300-353 | the row and object appear together or the rows are unchanged, and an object stays behind only when its delete fails or its write was reported failed |
| TrackUpload.UploadIsARun | backend/internal/handlers/tracks.go:300-353 | an undisturbed upload is a run of the storage machine, with the effect on rows and objects that the handler has |
| TrackUpload.TrackStore.CleanupR2File | backend/internal/jobs/processor.go:190-228 | the object is deleted exactly when the job names a key of acceptable length and the call works; otherwise the job fails |
| CleanupJob.ChunksPartitionKeys | backend/internal/jobs/r2_cleanup.go:87-123 | the batches end to end are the keys, all but the last full, none empty |
| CleanupJob.EveryKeyIsCounted | backend/internal/jobs/r2_cleanup.go:91-109 | each key adds one to exactly one counter and each error is logged |
| CleanupJob.CountersFollowReplies | backend/internal/jobs/r2_cleanup.go:91-109 | keys of calls that succeeded are counted as deleted, keys of calls that failed as errors, and the latter are logged in order |
| CleanupJob.EmptyKeysAreSkipped | backend/internal/jobs/r2_cleanup.go:111-123 | the keys handed on are those listed that are not empty, each as often as listed |
| CleanupJob.OthersKeepOrder | backend/internal/jobs/r2_cleanup.go:111-123 | and they are handed on in the order listed |
| CleanupJob.OnlyListedKeysLeave | backend/internal/storage/r2.go:200-230 | only listed keys leave the store, and a key stays if and only if every delete call for it kept it |
| CleanupJob.CountersAddUp | backend/internal/jobs/r2_cleanup.go:73-136 | files deleted plus errors is one per non-empty key and one per failed listing or deletion |
| CleanupJob.R2CleanupJob.FlushBatch | backend/internal/jobs/r2_cleanup.go:91-109 | one delete call for a non-empty batch, counted as a whole as deleted or as errors |
| CleanupJob.R2CleanupJob.CleanVersions | backend/internal/jobs/r2_cleanup.go:87-123 | the reused buffer flushes exactly the batches of one hundred of the non-empty keys, in order |
| CleanupJob.CleanProjectIsARun | backend/internal/jobs/r2_cleanup.go:75-123 | cleaning one project is a run of the sweep of the storage machine and leaves the same objects |
| CleanupJob.R2CleanupJob.ProcessCleanup | backend/internal/jobs/r2_cleanup.go:62-137 | store, counters and log after a pass are those of its projects one after another |
| TokenRefresh.RunKeepsInv | ios/purp tape/purp tape/Infrastructure/Supabase/SupabaseAuthService.swift:158-227 | every stretch between awaits, in any interleaving, keeps slot, tasks, callers and outcomes consistent |
| TokenRefresh.SingleFlight | ios/purp tape/purp tape/Infrastructure/Supabase/SupabaseAuthService.swift:158-185 | at most one refresh task is ever unfinished |
| TokenRefresh.SlotFollowsOwner | ios/purp tape/purp tape/Infrastructure/Supabase/SupabaseAuthService.swift:172-184 | the slot names a task exactly while its owner waits, and a task never has two owners |
| TokenRefresh.OnlyOwnersClear | ios/purp tape/purp tape/Infrastructure/Supabase/SupabaseAuthService.swift:180-182 | a taken slot is emptied exactly by the resumption of the owner of the task in it |
| TokenRefresh.JoinersShareTheOutcome | ios/purp tape/purp tape/Infrastructure/Supabase/SupabaseAuthService.swift:158-185 | everyone who waited for one task gets the same outcome, and a refreshed session has a token |
| TokenRefresh.NobodyIsStranded | ios/purp tape/purp tape/Infrastructure/Supabase/SupabaseAuthService.swift:188-240 | a waiting caller can resume, or its task awaits an event and every event brings it closer to its end |
| TokenRefresh.MemoryFollowsNewest | ios/purp tape/purp tape/Infrastructure/Supabase/SupabaseAuthService.swift:202-220 | unless something else sets or clears it, the session in memory is the one the newest refresh handed out |
| TokenHistory.RefreshFollowsEvents | ios/purp tape/purp tape/Infrastructure/Supabase/SupabaseAuthService.swift:188-240 | in every interleaving the state and outcome of a refresh follow from the events it was given: refreshed if and only if saved, fallen back if and only if the session loaded had a second or more left, thrown after an error while restoring or at the fallback |
| TokenHistory.FallbackDecides | ios/purp tape/purp tape/Infrastructure/Supabase/SupabaseAuthService.swift:210-226 | a loaded session with at least a second left is handed out and kept in memory; otherwise the refresh throws and memory stays |
| TokenHistory.NoExpiredFallback | ios/purp tape/purp tape/Infrastructure/Supabase/SupabaseAuthService.swift:210-226 | no caller is ever handed a stored session that had less than a second left when loaded |
| TokenHistory.MemoryFollowsEvents | ios/purp tape/purp tape/Infrastructure/Supabase/SupabaseAuthService.swift:143-240 | memory holds the session last loaded, received, fallen back to or set, unless a sign-out came later |
| TokenHistory.FlagFollowsRun | ios/purp tape/purp tape/Infrastructure/Supabase/SupabaseAuthService.swift:229-240 | the restored flag is set if and only if a refresh has left the restore routine in any way, or a sign-in ended, since the last sign-out |
| TokenRefresh.SignedOutStays | ios/purp tape/purp tape/Infrastructure/Supabase/SupabaseAuthService.swift:143-151 | signed out with no refresh under way, memory stays empty until a refresh or session from outside |
| TokenRefresh.AnswerOutlivesSignOut | ios/purp tape/purp tape/Infrastructure/Supabase/SupabaseAuthService.swift:196-205 | a refresh answered after the sign-out puts its session back into memory |
| TokenRefresh.MinimumIntervalIsInert | ios/purp tape/purp tape/Infrastructure/Supabase/SupabaseAuthService.swift:159-165 | a call starts a task exactly when the slot is empty, whatever the last attempt's time |
| TokenRefresh.AuthService.EnterRefresh | ios/purp tape/purp tape/Infrastructure/Supabase/SupabaseAuthService.swift:158-178 | the stretch up to the first await is the machine's call step |
| TokenRefresh.AuthService.LeaveRefresh | ios/purp tape/purp tape/Infrastructure/Supabase/SupabaseAuthService.swift:180-185 | resuming hands out the task's outcome and runs the deferred clear for an owner only |
| TokenRefresh.AuthService.PerformTokenRefresh | ios/purp tape/purp tape/Infrastructure/Supabase/SupabaseAuthService.swift:188-240 | each stretch of the refresh, its restore and its fallback is the machine's task step |
| TokenRefresh.AuthService.EndSignOut | ios/purp tape/purp tape/Infrastructure/Supabase/SupabaseAuthService.swift:147-149 | the last stretch of signing out empties memory and takes the restored flag back, and leaves a refresh under way alone |
| AccessKeys.KeysAreShared | backend/internal/cache/access_list_cache.go:148-173 | two subjects share a key if and only if they are the same, or the same id on the project and the track route |
| AccessKeys.ColonsMakeKeysCollide | backend/internal/cache/access_list_cache.go:148-173 | with a colon in a user id two users can share a key |
| AccessCache.ChecksAreOfEitherRoute | backend/internal/middleware/access_check_cache.go:32-76 | in every interleaving a check returns what the tables said less than a minute plus the write delay ago, about the subject or, if that was read through since, the same id on the other route |
| AccessCache.GapDecides | backend/internal/middleware/access_check_cache.go:32-76 | in every run a check is about the subject asked for if and only if the id has not been looked up on the other route for a minute plus the write delay |
| AccessCache.OtherRouteDenies | backend/internal/middleware/access_check_cache.go:55-76 | with any shorter gap, a run in which a subject granted all the while is denied |
| AccessCache.HitIsOfEitherRoute | backend/internal/cache/access_list_cache.go:162-173 | a hit was true when read, of the subject asked for or the same id on the other route |
| AccessCache.ListsAreRecent | backend/internal/middleware/access_check_cache.go:154-174 | a preloaded list is the tables' list at one instant less than its lifetime plus the write delay ago |
| AccessCache.StoredValueAnswers | backend/internal/cache/access_list_cache.go:32-174 | from its write a value is the answer of a readable cache for exactly 60 seconds, a list of projects for 300 and of tracks for 180, whatever the tables say, unless the key is written or removed |
| AccessCache.InvalidationCoversLists | backend/internal/cache/access_list_cache.go:113-124 | whatever happens next, cached lists come from reads made since, if and only if no older list was on its way |
| AccessCache.InvalidationMissesChecks | backend/internal/middleware/access_check_cache.go:142-149 | invalidating a user changes no check of a single project or track |
| AccessBatch.BatchAnswersAreRecent | backend/internal/performance/batch_access_checker.go:79-168 | all answers of a batch, filtered or id by id, are those of one instant less than five minutes plus the write delay ago |
| AccessBatch.KeepsExactlyAccessible | backend/internal/performance/batch_access_checker.go:96-102 | filtering keeps each accessible item as often as it was given and drops the others |
| AccessBatch.KeepsOrder | backend/internal/performance/batch_access_checker.go:96-102 | filtering the parts filters the whole, so order is kept |
| AccessBatch.ListAgreesWithChecks | backend/internal/db/queries.go:813-874 | on every table that meets the schema's constraint on access types, the list and the single check agree |
| AccessBatch.AccessCheckCache.Get | backend/internal/cache/access_list_cache.go:48-67 | a hit is an unexpired entry in a readable cache |
| AccessBatch.AccessCheckCache.CheckProjectAccessCached | backend/internal/middleware/access_check_cache.go:32-53 | the cached answer, else the database's, which is handed to a goroutine unless the query failed |
| AccessBatch.AccessCheckCache.CheckTrackAccessCached | backend/internal/middleware/access_check_cache.go:56-76 | the same for tracks, under the keys of projects |
| AccessBatch.CheckIsAStep | backend/internal/middleware/access_check_cache.go:32-76 | a check by the object answers as the machine's check does, unless the query it needs fails, and takes the machine's reading step exactly on a miss that the database answers |
| AccessBatch.ObjectAnswersAreRecent | backend/internal/middleware/access_check_cache.go:32-76 | so an object's answer is what the tables said less than a minute plus the write delay ago about the subject or the same id on the other route |
| AccessBatch.AccessCheckCache.PreloadUserProjectAccessList | backend/internal/middleware/access_check_cache.go:154-174 | the cached list, else the database's, which is handed to a goroutine unless the query failed |
| AccessBatch.PreloadIsAStep | backend/internal/middleware/access_check_cache.go:154-174 | a preloaded list is one the machine may preload, with the reading step on a miss |
| AccessBatch.AccessCheckCache.RunWrite | backend/internal/cache/access_list_cache.go:152-160 | a detached write stores its value with the subject's lifetime, or is lost |
| AccessBatch.WriteIsAStep | backend/internal/middleware/access_check_cache.go:45-50 | a goroutine that gets to run is the machine storing or dropping its value |
| AccessBatch.AccessCheckCache.InvalidateUserAccessCache | backend/internal/cache/access_list_cache.go:113-124 | removes the two list keys and nothing else |
| AccessBatch.InvalidationIsAStep | backend/internal/cache/access_list_cache.go:113-124 | invalidating a user's lists is the machine's step |
| AccessBatch.BatchAccessChecker.FilterAccessibleTracks | backend/internal/performance/batch_access_checker.go:79-105 | nothing when the preload fails, else the order-preserving filter by the preloaded list |
| AccessBatch.BatchAccessChecker.FilterAccessibleProjects | backend/internal/performance/batch_access_checker.go:108-134 | the same for projects |
| AccessBatch.BatchAccessChecker.ParallelAccessCheck | backend/internal/performance/batch_access_checker.go:139-168 | nothing when the preload fails, else an answer for each id asked, true exactly for the listed ones |
| RateLimit.RateLimiter.IsAllowedWithLimit | backend/internal/middleware/rate_limit.go:49-82 | verdict and table after a request of the stopping limiter |
| RateLimit.RateLimiter.Cleanup | backend/internal/middleware/rate_limit.go:85-98 | the loop deletes exactly the entries whose window began over two minutes ago |
| RateLimit.ConfigurableRateLimiter.Handle | backend/internal/middleware/rate_limiter.go:50-87 | verdict and table after a request of the counting limiter |
| RateLimit.ConfigurableRateLimiter.Cleanup | backend/internal/middleware/rate_limiter.go:90-100 | the loop deletes exactly the entries whose reset is over five minutes past |
| RateLimit.ConfigurableRateLimiter.GetRateLimitStatus | backend/internal/middleware/rate_limiter.go:103-126 | the remaining count reported for a key |
| RateLimit.SlidingBound | backend/internal/middleware/rate_limit.go:49-98 | no closed interval one window long admits more than 2*limit-1 requests of an identifier, cleanups anywhere |
| RateLimit.BoundIsMet | backend/internal/middleware/rate_limit.go:49-82 | a run admits 2*limit-1 requests within one millisecond |
| RateLimit.BurstFillsWindow | backend/internal/middleware/rate_limit.go:66-81 | in an open window a burst is admitted up to what is left |
| RateLimit.ConfigurableSlidingBound | backend/internal/middleware/rate_limiter.go:50-100 | the same bound for the configurable limiter over its own window |
| RateLimit.CleanupIsInvisible | backend/internal/middleware/rate_limit.go:85-98 | dropping all cleanups from a run leaves every verdict of the first limiter |
| RateLimit.SweepIsInvisible | backend/internal/middleware/rate_limiter.go:90-100 | dropping all cleanups from a run leaves every verdict of the second limiter |
| RateLimit.CleanupBoundsTables | backend/internal/middleware/rate_limit.go:85-98 | a cleanup leaves only identifiers with a request in the last two windows, or the last window and five minutes, and takes no later entry |
| RateLimit.TrackersCount | backend/internal/middleware/rate_limiter.go:50-87 | the second limiter counts every request since the one that opened the window, and apart those over the limit |
| RateLimit.LimitersAgree | backend/internal/middleware/rate_limiter.go:50-100 | with equal window and limit both give the same verdict on every request, each with its own cleanups |
| RateLimit.StatusIsAccurate | backend/internal/middleware/rate_limiter.go:103-126 | exactly when the reported remainder tells whether the next request is served |
| RateLimit.RemainingIsExact | backend/internal/middleware/rate_limiter.go:115-118 | before the reset, the remainder is how many further requests are served |
| CircuitBreaker.BreakerObject.Call | backend/internal/middleware/enterprise.go:206-249 | a call is refused if and only if the calls that ran have tripped the breaker, the last of them failed and no more than the timeout has passed since; otherwise the reply says how the function ended, and the breaker is closed if and only if the calls that ran leave it untripped |
| CircuitBreaker.TrippedStep | backend/internal/middleware/enterprise.go:223-246 | one outcome trips a history by completing a row of failures and clears it by completing a row of successes |
| CircuitBreaker.StateIsExplainedByHistory | backend/internal/middleware/enterprise.go:206-249 | closed if and only if every row of failures was followed by a row of successes; the counters are the trailing rows, and at least the threshold when not closed |
| CircuitBreaker.HalfOpenCall | backend/internal/middleware/enterprise.go:225-246 | half-open, any failure reopens and only the last success of the required row closes |
| CircuitBreaker.RefusalsFollowHistory | backend/internal/middleware/enterprise.go:206-249 | after any timed calls, which calls run is told by the calls alone, without the breaker's state |
| CircuitBreaker.RecoveryCloses | backend/internal/middleware/enterprise.go:211-233 | from any open state, a row of `successThreshold` successes that begins after the timeout is let through and closes the breaker |
| CircuitBreaker.FailingRunsAreSpaced | backend/internal/middleware/enterprise.go:211-219 | once tripped, a failing function runs again only after a full timeout |
| CircuitBreaker.FailingCallsAreRare | backend/internal/middleware/enterprise.go:206-249 | if every run fails, the function runs at most failureThreshold + span/timeout times for every schedule |
| SqlText.PreprocessMigrationSQL | backend/internal/db/migrations.go:114-130 | the loop computes the kept text and the trimmed extracted lines |
| SqlText.JoinOfSplit | backend/internal/db/migrations.go:115-129 | joining the lines of a text gives the text back |
| SqlText.SplitOfJoin | backend/internal/db/migrations.go:115-129 | splitting joined lines gives the lines back |
| SqlText.EveryLineGoesSomewhere | backend/internal/db/migrations.go:119-127 | a line is extracted if and only if it is a VACUUM line, and none is lost or doubled |
| SqlText.VacuumLinesSpellIt | backend/internal/db/migrations.go:120-122 | a VACUUM line spells the word in any case followed by a blank, or is the word and a semicolon, white space at the ends apart |
| SqlText.MaintenanceIsTrimmed | backend/internal/db/migrations.go:120-125 | the maintenance statements are the extracted lines in order, without the white space at their ends |
| SqlText.DivisionIsStable | backend/internal/db/migrations.go:119-127 | both results keep the order of the lines |
| SqlText.PreparedHasNoVacuum | backend/internal/db/migrations.go:114-130 | no line of the returned text is a VACUUM line, trimming included |
| SqlText.PreparingTwice | backend/internal/db/migrations.go:114-130 | preparing its own output changes and extracts nothing |
| Migrations.SortSorts | backend/internal/db/migrations.go:39-42 | sorting gives the same files in strictly increasing name order |
| Migrations.LessMeaning | backend/internal/db/migrations.go:39-41 | one name is before another if and only if, where they first differ, it has the smaller character or has ended |
| Migrations.SelectsSqlFiles | backend/internal/db/migrations.go:31-37 | the files taken are exactly the `.sql` entries that are not directories, each once |
| Migrations.EndsWithMeaning | backend/internal/db/migrations.go:34-34 | a name has the suffix if and only if something followed by it is the name |
| Migrations.OrderIsFixed | backend/internal/db/migrations.go:31-42 | the migrations are in strictly increasing name order, whatever the order of the directory listing |
| Migrations.MigrationRunner.RunMigration | backend/internal/db/migrations.go:45-107 | one file's turn, with every error exit, also after a tolerated error |
| Migrations.BlankMeaning | backend/internal/db/migrations.go:69-73 | a file is skipped as empty if and only if it has only white space |
| Migrations.SqlMeaning | backend/internal/db/migrations.go:75-78 | a file has SQL to execute if and only if some line is neither blank nor a VACUUM line |
| Migrations.EnsuringGuardsLaterFiles | backend/internal/db/migrations.go:96-138 | when the access table cannot be ensured, an executed file is recorded if and only if its name is before that of migration 040 |
| Migrations.MigrationRunner.RunMigrations | backend/internal/db/migrations.go:18-111 | the runner creates its table, reads the directory, and selects, sorts and takes the files in turn until one stops it; of two files executed in one run, the one whose name has the smaller character at the first difference comes first |
| Migrations.RunsInOrder | backend/internal/db/migrations.go:39-45 | however its turns go, a run executes the files it executes in the order of their names |
| Migrations.RecordedIsPrefix | backend/internal/db/migrations.go:45-107 | after any crashed, failed and completed runs the recorded names are the non-blank files of a prefix, and an executed but unrecorded one can only be the next |
| Migrations.CompletedMeansDone | backend/internal/db/migrations.go:48-64 | after a completed run everything non-blank is recorded and no later run executes or records anything |
| Migrations.ExecutionsAreAccountedFor | backend/internal/db/migrations.go:79-104 | a migration was executed once per run that stopped before recording it, and once more if recorded |
| Migrations.AppliedUnlessTolerated | backend/internal/db/migrations.go:45-107 | for every directory and history, a migration's SQL has taken effect if and only if some run executed it without a tolerated error, whether or not that run went on to record it |
| Migrations.RecordedWithoutEffect | backend/internal/db/migrations.go:77-104 | it is without effect if and only if every run that executed it, however many, met a tolerated error, and a recorded one was executed |
| Migrations.ToleratedIsRecorded | backend/internal/db/migrations.go:79-104 | a tolerated error can come up in any number of runs that stop before recording and then in one that records; none of the SQL took effect exactly when there is any |
| Events.EventStore.AppendEvent | backend/internal/events/event_store.go:123-138 | the log grows by the event, which is handed to a goroutine for delivery |
| Events.EventStore.GetEvents | backend/internal/events/event_store.go:141-157 | the aggregate's events in log order |
| Events.EventsOfKeepsExactly | backend/internal/events/event_store.go:141-157 | exactly the aggregate's events are found, each as often as logged |
| Events.EventStore.GetEventsSince | backend/internal/events/event_store.go:160-176 | the suffix of the aggregate's events from the version on, for any integer version |
| Events.ProjectAggregate.constructor | backend/internal/events/event_store.go:204-215 | the state is the fold of the events |
| Events.ProjectAggregate.ApplyEvent | backend/internal/events/event_store.go:218-241 | how each kind of event changes the state |
| Events.ReplayTellsLatest | backend/internal/events/event_store.go:204-241 | name, description and privacy are those of the last creation or update, identity, owner and creation time of the last creation, the update time of the last of the three kinds |
| Events.ResumingFromCount | backend/internal/events/event_store.go:141-241 | resuming an older aggregate from its event count equals a full replay, however aggregates interleave |
| Events.ResumingFromVersion | backend/internal/events/event_store.go:160-241 | resuming from its version equals a full replay if and only if no created or updated event followed another kind |
| Events.DeletionMakesVersionLag | backend/internal/events/event_store.go:218-241 | a deletion before an update makes resuming from the version count the update twice |
| Events.ProjectionHandler.Handle | backend/internal/events/event_store.go:291-340 | the read models after one delivery |
| Events.KeysHoldLastWrite | backend/internal/events/event_store.go:291-340 | delivered in log order, each key holds the view of the last event writing it and other keys are untouched |
| Events.SharedKeys | backend/internal/events/event_store.go:291-340 | two uploads, or two plays, share a key if and only if their projects print alike, an upload and a play never do, and three kinds of event write none |
| Events.TracksShowLatest | backend/internal/events/event_store.go:319-327 | the projection of a project's tracks shows the last track uploaded to it, unless a later creation or update is filed under that key |
| Events.PlaysShowLatest | backend/internal/events/event_store.go:329-336 | the projection of a project's plays shows the last play, under the same condition |
| Events.ProjectsShowLatest | backend/internal/events/event_store.go:295-317 | the projection under an event type and a project shows the last creation or update filed there, unless a later upload or play shares the key |
| Events.EventReplayer.ReplayAll | backend/internal/events/event_store.go:366-381 | every event of the log is published and delivered, in order |
| Events.EventReplayer.ReplayAggregate | backend/internal/events/event_store.go:384-398 | every event of one aggregate is published and delivered, in order |
| Events.ReplayAllRestores | backend/internal/events/event_store.go:366-381 | replaying the log rebuilds the read models if and only if the log writes every key present before |
| Events.ReplayAllCatchesUp | backend/internal/events/event_store.go:366-381 | replaying onto a projection of any prefix, the whole log included, gives the projection of the whole log |
| Events.ReplayAggregateIsHarmless | backend/internal/events/event_store.go:384-398 | replaying one aggregate changes nothing if and only if its keys were last written, in the whole log, as it last wrote them |
| Events.ReplayingOneTrackRevertsAnother | backend/internal/events/event_store.go:319-327 | two tracks whose projects print alike share a key, and replaying the older undoes the newer |
| UrlKeys.InnerKeysDiffer | backend/internal/storage/r2.go:153-153 | two requests share an inner entry if and only if object key and whole seconds agree |
| UrlKeys.OuterKeysDiffer | backend/internal/handlers/download.go:130-130 | two requests share an outer entry if and only if object key and seconds agree |
| SignedUrls.PresignedURLCache.Get | backend/internal/cache/presigned_url_cache.go:37-52 | a hit is an entry whose expiry time has not passed |
| SignedUrls.PresignedURLCache.Set | backend/internal/cache/presigned_url_cache.go:55-63 | stores the link for one lifetime and changes no other key |
| SignedUrls.PresignedURLCache.CleanupExpired | backend/internal/cache/presigned_url_cache.go:82-104 | the loop deletes exactly the expired entries |
| SignedUrls.R2Client.GenerateSignedURL | backend/internal/storage/r2.go:152-180 | the cached or newly signed link, the cache afterwards and the hit and miss counters |
| SignedUrls.DownloadHandlers.GetOrCreateSignedURL | backend/internal/handlers/download.go:129-142 | link and both caches after a request through both levels |
| SignedUrls.AgesAdd | backend/internal/handlers/download.go:129-142 | after any run a link is for the right object and seconds, at most four minutes old from the client and sixteen through the handler |
| SignedUrls.InnerIsLive | backend/internal/storage/r2.go:152-180 | the client never returns an expired link if and only if the expiry is at least four minutes |
| SignedUrls.OuterIsLive | backend/internal/handlers/download.go:129-142 | the handler never returns an expired link if and only if the expiry is at least sixteen minutes |
| SignedUrls.SoleOuterIsLive | backend/internal/handlers/download.go:129-142 | when only the handler asks for the pair, never expired if and only if the expiry is at least twelve minutes |
| SignedUrls.CleanupIsInvisible | backend/internal/cache/presigned_url_cache.go:82-104 | sweeps anywhere in a run change no answer |
| SignedUrls.SweptCachesAreFresh | backend/internal/cache/presigned_url_cache.go:82-104 | a sweep leaves no link over four minutes old in the client's cache or sixteen in the handler's, and takes none within its lifetime |
| RequestMetrics.Metrics.RecordRequestMetric | backend/internal/handlers/health.go:242-258 | total, errors and average are those of the recorded requests |
| RequestMetrics.AverageDrift | backend/internal/handlers/health.go:251-257 | the sum and n times the average differ by at most n(n-1)/2, and the average never exceeds the mean for non-negative durations |
| RequestMetrics.AverageInNanoseconds | backend/internal/handlers/health.go:251-257 | in nanoseconds the average is at most the mean recorded and at least that less (n+1)/2 milliseconds |
| RequestMetrics.FailuresAreCounted | backend/internal/handlers/health.go:242-250 | the errors counted are the requests that failed |
| RequestMetrics.AverageIsBetween | backend/internal/handlers/health.go:251-257 | the average lies between the smallest and the largest duration |
| RequestMetrics.DriftIsMet | backend/internal/handlers/health.go:251-257 | durations 0, 1, ..., n-1 leave the average at zero, meeting the bound |
| Filename.SanitizeFilename | backend/internal/helpers/validation.go:70-82 | the result has no separator, no two dots in a row and at most 255 bytes, and is what the passes leave, cut only at the limit |
| Filename.OnePassIsEnough | backend/internal/helpers/validation.go:72-74 | one pass removes a pattern for good on every input if and only if it repeats a single byte |
| Filename.CleanIsFixed | backend/internal/helpers/validation.go:70-82 | a name is left alone if and only if it is clean; sanitising twice is sanitising once |
| Filename.RunKeepsRemainder | backend/internal/helpers/validation.go:74-74 | a run of n bytes keeps n modulo k of them when runs of k are removed, independent of its surroundings |
| Filename.RemovingAByteFilters | backend/internal/helpers/validation.go:72-73 | removing a separator keeps all other bytes in order |
| Filename.OrdinaryBytesSurvive | backend/internal/helpers/validation.go:70-74 | bytes other than separators and dots survive the passes in order |
| Filename.SeparatorsComeFirst | backend/internal/helpers/validation.go:72-74 | with the passes in another order a pair of dots could reappear |

## Left out

- HTTP handling, JSON, logging, metrics text, user interface, SQL, Redis, S3 and vault clients: only the effect on a table, map or set is modelled.
- `UpdateJobStatus`: nothing calls it.
- Job results, error messages and timestamps other than `created_at`: no branch reads them.
- The four-hour ticker of the cleanup job: a pass may start at any time.
- A claim whose commit took effect but was reported as failed: its rows would be lost as in a crash.
- Triggers and constraints from the migration files other than the cleanup triggers on projects and track versions and the constraint on access types.
- `PreloadUserTrackAccessList` as a method: its runs are among those of the lists, the code is that of the project list.
- Who maintains `user_project_access` and `user_track_access`: their changes are arbitrary.
- Images and their cleanup jobs: their keys are apart from those of tracks.
- `EnqueueCleanup`, `CreateTrackVersion` and `UpdateTrackVersionAfterUpload`: nothing calls them.
- Version numbering and the budget and quota checks of uploads: they read and then write without a lock and guarantee nothing across requests.
- Sign-in and sign-out beyond their effect on the session in memory and on the restored flag.
- Concurrent instances of the migration runner: runs follow one another.
- Upper-casing of non-ASCII letters: none becomes a letter of the keyword.
- Deliveries out of log order: each event is published by its own goroutine, and the projection lemmas are for deliveries in log order.
- SignedUrls.DownloadHandlers.GetOrCreateSignedURL: expiries are whole seconds, as at every call site, and filling both caches is one step.
- `Clear` and `Size` of the signed-URL cache: nothing calls them.
- RequestMetrics.Metrics.RecordRequestMetric: integers are unbounded, so overflow after 2^63 is not modelled.
- Filename.SanitizeFilename: cutting at 255 bytes may split a multi-byte character; the model works on bytes and says nothing about UTF-8.
- Fixed-result stubs (`chaos`, `backup`, `retention`, `cqrs`), validators, role and tier tables, and the cost estimates of `finops`: easy members or floating-point arithmetic.

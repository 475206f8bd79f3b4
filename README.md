# Natural-speech backend, modelled in Dafny

This project models the Python backend of the natural-speech application: the services behind its
speech, avatar and conversation endpoints. The model covers:

- the in-memory job table (`JobTracker`) and the bounded worker pool that drains the avatar job queue
  (`BackgroundTasks`);
- the token-bucket rate limiter, the two-tier TTL cache and the cleanup scheduler;
- the database job table and its statistics (`Database`);
- the exception hierarchy and its messages;
- the settings loader, the request and upload validators and the file-removal helpers (`Config`, `Security`, `Utils`, `Models`);
- the rhetorical-devices prompt parser and the conversation service's reply handling;
- the practice-statistics aggregations (`StatisticsService`);
- the pipeline-health and performance monitors, and system monitoring;
- the data service, which generates mock records and exports them as CSV.

There is one Dafny module per backend file, plus small shared modules:

- `Text`: Python string operations;
- `Ordering`: sorting and order statistics, used by the percentile code;
- `History`: bounded histories, as a `deque(maxlen=…)` keeps them;
- `Locks`: traces of a non-reentrant lock;
- `Sets`: a cardinality fact about finite sets;
- `Wrappers`: `Option` and `Result`.

The clock, environment variables, file contents, remote replies and system readings are parameters.
Tables and files are maps or sequences of records. Objects whose fields the backend updates in place
are classes whose methods state their whole new state.

## Model

| member | source | states |
|---|---|---|
| JobTracker.StatusValue | backend/job_tracker.py:13-19 | every job status is stored as its own non-empty lower-case word |
| JobTracker.StatusValueInjective | backend/job_tracker.py:13-19 | two statuses with the same stored word are the same status, so a stored row names one status |
| JobTracker.ApplyUpdate | backend/job_tracker.py:84-105 | an update sets the status and `updated_at` to now; `started_at` changes exactly when a processing update meets a job never started, and then becomes now; `completed_at` becomes now on completed or failed and changes on nothing else; a given progress, error text or result path is stored, and one not given is kept; creation time and metadata never change |
| JobTracker.StartedAtSetOnce | backend/job_tracker.py:87-89 | over any sequence of updates, a set `started_at` never changes again, and an unset one becomes the time of the first processing update |
| JobTracker.CompletedAtIsLastFinish | backend/job_tracker.py:91-93 | after any sequence of updates, `completed_at` is the time of the last completed or failed update, or unchanged when there was none |
| JobTracker.LimitCount | backend/job_tracker.py:137-146 | SQLite's `LIMIT n`: at most `n` rows, and every row for a negative limit |
| JobTracker.Cutoff | backend/job_tracker.py:162-166 | the cleanup cutoff is a midnight, `days` days before the midnight that starts today |
| JobTracker.CleanupPartition | backend/job_tracker.py:171-175 | a cleanup splits the table into deleted and kept rows; kept rows are unchanged and the two counts add up to the old size |
| JobTracker.ProcessingUpdateSelfDeadlocks | backend/job_tracker.py:79-115 | as written, a processing update takes the non-reentrant lock and then takes it again inside `get_job`, blocking forever at the second acquisition |
| JobTracker.UpdateLockSteps | backend/job_tracker.py:79-111 | corrected: an update is one acquire/release section, reading the row under the lock it already holds |
| JobTracker.UpdatesLockSteps | backend/job_tracker.py:79-111 | a series of corrected updates takes and releases the lock once per update |
| JobTracker.UpdatesNeverBlock | backend/job_tracker.py:79-111 | any series of corrected updates, whatever their statuses, runs to the end and leaves the lock free |
| JobTracker.Tracker.constructor | backend/job_tracker.py:24-49 | a new tracker has an empty job table |
| JobTracker.Tracker.CreateJob | backend/job_tracker.py:51-66 | a new id gets a pending row with `created_at == updated_at == now` and metadata `{}` when none is given; an existing id is refused by the primary key and the table is unchanged |
| JobTracker.Tracker.UpdateJobStatus | backend/job_tracker.py:68-111 | a known job's row becomes `ApplyUpdate` of it and nothing else changes; an unknown id leaves the table unchanged, and fails (the missing row's `.get`) only for a processing update |
| JobTracker.Tracker.GetJob | backend/job_tracker.py:113-128 | the row stored under the id, or `None` exactly when there is none |
| JobTracker.Tracker.Newest | backend/job_tracker.py:139-144 | picks, from a non-empty set of rows, one whose `created_at` is the latest (`ORDER BY created_at DESC`) |
| JobTracker.Tracker.GetJobs | backend/job_tracker.py:130-158 | the rows matching the status filter, each once, newest first, as many as `LIMIT` allows, and no omitted match is newer than a returned row |
| JobTracker.Tracker.CleanupOldJobs | backend/job_tracker.py:160-179 | the table keeps exactly the rows created at or after the cutoff, and the result is the number deleted |
| Locks.RunAppend | backend/job_tracker.py:26 | running two traces of lock steps one after the other is running their concatenation |
| Locks.NestedAcquireBlocks | backend/job_tracker.py:26 | on a non-reentrant lock, two acquisitions without a release between them block at the second |
| Locks.SectionsNeverBlock | backend/job_tracker.py:26 | any number of acquire/release sections run to the end and leave the lock free |
| BackgroundTasks.Dispatch | backend/background_tasks.py:74-94 | `_process_queue` starts a task exactly when a worker is free and the queue is not empty; it is the head of the queue, and the counter goes up by one; otherwise nothing changes |
| BackgroundTasks.DispatchWithinCapacity | backend/background_tasks.py:74-86 | a dispatch never takes the worker count above `max_workers` |
| BackgroundTasks.FifoOrder | backend/background_tasks.py:59-86 | over any run of submits, finishes and dispatches, the tasks started followed by those still queued are the initial queue followed by the tasks submitted, in order |
| BackgroundTasks.CapacityKept | backend/background_tasks.py:74-183 | over any run of events, the worker count stays within `0..max_workers` |
| BackgroundTasks.WorkerLadder | backend/background_tasks.py:96-178 | a worker writes processing updates with non-decreasing progress in `0..1`, then completed with progress 1.0 and the result path exactly when the job body succeeds, otherwise failed with an error text of at most 1000 characters |
| BackgroundTasks.ApplyAllLastStatus | backend/background_tasks.py:96-178 | a job's status after a sequence of updates is the last update's status |
| BackgroundTasks.WorkerFinalStatus | backend/background_tasks.py:96-178 | after a worker run the job is completed if the body succeeded and failed otherwise |
| BackgroundTasks.CancelAllEffect | backend/background_tasks.py:208-217 | `shutdown` marks every queued job cancelled and leaves every other job as it was |
| BackgroundTasks.JobIds | backend/background_tasks.py:210-216 | the ids of the queued tasks, in queue order |
| BackgroundTasks.TaskManager.constructor | backend/background_tasks.py:20-34 | a new manager has no active workers and an empty queue |
| BackgroundTasks.TaskManager.ProcessQueue | backend/background_tasks.py:74-94 | the manager's pool moves exactly as `Dispatch` says, and a started task joins the running ones |
| BackgroundTasks.TaskManager.SubmitAvatarJob | backend/background_tasks.py:36-72 | a job id already in the table is refused and nothing changes; otherwise a pending row with the task's metadata is created, the task joins the queue's tail and a dispatch follows |
| BackgroundTasks.TaskManager.RunWorker | backend/background_tasks.py:96-183 | a worker run applies its updates to its job, frees its slot and dispatches the next task |
| BackgroundTasks.TaskManager.FreeSlot | backend/background_tasks.py:179-181 | a finished worker lowers the active count by one |
| BackgroundTasks.TaskManager.ApplyUpdates | backend/background_tasks.py:96-178 | the job table after a worker's updates is `WorkerEffect` of the old table |
| BackgroundTasks.TaskManager.GetQueueStatus | backend/background_tasks.py:185-198 | the queue size, the manager's active worker count and cap, and the available workers as the cap minus the active ones, within `0..max_workers` |
| BackgroundTasks.TaskManager.Shutdown | backend/background_tasks.py:200-219 | every queued job is cancelled, the queue is emptied and the count of cancelled tasks is its old length |
| RateLimiter.ClientId | backend/rate_limiter.py:22-28 | with a non-empty `X-Forwarded-For` the client is the header's text before its first comma (all of it without one), stripped; otherwise the peer host, or "unknown" without one |
| Text.FirstPiece | backend/rate_limiter.py:27 | `s.split(c)[0]` is the text of `s` before the first `c`, or all of `s` when there is none |
| RateLimiter.Admit | backend/rate_limiter.py:30-55 | an unknown client is admitted with a full bucket; a known one is admitted iff its refilled tokens reach 1.0, which spends one token, and its bucket is stamped with now either way |
| RateLimiter.AdmitKeepsRange | backend/rate_limiter.py:30-55 | an admission keeps every bucket's tokens within `0..burst` and its stamp no later than the clock |
| RateLimiter.CleanupKeepsRange | backend/rate_limiter.py:77-86 | removing stale buckets keeps that range invariant |
| RateLimiter.AdmitSpends | backend/rate_limiter.py:41-55 | one admission leaves non-negative tokens stamped now, and the tokens left plus the one spent are at most the tokens before the burst cap |
| RateLimiter.RetryAfter | backend/rate_limiter.py:57-75 | 0.0 for an unknown client or one with a token available; otherwise the wait times the rate is exactly the missing part of a token, positive for a positive rate; a zero rate is the division by zero |
| RateLimiter.RetryAfterExact | backend/rate_limiter.py:30-75 | waiting at least the returned time gets the request admitted, and waiting any less does not |
| RateLimiter.Limiter.constructor | backend/rate_limiter.py:15-20 | tokens per second is the per-minute rate over 60, and the burst is the given size, or the per-minute rate when it is missing or zero; no buckets |
| RateLimiter.Limiter.IsAllowed | backend/rate_limiter.py:30-55 | the answer and the client's new bucket are those of `Admit`; no other bucket changes |
| RateLimiter.Limiter.GetRetryAfter | backend/rate_limiter.py:57-75 | the wait `RetryAfter` gives for the request's client, without changing any bucket |
| RateLimiter.Limiter.CleanupOldBuckets | backend/rate_limiter.py:77-86 | exactly the buckets older than the maximum age are removed |
| CacheManager.FileName | backend/cache_manager.py:41 | a key's file is named with the `.cache` suffix, the suffix `clear` looks for |
| CacheManager.GetNeverStale | backend/cache_manager.py:28-58 | a value `get` returns is the key's memory entry or file record, and younger than the time to live |
| CacheManager.GetDropsStale | backend/cache_manager.py:28-58 | after a `get` the key's memory entry, if any, is fresh; its file, if the memory did not answer, is a fresh record (expired and corrupt files are removed); no other key or file changes |
| CacheManager.GetBackfills | backend/cache_manager.py:42-49 | a memory miss answered by a fresh file returns the file's value and copies it, with the file's timestamp, into memory |
| CacheManager.SetThenGet | backend/cache_manager.py:60-75 | a value stored and read back within the time to live is returned, whether or not the file write failed, and the read changes nothing |
| CacheManager.SetExpiresInBothTiers | backend/cache_manager.py:28-75 | a value read after its time to live is `None`, and the read removes it from memory and from disk |
| CacheManager.Evict | backend/cache_manager.py:77-87 | the key is gone from memory and its file from disk; every other entry and file stays as it was |
| CacheManager.InvalidateThenGet | backend/cache_manager.py:28-87 | a `get` after `invalidate` of the same key returns `None` |
| CacheManager.ClearThenGet | backend/cache_manager.py:28-97 | a `get` of any key after `clear` returns `None` |
| CacheManager.Cache.constructor | backend/cache_manager.py:16-21 | a new cache has the given time to live, an empty memory tier and the directory's files |
| CacheManager.Cache.Get | backend/cache_manager.py:28-58 | the value and the new memory and disk tiers are those of the `Lookup` specification |
| CacheManager.Cache.Set | backend/cache_manager.py:60-75 | memory and disk become `Put` of the old ones: the memory entry is stamped now, and the file is written unless the write fails |
| CacheManager.Cache.Invalidate | backend/cache_manager.py:77-87 | memory and disk become `Evict` of the old ones |
| CacheManager.Cache.Clear | backend/cache_manager.py:89-97 | memory is emptied and exactly the files ending in `.cache` are removed |
| CacheManager.Cache.CacheResult | backend/cache_manager.py:99-123 | a cached non-null value is returned without running the function; otherwise the computed value is returned and stored under `name:key`; the cache's own time to live is the same afterwards |
| CleanupScheduler.Remove | backend/cleanup_scheduler.py:83-109 | removing a set of names leaves exactly the other entries, each unchanged |
| CleanupScheduler.SweepKeepsExactly | backend/cleanup_scheduler.py:83-94 | in the temp directory an entry survives iff it is a directory, is at most an hour old, or cannot be removed |
| CleanupScheduler.RootSweepOnlyPatterns | backend/cleanup_scheduler.py:100-109 | in the working directory a name that no `temp_*` pattern matches is never removed |
| CleanupScheduler.Performed | backend/cleanup_scheduler.py:52-66 | the steps a round performs are the plan up to the first step that raises, which is not performed; with no fault the whole plan |
| CleanupScheduler.StepsForFault | backend/cleanup_scheduler.py:52-66 | a job-cleanup fault skips everything; a bucket-cleanup fault leaves only the job cleanup done; a temp-file fault leaves jobs and buckets done |
| CleanupScheduler.VisitOne | backend/cleanup_scheduler.py:83-91 | visiting one more entry grows the removed set, and its count, by one exactly when that entry is doomed |
| CleanupScheduler.SweepEntries | backend/cleanup_scheduler.py:83-109 | the loop over the entries leaves the `Doomed` ones removed, every other entry unchanged, and counts exactly the removed ones |
| CleanupScheduler.SleepLength | backend/cleanup_scheduler.py:68-72 | the sleep lasts the interval (none for a negative one), none when the scheduler was stopped, and stops early at the second `stop` takes effect |
| CleanupScheduler.Scheduler.constructor | backend/cleanup_scheduler.py:15-30 | a new scheduler holds its collaborators and interval, is not running and has no thread |
| CleanupScheduler.Scheduler.Start | backend/cleanup_scheduler.py:32-40 | a running scheduler is left as it is; a stopped one starts running with one new loop thread |
| CleanupScheduler.Scheduler.Stop | backend/cleanup_scheduler.py:42-47 | the scheduler is no longer running |
| CleanupScheduler.Scheduler.CleanupTempFiles | backend/cleanup_scheduler.py:74-112 | a missing temp directory changes nothing and cleans 0; otherwise the listed directory loses its doomed files, the working directory its doomed `temp_*` files, and the count is the sum of both |
| CleanupScheduler.Scheduler.Sweep | backend/cleanup_scheduler.py:52-66 | the steps done are `Performed` of the plan; jobs older than seven days are deleted iff the job step ran, buckets older than an hour iff the bucket step ran; when the temp step ran, a missing temp directory leaves both directories unchanged, an unreadable one is kept as it was, a listed one loses exactly its reclaimable files, and the working directory then loses exactly its reclaimable `temp_*` files; without the temp step neither directory changes |
| CleanupScheduler.Scheduler.Sleep | backend/cleanup_scheduler.py:68-72 | the time slept is `SleepLength`, and the scheduler stays running unless stopped during the sleep |
| CleanupScheduler.Scheduler.Round | backend/cleanup_scheduler.py:49-72 | one turn of the loop: nothing when stopped; otherwise the sweep's steps followed by the sleep |
| Database.Clamp | backend/database.py:258-262 | a given progress is clamped into `0.0..1.0`: unchanged inside, 0.0 below, 1.0 above |
| Database.StoredError | backend/database.py:268-275 | an error text of at most 5000 characters is stored as is; a longer one keeps its first 5000 characters followed by the `... [truncated]` marker |
| Database.StoredErrorForgetsTail | backend/database.py:270-272 | two long error texts with the same first 5000 characters are stored the same |
| Database.Updated | backend/database.py:264-279 | the row takes the new status and update time; progress (clamped), error text (truncated, when non-empty) and result path (when non-empty) change only when given; `completed_at` becomes now exactly for completed or failed; type, creation time and metadata stay |
| Database.UpdateIdempotent | backend/database.py:222-289 | repeating the same update at the same time changes nothing more |
| Database.UpdateKeepsProgressInRange | backend/database.py:258-267 | an update keeps a row's progress within `0.0..1.0` |
| Database.LeadingFailures | backend/database.py:105-130 | the number of connection attempts, from a given one, that fail with an operational error before one that does not, capped by the retry limit |
| Database.LeadingFailuresFrom | backend/database.py:105-130 | after `k` failed attempts the count of leading failures is `k` plus the count from attempt `k` |
| Database.SessionErrorText | backend/database.py:139-159 | the recorded text of a session error starts with "Database " or "Unexpected " and ends with the error's own message |
| Database.WithStatus | backend/database.py:345-348 | the jobs counted for a status are jobs of the table |
| Database.DisjointCount | backend/database.py:345-348 | two different statuses count disjoint sets of jobs, so their counts add up |
| Database.SuccessRate | backend/database.py:372 | 0 for no jobs; otherwise completed times 100 over total, within `0..100`, and 100 when every job completed |
| Database.Stats | backend/database.py:344-373 | the total is the number of jobs; each status count is the number of jobs with that status; the four add up to at most the total; the rate is `SuccessRate` of the completed count and the total, within `0..100` |
| Database.StatusCountsBound | backend/database.py:344-348 | the jobs with the four statuses are disjoint parts of the table, so their counts add up to at most the total |
| Database.JobTable.constructor | backend/database.py:48-56 | an empty job table and healthy status with no error |
| Database.JobTable.GetJob | backend/database.py:292-316 | the row stored under the id, or `None` exactly when there is none |
| Database.JobTable.CreateJob | backend/database.py:181-219 | an existing id is refused with "Job <id> already exists" and the table is unchanged; otherwise a pending row is added under the id and returned |
| Database.JobTable.UpdateJobStatus | backend/database.py:222-289 | an unknown id returns `None` and changes nothing; a known row becomes `Updated` of it and is returned |
| Database.JobTable.Connect | backend/database.py:105-135 | operational failures are retried up to three attempts, sleeping 1 s, 2 s, ... between them; after three, the last error is raised and health is degraded with that error, the count raised by three and the last success kept; a connection makes health healthy with count 0 and the time recorded, keeping the last failure's text as the last error; any other error is raised at once, leaving health as the earlier failures of this call left it (degraded, their last text, their count, the last success kept), or untouched when there were none |
| Database.JobTable.RecordSessionError | backend/database.py:139-159 | a failing session records its error text and raises the error count by one, changing nothing else |
| Database.JobTable.PipelineStats | backend/database.py:332-373 | the job total and the count of each status over the table's rows, with the rate `SuccessRate` of completed over total, within `0..100` |
| Exceptions.Base | backend/exceptions.py:6-12 | an error keeps its message; the status is the one passed, or 500 when it is left out; a None or empty error code becomes INTERNAL_ERROR, so the code is never empty |
| Exceptions.ServiceNotAvailable | backend/exceptions.py:15-22 | 503 with SERVICE_UNAVAILABLE and the message `<service> service is not available`, which starts with the service name |
| Exceptions.ValidationCode | backend/exceptions.py:28 | VALIDATION_ERROR without a field; with a field, VALIDATION_ERROR_ followed by the field upper-cased |
| Exceptions.Validation | backend/exceptions.py:25-33 | 400 with the message and the field's validation code |
| Exceptions.ValidationCodeIgnoresCase | backend/exceptions.py:28 | two fields share a validation code iff they agree once upper-cased |
| Exceptions.FileError | backend/exceptions.py:36-43 | 400 with the message; FILE_ERROR when the code is left out, the code passed when it is non-empty, and INTERNAL_ERROR for an explicit None or empty code |
| Exceptions.AudioGeneration | backend/exceptions.py:46-53 | 500 with AUDIO_GENERATION_ERROR and the message |
| Exceptions.AvatarGeneration | backend/exceptions.py:56-63 | 500 with AVATAR_GENERATION_ERROR and the message |
| Exceptions.StatusByKind | backend/exceptions.py:25-63 | validation and file errors answer 400, generation failures 500; a validation error never carries INTERNAL_ERROR; a file error carries the code it was given, or FILE_ERROR without one |
| Config.GetEnv | backend/config.py:33 | an environment variable's value when it is set, the default otherwise |
| Config.FlagIgnoresCase | backend/config.py:35 | a boolean setting reads the same whatever the letter case of its value |
| Config.FlagNeedsTrue | backend/config.py:35 | a boolean setting is on only for the four letters of "true" in some letter case |
| Config.DefaultFlags | backend/config.py:35-86 | for every environment that leaves the flag variables unset, DEBUG, CORS_ALLOW_CREDENTIALS, ENABLE_METRICS and RATE_LIMIT_ENABLED are on and RELOAD is off |
| Config.CorsOrigins | backend/config.py:38-39 | one origin per comma-separated piece, one more than the commas, each the piece stripped and free of commas |
| Config.Normalized | backend/config.py:54 | an entry becomes `ext.strip().lower()`: no longer than the entry, no whitespace at either end, empty exactly for a blank entry |
| Config.AllowedExtensions | backend/config.py:53-54 | the allowed extensions are exactly the pieces, stripped and lower-cased, each with a leading dot |
| Config.MimeType | backend/config.py:55-58 | every content type starts with `image/`; jpg maps to `image/jpeg` and any other entry to `image/` followed by the entry normalized |
| Config.AllowedImageTypes | backend/config.py:55-58 | one content type per comma-separated piece, in order |
| Config.Load | backend/config.py:30-86 | each flag (DEBUG, CORS_ALLOW_CREDENTIALS, ENABLE_METRICS, RATE_LIMIT_ENABLED default on; RELOAD default off) is read from its variable; the upload limit is kept; the origins, extensions and content types are `CorsOrigins`, `AllowedExtensions` and `AllowedImageTypes` of their variables or the default lists; there are as many origins and content types as the lists have pieces; every extension starts with a dot and every content type with `image/` |
| Security.RejectionCode | backend/security.py:32-52 | each rejection carries its own non-empty file error code |
| Security.SplitExt | backend/security.py:40 | the extension is empty or a dot-led suffix of the path with no further dot and no slash |
| Security.SplitExtOfName | backend/security.py:40 | the extension of `stem.ext` is `.ext` when the stem does not start with a dot |
| Security.ValidateFileUpload | backend/security.py:18-52 | too large is reported first, then a filename whose extension is not allowed, then a content type not allowed; the file is accepted exactly when none applies |
| Security.LargerLimitStillAccepts | backend/security.py:29-32 | a file accepted under a size limit is accepted under any larger limit |
| Security.AnonymousUploadOnlySizeChecked | backend/security.py:32-52 | a file with neither name nor content type is accepted iff its size is within the limit |
| Security.ValidateTextInput | backend/security.py:55-81 | accepted iff the text is not blank, at least the minimum length and within the maximum when there is one; every rejection is VALIDATION_ERROR_TEXT, and a blank text is "Text cannot be empty" |
| Security.NoUpperBoundWithoutMax | backend/security.py:76-81 | without a maximum, any extension of an accepted text is accepted |
| Security.ValidateVoice | backend/security.py:84-99 | accepted iff the voice is one of the available ones; otherwise VALIDATION_ERROR_VOICE |
| Security.ValidateSpeed | backend/security.py:102-121 | a non-number is "Speed must be a number"; an int or finite float is accepted iff it lies within `0.5..2.0`; NaN, which fails both comparisons, is accepted; every rejection is VALIDATION_ERROR_SPEED |
| Security.SpeedInRange | backend/security.py:117-121 | a finite speed is accepted iff it lies within `0.5..2.0` |
| Utils.BaseName | backend/utils.py:40 | the final path component: a suffix of the path with no slash |
| Utils.Suffix | backend/utils.py:40 | `Path.suffix`: empty, or a dot followed by at least one character, ending the path, with no further dot and no slash |
| Utils.ValidateImageFile | backend/utils.py:27-53 | an extension outside the image list is refused first; then a non-empty content type outside the MIME list; otherwise accepted |
| Utils.SuffixlessImageRefused | backend/utils.py:39-43 | a missing filename or one without a suffix is always refused as an invalid file type |
| Utils.LastIndexOfLower | backend/utils.py:40 | lower-casing a path does not move its last dot or slash |
| Utils.SuffixIgnoresCase | backend/utils.py:40 | lower-casing before or after taking the suffix gives the same extension |
| Utils.CheckVoice | backend/utils.py:145-162 | valid iff the voice is non-empty and available, and then there is no message; an empty voice is "Voice cannot be empty"; an unavailable one names the voice |
| Utils.RemovableAtMostPaths | backend/utils.py:128-142 | no more files are removed than paths given |
| Utils.Disk.constructor | backend/utils.py:109-142 | a disk with the given files, some of which cannot be removed |
| Utils.Disk.CleanupFile | backend/utils.py:109-125 | true iff the file existed and could be removed, and then exactly that file is gone |
| Utils.Disk.CleanupFiles | backend/utils.py:128-142 | exactly the existing removable files among the paths are removed, and the count is their number, at most the number of paths |
| Models.Required | backend/models.py:34-38 | a blank value is refused with "<field> cannot be empty or only whitespace"; any other is accepted stripped, non-empty and without surrounding blanks |
| Models.RequiredIsStable | backend/models.py:64-68 | validating an accepted value again accepts it unchanged |
| Models.Optional | backend/models.py:86-90 | a missing value stays missing; a present one is validated like a required one, the empty string included |
| Models.Speed | backend/models.py:40-46 | a non-number is "Speed must be a number"; an int or finite float is accepted as a float iff it lies within `0.5..2.0`, otherwise "Speed must be between 0.5 and 2.0"; NaN is returned unchanged |
| Models.InRange | backend/models.py:44-46 | a speed is accepted, as the same float, iff it lies within `0.5..2.0` |
| Models.CleanOne | backend/models.py:336 | a blank device is dropped; any other is kept stripped |
| Models.CleanDevices | backend/models.py:336 | no more devices than given, each stripped and non-empty |
| Models.CleanDevicesAppend | backend/models.py:336 | cleaning a concatenation is cleaning each part |
| Models.CleanDevicesMembers | backend/models.py:336 | a device is kept iff it is the strip of a given non-blank device |
| Models.CleanOneStable | backend/models.py:336 | a cleaned device stays as it is when cleaned again |
| Models.KeepStripped | backend/models.py:336 | an already stripped non-blank device is kept as is |
| Models.CleanDevicesIdempotent | backend/models.py:336 | cleaning a cleaned list changes nothing |
| Models.Devices | backend/models.py:332-336 | an empty list is refused with "At least one rhetorical device must be selected"; any other becomes its cleaned list, which may be empty |
| Models.OneOf | backend/models.py:496-501 | accepted unchanged iff the value is in the list; otherwise "<what> must be one of: " and the list joined with ", " |
| Models.GoalType | backend/models.py:496-501 | accepted iff one of words, writings, speeches, poems, conversations |
| Models.Period | backend/models.py:503-508 | accepted iff one of daily, weekly, monthly |
| Models.PeriodIsCaseSensitive | backend/models.py:503-508 | every accepted period is already lower-case, so any spelling with a capital letter is refused |
| RhetoricalDevices.LowerMap | backend/rhetorical_device_service.py:97 | every catalogue name is found under its lower-cased form, and every entry maps a lower-cased key back to a catalogue name with that key |
| RhetoricalDevices.Known | backend/rhetorical_device_service.py:99-104 | every device kept is a catalogue name |
| RhetoricalDevices.UnknownEmptyIff | backend/rhetorical_device_service.py:99-106 | nothing is reported invalid iff every device's stripped, lower-cased form is in the catalogue |
| RhetoricalDevices.AllKnown | backend/rhetorical_device_service.py:99-104 | when nothing is invalid, the i-th validated device is the catalogue name of the i-th device given |
| RhetoricalDevices.CatalogueNamesRecognised | backend/rhetorical_device_service.py:97-102 | a device typed in any letter case and with surrounding blanks is recognised as its catalogue name |
| RhetoricalDevices.InvalidMessage | backend/rhetorical_device_service.py:106-110 | the error lists the invalid devices as typed, joined with ", ", followed by the available devices |
| RhetoricalDevices.Validated | backend/rhetorical_device_service.py:77-112 | an empty list is refused; otherwise the devices are accepted iff all are known, as their catalogue names in order, and refused with a 400 VALIDATION_ERROR naming the unknown ones |
| RhetoricalDevices.SortEntries | backend/rhetorical_device_service.py:99-104 | the loop splits the devices into the catalogue names of the known ones and the unknown ones as typed, each in order |
| RhetoricalDevices.ValidateDevices | backend/rhetorical_device_service.py:77-112 | the method's answer is `Validated` |
| RhetoricalDevices.Classify | backend/rhetorical_device_service.py:240-277 | a line is read stripped: blank, marked (its leading digits, dots, dashes, stars and spaces removed), or a device, example or plain line |
| RhetoricalDevices.Flush | backend/rhetorical_device_service.py:242-247 | an open prompt is emitted once, with all requested devices when no device line was seen; nothing is emitted when no prompt is open |
| RhetoricalDevices.Lines | backend/rhetorical_device_service.py:234-240 | one classified line per line of the stripped answer |
| RhetoricalDevices.ScanAll | backend/rhetorical_device_service.py:239-285 | the loop's prompts are the scan's prompts followed by the one still open |
| RhetoricalDevices.SplitSections | backend/rhetorical_device_service.py:288-301 | the loop's prompts are those of the blank-line sections longer than 20 characters, numbering removed |
| RhetoricalDevices.ParsePrompts | backend/rhetorical_device_service.py:226-303 | the method's answer is `Parsed`: the line scan, or the section split when the scan yields nothing |
| RhetoricalDevices.FlushWellFormed | backend/rhetorical_device_service.py:280-285 | a prompt flushed from a good state has non-empty stripped text, non-empty examples if any, and devices when any were requested |
| RhetoricalDevices.ExtendStripped | backend/rhetorical_device_service.py:277 | appending a stripped line after a space keeps the prompt stripped |
| RhetoricalDevices.StepKeepsGood | backend/rhetorical_device_service.py:239-277 | one line of the scan keeps every emitted prompt well formed and the open prompt stripped |
| RhetoricalDevices.ScanKeepsGood | backend/rhetorical_device_service.py:239-277 | the whole scan keeps that invariant |
| RhetoricalDevices.SectionsWellFormed | backend/rhetorical_device_service.py:288-301 | the section split emits well-formed prompts without examples |
| RhetoricalDevices.ParsedWellFormed | backend/rhetorical_device_service.py:226-303 | every parsed prompt is well formed |
| RhetoricalDevices.ScanCount | backend/rhetorical_device_service.py:239-285 | the scan opens at most one prompt per line |
| RhetoricalDevices.ScannedAtMostLines | backend/rhetorical_device_service.py:234-285 | the line scan yields at most as many prompts as the answer has lines |
| RhetoricalDevices.Template | backend/rhetorical_device_service.py:305-329 | every fallback text mentions the topic |
| RhetoricalDevices.FallbackCount | backend/rhetorical_device_service.py:322 | `min(count, 5)` fallback prompts, none for a negative count |
| RhetoricalDevices.Fallback | backend/rhetorical_device_service.py:305-329 | `min(count, 5)` prompts, each mentioning the topic, with every device and no examples |
| RhetoricalDevices.FallbackPrompts | backend/rhetorical_device_service.py:305-329 | the loop's prompts are `Fallback` |
| RhetoricalDevices.PaddedShape | backend/rhetorical_device_service.py:209-217 | the padded list has `min(count, parsed + 5)` prompts, at most `count`, and starts with the parsed ones |
| RhetoricalDevices.Generate | backend/rhetorical_device_service.py:114-224 | a blank topic is refused first, then invalid devices, then a missing client as a 503; otherwise prompts are always returned, at most `count`: the fallbacks when the reply failed or was blank, and otherwise the prompts parsed from the reply, padded with fallbacks and cut to `count` |
| RhetoricalDevices.SectionPrompt | backend/rhetorical_device_service.py:292-301 | one section gives at most one prompt, and a given one is stripped, non-empty, carries the devices and no examples |
| ConversationService.Extract | backend/conversation_service.py:92-103 | a line becomes a question only when, stripped and with its numbering removed, it is non-empty, has no surrounding blanks and is longer than 10 characters |
| ConversationService.ExtractKeepsQuestion | backend/conversation_service.py:92-103 | a stripped line longer than 10 characters that does not start with numbering is kept as it is |
| ConversationService.ShortLineDropped | backend/conversation_service.py:99 | a line of at most 10 characters never becomes a question |
| ConversationService.ExtractEach | backend/conversation_service.py:89-97 | one extraction per line, in order |
| ConversationService.Found | backend/conversation_service.py:89-99 | every question found in an answer is stripped and longer than 10 characters |
| ConversationService.Extracted | backend/conversation_service.py:99-103 | at most one prompt per line, each with the context "Practice speaking about: <topic>" |
| ConversationService.ExtractedQuestions | backend/conversation_service.py:99-103 | every extracted question is one of the lines found, stripped and longer than 10 characters |
| ConversationService.ExtractedAppend | backend/conversation_service.py:91-103 | extracting from a concatenation of lines is extracting from each part |
| ConversationService.ExtractPrompts | backend/conversation_service.py:88-103 | the loop's prompts are `Extracted` of the per-line extractions |
| ConversationService.Template | backend/conversation_service.py:120-129 | every fallback question mentions the topic |
| ConversationService.FallbackCount | backend/conversation_service.py:132 | `min(count, 8)` fallback prompts, none for a negative count |
| ConversationService.Fallback | backend/conversation_service.py:118-138 | `min(count, 8)` prompts, each mentioning the topic, with the topic's context |
| ConversationService.FallbackPrompts | backend/conversation_service.py:118-138 | the loop's prompts are `Fallback` |
| ConversationService.PaddedShape | backend/conversation_service.py:106-111 | the padded list has `min(count, extracted + 8)` prompts, starts with the extracted ones, and keeps the topic's context throughout |
| ConversationService.Generate | backend/conversation_service.py:43-116 | a blank topic is refused, then a missing client as a 503; otherwise prompts are always returned: the fallbacks when the call failed, else the extracted prompts padded and cut to `count` |
| ConversationService.GenerateShape | backend/conversation_service.py:43-116 | a successful request returns at most `count` prompts, exactly `count` when it is at most 8, all with the topic's context |
| ConversationService.GeneratePrompts | backend/conversation_service.py:43-116 | the method's answer is `Generate` |
| StatisticsService.WordCount | backend/statistics_service.py:54-59 | the number of whitespace-separated words, 0 exactly for a blank text |
| StatisticsService.WordCountBound | backend/statistics_service.py:59 | a text has at most half its length, rounded up, in words |
| StatisticsService.Record | backend/statistics_service.py:62-108 | each activity raises exactly its own counter by one (audio adds its minutes); writings and poems also add their words to the total; nothing else changes |
| StatisticsService.RecordCommutes | backend/statistics_service.py:62-108 | two activities recorded on a day give the same row in either order |
| StatisticsService.RecordMakesActive | backend/statistics_service.py:62-108 | recording a writing, speech, poem or conversation makes the day count toward the streak, whether the day had no row or a row with non-negative counters, such as one holding only audio minutes |
| StatisticsService.RowsUpToStep | backend/statistics_service.py:276-296 | the stored days up to a date include those up to the day before, and one more when that date is stored |
| StatisticsService.RunTo | backend/statistics_service.py:276-296 | the run of active days ending at a date: every day in it is active and the day before it is not |
| StatisticsService.Streak | backend/statistics_service.py:270-298 | `calculate_streak`: when today is active, the run of active days ending today, with the day before it inactive; otherwise the same run ending yesterday |
| StatisticsService.StreakStopsAtGap | backend/statistics_service.py:270-298 | the streak never reaches back past an inactive day before today, and an inactive today is skipped rather than counted |
| StatisticsService.StatisticsStore.constructor | backend/statistics_service.py:31-51 | a store with the given daily rows and goals |
| StatisticsService.StatisticsStore.Increment | backend/statistics_service.py:62-108 | today's row, created as zeros when missing, becomes `Record` of it; other days and the goals stay |
| StatisticsService.StatisticsStore.IncrementWritingCreated | backend/statistics_service.py:62-70 | one more writing today, and its words added |
| StatisticsService.StatisticsStore.IncrementSpeechPracticed | backend/statistics_service.py:72-79 | one more speech today |
| StatisticsService.StatisticsStore.IncrementPoemCreated | backend/statistics_service.py:81-89 | one more poem today, and its words added |
| StatisticsService.StatisticsStore.IncrementConversationCompleted | backend/statistics_service.py:91-98 | one more conversation today |
| StatisticsService.StatisticsStore.AddAudioMinutes | backend/statistics_service.py:100-108 | non-positive minutes change nothing; positive ones are added to today's row |
| StatisticsService.StatisticsStore.CalculateStreak | backend/statistics_service.py:270-298 | the loop's count is `Streak`: the active days ending today, or ending yesterday when today is inactive |
| StatisticsService.StatisticsStore.UpdateGoalProgress | backend/statistics_service.py:370-392 | the goals become `Refreshed` with today's row; the daily rows stay |
| StatisticsService.Refresh | backend/statistics_service.py:374-390 | only an active daily goal changes: its current value becomes today's statistic for its type (kept for an unknown type) and it is stamped now; identity, type, target, period and activity never change |
| StatisticsService.Refreshed | backend/statistics_service.py:374-390 | the same number of goals |
| StatisticsService.RefreshIdempotent | backend/statistics_service.py:374-390 | refreshing twice with the same day is refreshing once |
| StatisticsService.RefreshedWritingsGoal | backend/statistics_service.py:381-382 | an active daily writings goal ends up with today's writing count |
| StatisticsService.TruncDiv | backend/statistics_service.py:316 | Python's `int()` of a quotient: rounds toward zero for either sign |
| StatisticsService.ProgressPercentage | backend/statistics_service.py:316 | 0 without a positive target; otherwise at most 100, 100 once the target is met, and for partial progress the truncated percentage |
| StatisticsService.ProgressMonotone | backend/statistics_service.py:316 | more progress never shows a smaller percentage |
| StatisticsService.TruncDivMonotone | backend/statistics_service.py:316 | truncating division is monotone in the dividend |
| StatisticsService.TotalsSplit | backend/statistics_service.py:222-227 | the totals over a date range are the totals of any two adjacent parts |
| StatisticsService.TotalsNoRows | backend/statistics_service.py:153-166 | a range with no rows totals zero |
| StatisticsService.TotalsIgnoreOutside | backend/statistics_service.py:214-219 | a row outside the range does not change its totals |
| StatisticsService.WeeklyIgnoresOtherDays | backend/statistics_service.py:147-160 | the weekly totals depend only on the seven days from `end - 6` to `end` |
| StatisticsService.Weekly | backend/statistics_service.py:147-166 | `get_weekly_stats` totals: the six days before `end` plus `end`'s own row; zero when the week has no rows |
| StatisticsService.DaysInMonth | backend/statistics_service.py:205-210 | every month has 28 to 31 days |
| StatisticsService.NextMonth | backend/statistics_service.py:210 | the first of the next month comes the month's length of days after the first of this one |
| StatisticsService.NextYear | backend/statistics_service.py:208 | 1 January comes 31 days after 1 December |
| StatisticsService.MonthBounds | backend/statistics_service.py:205-212 | a month has bounds exactly when it is a valid date whose successor month exists, and they start on its first day |
| StatisticsService.MonthBoundsSpanMonth | backend/statistics_service.py:205-212 | the bounds end on the month's last day |
| StatisticsService.Windows | backend/statistics_service.py:231-252 | no windows for an empty range; otherwise the first starts at the start and the last ends at the end |
| StatisticsService.WindowsConsecutive | backend/statistics_service.py:231-252 | each window is non-empty, at most seven days long, and starts the day after the previous one ends |
| StatisticsService.WeeklyBreakdown | backend/statistics_service.py:229-252 | the loop's windows are `Windows` |
| StatisticsService.WindowsPartition | backend/statistics_service.py:229-252 | the windows' totals add up to the totals of the whole range |
| StatisticsService.WindowsCount | backend/statistics_service.py:229-252 | a range of n days has `ceil(n / 7)` windows |
| StatisticsService.MonthHasFourOrFiveWeeks | backend/statistics_service.py:197-252 | every month's breakdown has four or five weeks |
| PipelineHealth.Checked | backend/pipeline_health.py:146-154 | a check sets the status and check time; it counts exactly one error, keeping the message, or else one success |
| PipelineHealth.CheckedMetadataAndAverage | backend/pipeline_health.py:156-163 | a check merges its metadata over the old, the new entries winning and the other old ones kept; given times set the average to their mean, and no times leave it unchanged |
| PipelineHealth.Failed | backend/pipeline_health.py:198-202 | a recorded error counts one more error, keeps the message, and turns a healthy component degraded, leaving any other status |
| PipelineHealth.Escalated | backend/pipeline_health.py:201-202 | healthy becomes degraded; every other status stays |
| PipelineHealth.Operated | backend/pipeline_health.py:224-228 | an operation counts one success or one error and changes neither status nor last error |
| PipelineHealth.Overall | backend/pipeline_health.py:332-342 | "error" iff some component is in error; "degraded" iff none is but some is unavailable or degraded; "healthy" iff all are healthy; "unknown" otherwise |
| PipelineHealth.ErrorNeverImprovesOverall | backend/pipeline_health.py:198-202 | a recorded error never makes the overall status look better |
| PipelineHealth.InStatus | backend/pipeline_health.py:446-460 | the components listed are exactly those in the given status |
| PipelineHealth.Recommendations | backend/pipeline_health.py:428-470 | never empty; "All systems operating normally" alone iff the error rate is at most 5% and no component is degraded or unavailable; a high-rate line iff more than 5% of operations failed, then first and carrying `errors / operations * 100`; a degraded line iff some component is degraded; an unavailable line iff some component is unavailable, then last; one line per condition that holds |
| PipelineHealth.Message | backend/pipeline_health.py:440-468 | every recommendation renders as a non-empty text |
| PipelineHealth.Within | backend/pipeline_health.py:262-270 | the errors kept are exactly those at or after the cutoff |
| PipelineHealth.WithinMonotone | backend/pipeline_health.py:262-270 | a later cutoff keeps no more errors, so the last hour counts at most the last day |
| PipelineHealth.Tally | backend/pipeline_health.py:273-278 | each key seen is counted exactly as often as it occurs |
| PipelineHealth.Clipped | backend/pipeline_health.py:290 | a message is cut to a prefix of at most `n` characters, and nothing else about the error changes |
| PipelineHealth.Summarize | backend/pipeline_health.py:258-294 | the total counts the errors since the cutoff; the type and component tallies are the occurrence counts of the types and components of exactly those errors; the recent list is the last ten of them, clipped; at most ten recent errors, all since the cutoff, with messages of at most 200 characters |
| PipelineHealth.RecentClipped | backend/pipeline_health.py:285-293 | the last `min(10, n)` errors, in order, each with its message cut to 200 characters and every other field kept |
| PipelineHealth.LastClipped | backend/pipeline_health.py:285-293 | the last `min(n, len)` errors, in order, each with its message cut to a prefix of at most `width` characters and every other field kept |
| PipelineHealth.MetricsOf | backend/pipeline_health.py:301-311 | the count of the times, their mean, their minimum and maximum, and the 95th and 99th percentiles of the sorted times; min <= avg <= max and min <= p95 <= p99 <= max |
| PipelineHealth.SummaryOrdered | backend/pipeline_health.py:301-321 | the mean and both percentiles lie between the minimum and the maximum, and p95 <= p99 |
| PipelineHealth.HighP95Latency | backend/pipeline_health.py:410-424 | a component is flagged iff it has more than 10 samples, its mean is above 1 s and its 95th percentile is above twice the mean; a flagged component has some sample above 2 s |
| PipelineHealth.Problems | backend/pipeline_health.py:369-385 | one entry per component in error or degraded, in registration order; each with its status, error count and last error, and as recent errors the last five of its errors with messages cut to 100 characters |
| PipelineHealth.Flagged | backend/pipeline_health.py:369-370 | exactly the components in error or degraded |
| PipelineHealth.FlaggedDistinct | backend/pipeline_health.py:369-370 | a registry without repeats flags each component once |
| PipelineHealth.ProblemsDistinct | backend/pipeline_health.py:369-385 | over a registry without repeats, no component is listed twice as a problem |
| PipelineHealth.MostFrequentExists | backend/pipeline_health.py:392-398 | a non-empty count table has a key whose count no other key exceeds |
| PipelineHealth.MostFrequent | backend/pipeline_health.py:392-398 | a key of the table with the greatest count |
| PipelineHealth.TopCounts | backend/pipeline_health.py:392-398 | `min(n, size)` keys of the table with their own counts, none less frequent than a key left out |
| PipelineHealth.SumValuesRemove | backend/pipeline_health.py:354 | the total of the counters is one counter plus the total of the others |
| PipelineHealth.CountedOperationAddsOne | backend/pipeline_health.py:221 | counting one operation raises the total of the counters by one |
| PipelineHealth.StatusRequestSelfDeadlocks | backend/pipeline_health.py:96 | as written, a status request takes the non-reentrant lock and takes it again inside `get_error_summary`, blocking forever |
| PipelineHealth.StatusLockSteps | backend/pipeline_health.py:323-358 | corrected: a status request is one acquire/release section, the summary computed under the lock it already holds |
| PipelineHealth.StatusRequestsNeverBlock | backend/pipeline_health.py:323-358 | any number of corrected status requests run to the end and leave the lock free |
| PipelineHealth.Registered | backend/pipeline_health.py:139-144 | registering a component on its first check keeps the listing order and the component map in step |
| PipelineHealth.DistinctCount | backend/pipeline_health.py:356 | with no repeats in the listing order, the components tracked are as many as the order lists |
| PipelineHealth.Monitor.constructor | backend/pipeline_health.py:79-118 | the seven known components are registered as unknown, and every history and counter is empty |
| PipelineHealth.Monitor.Statuses | backend/pipeline_health.py:332 | one status per component, in registration order |
| PipelineHealth.Monitor.RecordComponentCheck | backend/pipeline_health.py:120-163 | an unknown component is registered first; its response time is pushed onto its bounded history and the component becomes `Checked` with that history; errors and operation counts are untouched |
| PipelineHealth.Monitor.RecordError | backend/pipeline_health.py:165-202 | the error is pushed onto the bounded history, its type's count and its component's list grow by one, and a known component becomes `Failed` |
| PipelineHealth.Monitor.RecordOperation | backend/pipeline_health.py:204-228 | the `component.operation` count grows by one, its duration is pushed onto its bounded history, a known component becomes `Operated`, and the total operations grow by exactly one |
| PipelineHealth.Monitor.ErrorSummaryFor | backend/pipeline_health.py:243-294 | without a component, the summary of all errors since `now - hours`; with one, the summary of that component's error list since the same cutoff |
| PipelineHealth.Monitor.PerformanceMetrics | backend/pipeline_health.py:296-313 | metrics exactly for the keys with some samples, each the `MetricsOf` summary of that key's kept times |
| PipelineHealth.Monitor.PerformanceIssues | backend/pipeline_health.py:405-426 | a key is reported iff it has more than 10 samples, a mean above one second and a 95th percentile above twice the mean; so a reported key has a sample above two seconds, and keys with 10 samples or fewer never are |
| PipelineHealth.Monitor.DiagnosticsAt | backend/pipeline_health.py:360-403 | the problem components of the registry, each listed once; the errors held from the last hour and from the last day, the first at most the second, which is at most the errors held; the top error types are the ten most frequent recorded types with their counts |
| PipelineHealth.Monitor.CurrentRecommendations | backend/pipeline_health.py:428-470 | the monitor always has at least one recommendation |
| PipelineHealth.Monitor.Status | backend/pipeline_health.py:323-358 | the overall status of the components; the errors held from the last day, at most the errors held, which never exceed the history's bound; the operations counted; one tracked entry per component |
| History.Push | backend/pipeline_health.py:87-92 | appending to a `deque(maxlen=n)` keeps the newest `n` of the old items and the new one, in order |
| History.Newest | backend/performance_monitor.py:34-35 | the newest items kept are at most the bound and at most the items given |
| History.PushKeepsNewest | backend/pipeline_health.py:87-92 | pushing items one by one onto the newest `n` of a history leaves the newest `n` of the whole sequence |
| History.PushIsNewest | backend/pipeline_health.py:87-92 | a push onto a history within its bound keeps the newest `n` of the history and the new item |
| History.SumBounds | backend/pipeline_health.py:306 | a sum of values within `lo..hi` lies within `n*lo..n*hi` |
| History.PercentileIndex | backend/pipeline_health.py:320-321 | the index is `int(n*p/100)`, capped at the last position |
| History.Percentile | backend/pipeline_health.py:315-321 | 0.0 for no data; otherwise an element of the data, the one at the percentile index of the sorted data |
| History.PercentileMonotone | backend/pipeline_health.py:315-321 | a higher percentile is never smaller |
| History.PercentileExtremes | backend/pipeline_health.py:315-321 | every value lies between the 0th and the 100th percentile |
| History.Min | backend/pipeline_health.py:307 | an element of the data no larger than any other |
| History.Max | backend/pipeline_health.py:308 | an element of the data no smaller than any other |
| History.MeanOrdered | backend/pipeline_health.py:306-308 | the mean lies between the minimum and the maximum |
| History.MeanWithin | backend/pipeline_health.py:306 | the mean of values within `lo..hi` lies within `lo..hi` |
| Ordering.Insert | backend/pipeline_health.py:319 | inserting into a sorted list keeps it sorted and adds exactly that element |
| Ordering.Sort | backend/pipeline_health.py:319 | `sorted`: a sorted permutation of the data |
| Ordering.SortKeepsElements | backend/pipeline_health.py:319 | every element of the sorted list is an element of the data |
| Ordering.SortedMonotone | backend/pipeline_health.py:319 | further along a sorted list is never smaller |
| Ordering.SortBounds | backend/performance_monitor.py:52-55 | the first of the sorted list is a minimum and the last a maximum |
| PerformanceMonitor.TrimAsWritten | backend/performance_monitor.py:34-35 | as written, the per-endpoint trim keeps the newest `max_history` times for a positive bound and every time for a bound of 0 (`times[-0:]`) |
| PerformanceMonitor.TrimAsWrittenUnbounded | backend/performance_monitor.py:18-35 | with a bound of 0 the as-written per-endpoint list keeps every time, while the global deque and the corrected trim keep none |
| PerformanceMonitor.GlobalMetrics | backend/performance_monitor.py:43-59 | zeros for no requests; otherwise the mean, the first and last of the sorted times, and the 95th and 99th percentiles; these are recorded times, min <= every time <= max, min <= avg <= max, and p95 <= p99 |
| PerformanceMonitor.Spread | backend/performance_monitor.py:52-59 | every time and the mean lie between the 0th and the 100th percentile |
| PerformanceMonitor.EndpointMetrics | backend/performance_monitor.py:63-74 | an endpoint's count and error count as recorded, the success rate `1 - errors / count` (within `0..1` when errors <= count, 1.0 without errors), and the mean, min, max and p95 of its times as for the global figures; min <= avg, p95 <= max |
| PerformanceMonitor.SuccessRate | backend/performance_monitor.py:69 | `1 - errors/count`: within `0..1`, 1.0 exactly without errors, 0.0 when every request failed |
| PerformanceMonitor.Monitor.constructor | backend/performance_monitor.py:16-24 | the given bound and start time, with every history and counter empty |
| PerformanceMonitor.Monitor.RecordRequest | backend/performance_monitor.py:26-38 | the duration is pushed onto the bounded global history; the endpoint's request count grows by one and its error count too on failure; its times keep the newest `max_history` (corrected trim) |
| PerformanceMonitor.Monitor.Metrics | backend/performance_monitor.py:40-101 | the uptime since the start, the requests held (at most the bound), the global figures of the held times, and for exactly the endpoints with times the endpoint figures of their counters and times, each with errors at most requests and a success rate within `0..1` |
| PerformanceMonitor.Monitor.Reset | backend/performance_monitor.py:104-111 | every history and counter is emptied and the start time is now |
| Monitoring.StatusName | backend/monitoring.py:62-67 | a status renders as "degraded", "warning" or "healthy" |
| Monitoring.CheckName | backend/monitoring.py:73-74 | a check renders as "ok" or "warning" |
| Monitoring.Classify | backend/monitoring.py:62-67 | degraded iff memory is above 90% or CPU above 95%; otherwise warning iff memory is above 75% or CPU above 80%; healthy iff neither |
| Monitoring.MemoryCheck | backend/monitoring.py:73 | ok iff memory is below 90% |
| Monitoring.CpuCheck | backend/monitoring.py:74 | ok iff CPU is below 95% |
| Monitoring.HealthStatus | backend/monitoring.py:53-76 | the status classifies the process's memory and CPU, and the two checks are `MemoryCheck` and `CpuCheck` of the same figures; when collecting them failed both count as 0, so the report is healthy with both checks ok |
| Monitoring.ClassifyMonotone | backend/monitoring.py:62-67 | higher memory and CPU never give a better status |
| Monitoring.ChecksAgreeWithStatus | backend/monitoring.py:62-75 | a failing check never comes with a healthy status, and a degraded status always comes with a failing check |
| Monitoring.WarningWithPassingChecks | backend/monitoring.py:62-75 | a warning status with both checks ok happens exactly when both figures are below 90%/95% and memory is above 75% or CPU above 80% |
| DataService.PlatformRows | backend/data_service.py:116-126 | one cell per platform, in order, for the given day and account |
| DataService.DayRowsLength | backend/data_service.py:115-126 | a day has one row per account and platform |
| DataService.Layout | backend/data_service.py:114-127 | no rows when the start is after the end |
| DataService.LayoutLength | backend/data_service.py:114-127 | the rows number days times accounts times platforms |
| DataService.MockRecord | backend/data_service.py:118-126 | the k-th record carries its cell's date, account and platform, the value `100 + k % 1000` (within `100..1099`), and is active exactly when k is even |
| DataService.Numbered | backend/data_service.py:118-124 | the k-th record is numbered k, one record per cell |
| DataService.GenerateMockRecords | backend/data_service.py:103-129 | the nested loops produce `Records`: the numbered cells day by day, account by account, platform by platform |
| DataService.AppendDay | backend/data_service.py:115-126 | the account loop appends one day's numbered rows |
| DataService.AppendAccount | backend/data_service.py:116-126 | the platform loop appends one account's numbered rows |
| DataService.LayoutSnoc | backend/data_service.py:114-127 | the rows up to a day are the rows up to the day before followed by that day's |
| DataService.NumberedSnoc | backend/data_service.py:118-124 | numbering one more cell appends its record with the next number |
| DataService.DayCell | backend/data_service.py:115-116 | cell c of a day belongs to account `c / platforms` and platform `c % platforms` |
| DataService.LayoutCell | backend/data_service.py:114-127 | row k falls on day `start + k / cells` at position `k % cells` of that day |
| DataService.RecordAt | backend/data_service.py:103-129 | record k is the mock record of the day, account and platform its position names |
| DataService.IdsDistinct | backend/data_service.py:119 | no two records share an id |
| DataService.DayRowsMembers | backend/data_service.py:115-126 | a cell is in a day's rows iff it is on that day with a listed account and a listed platform |
| DataService.LayoutMembers | backend/data_service.py:114-127 | a cell is in the rows iff its day lies in the range and its account and platform are listed |
| DataService.NumberedAccounts | backend/data_service.py:81 | the accounts of the records are the accounts of the cells |
| DataService.NumberedPlatforms | backend/data_service.py:82 | the platforms of the records are the platforms of the cells |
| DataService.AccountsCovered | backend/data_service.py:81 | with some platform, the records name exactly the accounts asked for |
| DataService.PlatformsCovered | backend/data_service.py:82 | with some account, the records name exactly the platforms asked for |
| DataService.NoCellsNoRecords | backend/data_service.py:114-127 | no accounts or no platforms means no records |
| DataService.AccountCount | backend/data_service.py:81 | the account total is the number of distinct accounts asked for, or 0 without platforms |
| DataService.PlatformCount | backend/data_service.py:82 | the platform total is the number of distinct platforms asked for, or 0 without accounts |
| DataService.Fetch | backend/data_service.py:36-129 | an unparsable date is an error; a start after the end is "Start date must be before end date"; a range ending on 9999-12-31 fails with the OverflowError of the day step after it; otherwise the records of the range, `end - start + 1` days, days times accounts times platforms records, and the distinct account and platform totals |
| DataService.FetchData | backend/data_service.py:36-129 | the method runs the record loops and answers as `Fetch`, including the overflow past 9999-12-31 |
| DataService.ExportCsv | backend/data_service.py:131-159 | fetch errors, the date overflow among them, propagate; "No data to export" exactly when there are no accounts or no platforms; otherwise a table of the fetched records |
| DataService.ProductZero | backend/data_service.py:147-148 | with at least one day, the record count is zero iff there are no accounts or no platforms |
| DataService.RecordsCount | backend/data_service.py:103-129 | the generated records number days times accounts times platforms |
| Text.Strip | backend/models.py:38 | `str.strip()`: a slice `s[i..j]` of the string with only whitespace before `i` and after `j`, and no whitespace at either end of it; empty exactly for a blank string |
| Text.StripIdempotent | backend/models.py:38 | stripping twice is stripping once |
| Text.LStripChars | backend/conversation_service.py:97 | `str.lstrip(chars)`: a suffix of the string whose removed prefix is all from the set and which does not itself start with one |
| Text.SplitOn | backend/config.py:39 | `str.split(sep)` gives at least one piece |
| Text.JoinSplitOn | backend/config.py:39 | joining the pieces of a split with the separator gives back the string |
| Text.SplitOnCharCount | backend/config.py:39 | splitting on a character gives one more piece than it has occurrences |
| Text.SplitOnCharPieces | backend/config.py:39 | no piece of a split contains the separator |
| Text.SliceTo | backend/conversation_service.py:111 | `xs[:count]`: a prefix of `min(count, len)` items, or of `len + count` items for a negative count |
| Text.WordsAreWords | backend/statistics_service.py:59 | every piece of `str.split()` is a non-empty run without whitespace |
| Text.NatToStringRoundTrip | backend/data_service.py:119 | reading back the decimal digits of a number gives the number |
| Text.NatToStringInjective | backend/data_service.py:119 | different numbers render differently |
| Locks.Sections | backend/job_tracker.py:26 | k acquire/release sections are 2k steps |

## Left out

- Threads and locks: each locked section is modelled as one sequential step. Only the two lock re-entries under "## Findings" are modelled, as lock traces in `Locks`.
- The worker pool's threads run one after another. `BackgroundTasks.TaskManager.RunWorker` runs one queued task to its end.
- `shutdown`'s polling loop waits for the active workers up to a timeout, using the clock and sleeping. It is left out. Queued tasks are cancelled as modelled.
- The worker's call to the speech and avatar services is an input (`BodyOutcome`). Deleting the temporary audio file in its `finally` block is file-system I/O and is left out.
- Generating a job id with `uuid4` is left out. The fresh id is a parameter.
- Token-bucket totals over a run of requests (at most the burst plus the refill over the elapsed time) are not proved. The model proves per-request properties (`RateLimiter.AdmitSpends`, `RateLimiter.RetryAfterExact`) only, because the sum over a run needs nonlinear real arithmetic.
- SQLite and SQLAlchemy sessions, `init_db`, and the connection-pool details of `get_db_health` are left out. The job table is a map from id to record.
- The file system is modelled as maps from paths to sizes and ages. Directory walking, `os.remove` failures other than a missing file, and permissions are left out.
- The cache key is a parameter. `_generate_key` hashes a JSON dump with MD5, and is left out.
- Float rounding is left out:
  - `round(…, 2)` in the monitors is not modelled; values are exact reals.
  - `int(n * 0.95)` and `int(current / target * 100)` are computed exactly on integers and reals.
- `psutil` readings are parameters. The `except` path of system monitoring that reports "unknown" is not modelled. Neither is the full contents of the system-metrics dictionary.
- Date parsing and formatting (`strptime`, `strftime`, `isoformat`) are left out:
  - dates are day numbers or `Option`s;
  - `datetime.max.time()` is the end of the given day.
- CSV quoting and the on-disk format are left out. A table holds parsed records.
- Sort order is not modelled in three places:
  - the order of `top_error_types` in `get_diagnostics`, modelled as a map;
  - the order of the performance-issue list, modelled as a set;
  - the order of the daily breakdown.
- `isdigit`, `lower` and `upper` cover ASCII only; `isspace` is Python's full set. Unicode digit and case classes are left out.
- Declarative `pydantic` field constraints (`min_length`, `max_length`, `ge`, `le`) are left out. Only the hand-written validators are modelled, so `Models.Speed` returns NaN as its validator would, although `ge=0.5` refuses NaN first.
- Float infinities are not represented. Both speed validators refuse them as out of range, as they refuse any finite value above 2.0 or below 0.5.
- The OpenAI client call is an input (`Reply`): a failure or an answer text.
- `get_component_health` and `get_all_components_health` only read the components map. They are not separate members.
- `cors_origins_list` and `get_cors_origins` return the parsed origins unchanged. They are not separate members.
- `Config.validate` checks that files exist, which is I/O. It is left out.
- `get_accounts` and `get_platforms` return constant lists and are left out.
- The writing-practice counts and `recent_activity` in `get_pipeline_stats` are left out.
- Parsing `PORT` and `MAX_UPLOAD_SIZE` with `int(...)` is left out. The upload limit is a parameter of `Config.Load`.
- The `time_range_hours` echo in the error-summary dictionary is left out.
- DiagnosticsAt: among error types with equal counts, which ones enter the top ten is not fixed. The source keeps the first recorded (its sort is stable over insertion order), and the model's count table has no insertion order.
- The message texts of refused uploads are left out: the size limit printed in megabytes with one decimal, and the joined lists of allowed extensions and types (backend/security.py:35, 42, 50; backend/utils.py:43, 48). The model keeps the refusal's kind and error code.
- StatisticsService.StatisticsStore.UpdateGoalProgress: one `now` stamps every refreshed goal, where the source calls `datetime.utcnow()` afresh for each goal (backend/statistics_service.py:390).
- BackgroundTasks.TaskManager.RunWorker: one `now` stamps every update of a worker run, where the source reads the clock afresh at each `update_job_status` call.
- A cache file that is valid JSON but not an object, or whose timestamp is not a number, raises `TypeError` in the source, which the `except` at backend/cache_manager.py:53 does not catch. The model treats it as `Unreadable` and removes it.
- Utils.BaseName: `pathlib` drops trailing `/` and `/.` before taking the name, so `Path("x.jpg/").suffix` is `.jpg`; the model takes the text after the last `/` and gives no suffix there.
- The ORM layer is not modelled, so two defects in it are not captured:
  - backend/database.py:73 declares a column named `metadata`, which SQLAlchemy's declarative base reserves;
  - backend/statistics_service.py:17 imports `DailyStatistics`, `UserGoal`, `Speech` and `Poem` from database.py, which defines only `Job` and `Writing`.

## Findings

| source | as written | input that shows it | evidently intended | confidence | as-written member | corrected member |
|---|---|---|---|---|---|---|
| backend/job_tracker.py:79-128 | `update_job_status` holds the non-reentrant `threading.Lock` and calls `get_job`, which takes the same lock again | any update to status PROCESSING, such as the worker's first update | read the job inside the already-held lock, so an update never blocks | not executed | JobTracker.ProcessingUpdateSelfDeadlocks | JobTracker.UpdatesNeverBlock |
| backend/pipeline_health.py:96-358 | `get_pipeline_status` holds the non-reentrant lock and calls `get_error_summary`, which takes the same lock again; `get_diagnostics` does the same | any call to `get_pipeline_status` | compute the error summary inside the held lock, so a status request never blocks | not executed | PipelineHealth.StatusRequestSelfDeadlocks | PipelineHealth.StatusRequestsNeverBlock |
| backend/performance_monitor.py:18-35 | the per-endpoint list is trimmed with `times[-max_history:]`, and with `max_history == 0` that slice keeps every element | `max_history = 0`, then any recorded request | keep at most `max_history` recent times per endpoint, as the global deque does | not executed | PerformanceMonitor.TrimAsWrittenUnbounded | PerformanceMonitor.Monitor.RecordRequest |

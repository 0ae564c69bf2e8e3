# Verified model of a Cloud Tasks and Cloud Scheduler emulator

The emulator stores queues, tasks and cron jobs in one SQLite database and drives them with two
concurrent engines. A **task worker** polls the queues, claims due tasks within a worker pool,
per-queue concurrency limits and per-queue token buckets, and dispatches each claimed task in its
own goroutine with retries. A **cron scheduler** lists due jobs, advances each one with a
compare-and-swap on `next_run_at`, and fires it through a dispatcher that lets one execution of a job
run at a time. API calls change the same rows at any moment, and the process can crash and restart.

Both engines are modelled as labelled transition systems: `Next` is one atomic step (a SQL statement
or a locked section), `Exec` runs a sequence of steps, and the theorems are about every run. The
objects of the program (repositories, worker, service, dispatcher) are classes whose methods are
proved against the same row functions that the transition systems use; the worker's poll loop is
written out as the source has it, with arbitrary steps of the other goroutines between any two of its
statements, and is proved to be a run of the transition system.

| file | content |
|---|---|
| `TaskRows.dfy` | tasks table, its SQL statements, `TaskRepository` |
| `TokenBucket.dfy` | dispatch-rate limiter |
| `Backoffs.dfy`, `Firing.dfy` | the two backoff rules, the scheduler's retry loop |
| `WorkerSystem.dfy` | the worker's transition system |
| `WorkerSafety.dfy` | slot accounting and limits |
| `WorkerExclusion.dfy`, `WorkerIdentity.dfy` | one request per RUNNING row; copies that agree with their rows |
| `WorkerRetries.dfy`, `WorkerRates.dfy`, `WorkerOrder.dfy` | retries and backoff, rate bound, order within a queue |
| `WorkerEffects.dfy`, `WorkerPolls.dfy` | what each step writes, column by column; what a poll does with each queue |
| `Poller.dfy` | the worker object and `pollAndDispatch` |
| `JobConfigs.dfy`, `JobMasks.dfy` | job configuration; masks, defaults, limits and storage in the texts and figures that clients see |
| `JobRows.dfy`, `JobService.dfy` | jobs table and tick, service calls |
| `SchedulerSystem.dfy`, `SchedulerEffects.dfy`, `FireGuard.dfy` | the scheduler's transition system, what its steps write and start, in-flight guard |
| `DueTimes.dfy`, `LateWrites.dfy`, `TickRuns.dfy` | order of claims; exactly which service writes break it; the stateless rule for whole runs |
| `Timestamps.dfy`, `TaskCreation.dfy`, `Paging.dfy` | text order of timestamps, CreateTask, ListTasks |
| `Scenarios.dfy`, `Restarts.dfy` | runs that show what the provisos of the theorems are for |
| `Options.dfy`, `ResourceIds.dfy` | shared helpers |

## Conventions

- Time is an integer clock in milliseconds that never goes back. The clock reading that a SQL
  statement carries as an argument belongs to the step of that statement; the poll's own reading
  (used by the token buckets) and a tick's reading may be older than the statements that follow.
- Theorems about one task put a proviso on that task's name only. `Careful`: the name is not created
  again while the task is being dispatched. `Courteous`: nor while the poller has it listed.
  `Scenarios.NameReuseDoublesRequests` shows why.
- Where a theorem speaks of the order of tasks or of retry delays, the configured backoffs are not
  negative.
- Order within a queue depends on the first of these conventions: run-now writes the clock of its own
  step. A run-now on another task that wrote an older reading could put that task ahead.
- `NextRun` is a function of the configuration (of which it reads the schedule and the time zone)
  and an instant, with a result strictly after that instant. Theorems about fixed instants say so.
- Outcomes of HTTP attempts, generated ids, row numbers, the interleaving and the crashes are
  arguments or labels, so every theorem holds for all of them.

## Findings

- The rate bound `R + R * (b - a)` holds in every window without a restart
  (`WorkerRates.RateWithinOneLife`), but a restart hands out a full bucket again
  (`Restarts.RestartHandsOutAnotherBucket`). `WorkerRates.RateIsBounded` has the bound for any number
  of restarts, of which only those between the window's first claim and its end count.
- `RetryConfig.Backoff` promises a wait capped at the maximum. Its int64 products are not guarded.
  Past the doublings, with 64 of them, the 66th wait is zero (`Backoffs.BackoffCanVanish`). Among the
  doublings, with a maximum of at least 2^62 ns, a wait can be negative
  (`Backoffs.BackoffCanGoNegative`). `Backoffs.BackoffMeetsPromise` says exactly when the promise is
  kept, for every validated configuration.
- The retry window of a job is checked by an int64 sum that can wrap, so a job with a very long backoff
  sleeps past its window (`Firing.WindowCanBePassed`). The check is right exactly when the sum does not
  overflow (`Firing.WindowCheckIsExact`, `Firing.RetryInWindow`).
- The worker's `backoff` exceeds its maximum on the first retry if the configured initial delay does
  (`Backoffs.TaskDelayClosedForm`).
- The read and write halves of Update, Resume and Create are not one transaction. If a write half
  comes late, a job can fire twice for one due time (`Scenarios.LateWriteFiresTwice`). This happens
  exactly when the next run it sets is not above every due time claimed so far
  (`LateWrites.WriteKeepsOrder`), and never when each call is one step
  (`DueTimes.OneStepCallsFireInOrder`).
- A minimum backoff below one millisecond is stored as zero and read back as "use the default", so
  later updates can change it or be rejected (`JobConfigs.UncoveredNumberKept`,
  `JobConfigs.UntouchedBackoffsInOrder`, `JobConfigs.SubMillisecondBackoffBlocksUpdates`).
- A row in the old whole-second layout sorts before a row in the new layout of the same instant
  (`Timestamps.RowOrder`); section 5.1 of RFC 3339 asks for equal fraction digits for that reason.
  Due-ness is not affected (`Timestamps.DueByText`).

## Model

| member | source | states |
|---|---|---|
| WorkerSafety.SlotsAreExact | internal/worker/worker.go:86-164 | in every reachable state the semaphore fill is the number of live goroutines plus the slot the poller holds, never above the pool size, and each queue's in-flight counter is the number of its goroutines that have not given their count back |
| WorkerExclusion.OneRequestPerRunningTask | internal/worker/worker.go:137-161 | if the name is not created again while the task is being dispatched (stale listings and all other names at will), in every reachable state of a recovered worker its row is RUNNING iff the poller has just claimed it or a request for it is out, never both, and never two requests |
| WorkerExclusion.ProvisoIsExact | internal/tasks/repository.go:185-199 | a step keeps that correspondence iff it does not create the name while the task is being dispatched |
| WorkerIdentity.RunsKeepIdentity | internal/tasks/repository.go:185-255 | if the name is not created again while listed or being dispatched, every run keeps: copies of its row held by the poller and by goroutines agree with the row, a listed row is PENDING and due, a RUNNING row is owned, the retry count stays within budget |
| WorkerSafety.RunsStayAccounted | internal/worker/worker.go:100-161 | every run keeps slot accounting and the limits each visit read |
| WorkerIdentity.ClaimFailsOnlyIfGone | internal/worker/worker.go:137-146 | under the proviso for its name the poller's claim of a listed task fails exactly when the row has been removed |
| WorkerSafety.SlotAlwaysFree | internal/worker/worker.go:131-136 | in every reachable state in which a listed task is about to be claimed, taking a slot succeeds, so the "semaphore full" return inside the task loop is unreachable |
| WorkerSafety.PollerKeepsLimits | internal/worker/worker.go:100-124 | every poller step keeps what the visit may still take within the free slots, the concurrency limit read and the tokens refilled, and all limits at least 1 |
| WorkerRetries.ConcurrencyBounded | internal/worker/worker.go:108-111 | in every run in which a queue's stored limit never exceeds m, at most m of its dispatches are out |
| WorkerRetries.AttemptsCountDispatches | internal/tasks/model.go:36-42 | under the proviso Attempts() equals the dispatches since the task was created or last re-queued, less its crash recoveries, in every reachable state |
| WorkerRetries.DispatchesBounded | internal/worker/worker.go:226-242 | a task gets at most max(0, MaxRetries) + 1 dispatches plus one per crash recovery, with the last of them it is no longer PENDING, and every request carries its row's retry count |
| WorkerRetries.BackoffIsRespected | internal/worker/worker.go:226-253 | after recorded failure n at time T no later claim of the task happens before T + min(max, initial * 2^(n-1)) seconds, crashes and restarts included, unless run-now or re-creation intervenes |
| WorkerRates.RateIsBounded | internal/worker/worker.go:112-120 | in every run the claims on a queue by polls with clock reading in [a, b], while its rate is R, number at most (restarts + 1) * R + R * (b - a) seconds, counting only restarts after a claim of the window and before its end |
| WorkerRates.RateWithinOneLife | internal/worker/worker.go:112-120 | at most R + R * (b - a) if no restart falls into [a, b], whatever restarts come before and after |
| WorkerRates.TokensStayInRange | internal/worker/worker.go:74-84 | while every visit reads rate R the bucket holds between 0 and max(1, R) tokens |
| TokenBucket.LazyRefill | internal/worker/worker.go:80-84 | one refill at the end equals refilling at any sequence of intermediate instants |
| TokenBucket.RefillInFigures | internal/worker/worker.go:80-84 | after a refill the tokens are min(max(1, R), tokens + R * seconds since the last refill) |
| TokenBucket.FullAgain | internal/worker/worker.go:80-84 | a bucket left alone for a second is full; with less time it is full iff the time makes up for what was missing |
| WorkerOrder.AheadOnlyShrinks | internal/tasks/repository.go:175-183 | within one process life the set of pending tasks sorting ahead of an overdue task with no request out only shrinks, except by creating a task with an earlier schedule time or run-now on the task itself; other names may be created and removed at will (run-now writes the clock of its own step) |
| WorkerOrder.WaitingHasNoRequest | internal/worker/worker.go:137-161 | a waiting task has no request out unless its own name was created again while it was being dispatched |
| WorkerOrder.VisitServesOrShortens | internal/worker/worker.go:126-162 | every visit that may take k tasks of the queue claims the overdue task (or finds it removed) or leaves at least k fewer tasks ahead of it |
| WorkerOrder.WaitIsBounded | internal/worker/worker.go:98-162 | over any orderly run within one process life the overdue task is claimed (or removed), or the line ahead of it has shortened by the sum of the limits of its queue's visits, so it is served once that sum exceeds the number ahead (run-now writes the clock of its own step) |
| Poller.Worker.PollAndDispatch | internal/worker/worker.go:86-164 | whatever the other goroutines and API calls do between its statements, one poll is a run of the transition system that starts with its queue listing and ends idle; so the results about polls below hold of it |
| WorkerPolls.PausedQueueIsNotServed | internal/worker/worker.go:96-99 | from a reachable state with a queue paused, as long as nobody resumes or re-creates it, a poll that begins later claims no task whose row belongs to the queue |
| WorkerPolls.PausedWhenListed | internal/worker/worker.go:88-99 | a poll that lists a queue as paused claims no task of it, even if the queue is resumed meanwhile |
| WorkerPolls.EveryQueueGetsItsVisit | internal/worker/worker.go:96-104 | a poll visits every queue of its listing that was not paused, unless it found the worker pool full |
| WorkerPolls.LimitIsLargest | internal/worker/worker.go:105-124 | the limit of a visit is the largest number for which slots, concurrency and refilled tokens suffice, and a queue for which not even one does is passed over |
| WorkerPolls.RoomIsFreeSlots | internal/worker/worker.go:100-103 | a visit is offered exactly the free slots, at the clock reading of its poll |
| WorkerPolls.PollReadsTheClock | internal/worker/worker.go:94 | in every run all visits of a poll use the clock reading of its listing |
| Poller.Worker.RecordOutcome | internal/worker/worker.go:202-242 | a 2xx response makes the row COMPLETED and changes nothing else; anything else makes it FAILED when the retries are used up, and otherwise PENDING with one more retry and due exactly after the backoff; every other row is unchanged |
| WorkerEffects.OutcomeIsWritten | internal/worker/worker.go:211-242 | the same of the transition system's goroutine step |
| WorkerEffects.EndedByLastRequest | internal/worker/worker.go:211-229 | in every reachable state an ended task is COMPLETED iff its last request got a 2xx response, and FAILED iff it did not |
| WorkerEffects.CallOnTask | internal/tasks/repository.go:212-232 | which columns of which task each API call writes: creation, deletion, run-now, and removal of exactly the tasks of a deleted or purged queue |
| WorkerEffects.CallOnQueue | internal/queues/repository.go:37-64 | which columns of which queue each API call writes, with the defaults of 500 per second and 1000 at a time, and zero limits in an update keeping the old ones |
| WorkerEffects.CallIsPossible | internal/queues/repository.go:43-50 | every call is possible at any time, but for a name that is taken and a clock that goes back |
| WorkerEffects.RestartKeepsTables | internal/tasks/repository.go:247-255 | a crash loses no row, and recovery turns RUNNING into PENDING and changes no other column |
| Poller.Worker.Start | internal/worker/worker.go:44-51 | start-up returns every RUNNING row to PENDING and counts them |
| TaskRows.TaskRepository.ListPendingForQueue | internal/tasks/repository.go:175-183 | returns the first `limit` due PENDING rows of the queue by next attempt and row number |
| TaskRows.TaskRepository.SetNextAttemptNow | internal/tasks/repository.go:212-232 | makes a pending task due, re-queues an ended one from scratch, leaves a running one alone, reports a missing one |
| TaskRows.TaskRepository.Recover | internal/tasks/repository.go:247-255 | no row is RUNNING afterwards, other rows are unchanged, and the result is the number of rows changed |
| Backoffs.TaskDelayClosedForm | internal/worker/worker.go:244-253 | the delay before retry n is min(max, initial * 2^(n-1)), and exactly when the cap is exceeded |
| Backoffs.TaskBackoff | internal/worker/worker.go:244-253 | the doubling loop computes that delay |
| Backoffs.BackoffMeetsPromise | internal/scheduler/model.go:226-252 | for every validated config the int64 code returns min(Max, Min * 2^(n-1)), then min(Max, Min * 2^D * (n-D)), iff the product fits an int64 or wraps on the way to at least the cap |
| Backoffs.DoublingsKeepPromise | internal/scheduler/model.go:234-240 | among the doublings the promise is always kept when Max is below 2^62 ns |
| Backoffs.FirstOverflowIsNegative | internal/scheduler/model.go:235-240 | if the first doubling at or above the cap leaves the int64 range the wait is negative |
| Backoffs.BackoffCanGoNegative | internal/scheduler/model.go:235-240 | a validated config with a negative 32nd wait |
| Backoffs.ComputeBackoff | internal/scheduler/model.go:228-252 | the two wrapping int64 loops compute the modelled value for every config and retry number |
| Backoffs.PromiseNonDecreasing | internal/scheduler/model.go:226-228 | promised waits never shrink and never exceed the maximum |
| Backoffs.BackoffCanVanish | internal/scheduler/model.go:241-247 | with 64 doublings the 66th wait is 0 instead of the maximum |
| Firing.Fire | internal/scheduler/dispatcher.go:95-129 | at most RetryCount + 1 attempts, one record each, all but the last failed; each starts when the one before it has run and its sleep is over; sleeps are Backoff(1), Backoff(2), ... in order, and if no window check overflows the time slept is at most MaxRetryDuration when that is set; before the last allowed attempt it stops exactly on success, cancellation, or when the wrapping check says that the next wait would not fit the retry window |
| Firing.WindowCheckIsExact | internal/scheduler/dispatcher.go:119-122 | the check says what the exact sum says iff that sum is below 2^63 |
| Firing.RetryInWindow | internal/scheduler/dispatcher.go:119-127 | a retry that Fire makes falls within the window iff its check did not overflow |
| Firing.WindowCanBePassed | internal/scheduler/dispatcher.go:119-127 | a validated config with a one-hour window with which every Fire whose first attempt fails after a millisecond sleeps 292 years |
| Firing.SleepsArePromised | internal/scheduler/dispatcher.go:119-127 | the n-th sleep is the promised wait before retry n iff the int64 arithmetic keeps the promise |
| JobRows.TickRefinesStatelessRule | internal/scheduler/runner.go:48-80 | for a fixed-instant schedule and any tick times, tick i fires iff the schedule has an instant since the previous tick, with the first such instant as its due time, and leaves next_run_at at NextRun of the tick: one claim however long the downtime |
| JobRows.JobRepository.Tick | internal/scheduler/runner.go:51-79 | every due row is advanced past now or paused, every other row is unchanged, and the fired list is the due listing without the paused jobs |
| JobRows.FiresEachOnce | internal/scheduler/runner.go:58-79 | a tick fires each due job that has a next run exactly once and no other |
| JobRows.JobRepository.ListDue | internal/scheduler/repository.go:134-138 | returns every due job once, by due time |
| JobRows.JobRepository.ClaimJob | internal/scheduler/repository.go:162-172 | advances next_run_at iff the row is ENABLED with the expected value, and tells the winner |
| TickRuns.RunFollowsStatelessRule | internal/scheduler/runner.go:48-80 | the same for whole runs of the scheduler with one tick loop at a time, as the runner makes them, and no service write to the job; other jobs, firings and restarts at will: the claims are those of the stateless rule on the tick times |
| TickRuns.RunIsTicks | internal/scheduler/repository.go:134-172 | in such a run, for any schedule, the job's row and its claims are those of the row machine on the tick times |
| DueTimes.DueTimesIncrease | internal/scheduler/runner.go:58-72 | with any number of interleaved tick loops and stale listings, the successful claims of a job take strictly increasing due times as long as every service write to it pauses it or sets a next run above those already claimed (in particular between two service writes) |
| LateWrites.WriteKeepsOrder | internal/scheduler/service.go:104-127 | a service write keeps due times increasing in every continuation iff it is of that kind |
| LateWrites.DueJobFires | internal/scheduler/runner.go:51-79 | in any state, an enabled job whose next run has come is claimed by the next tick, with that due time |
| DueTimes.OneStepCallsFireInOrder | internal/scheduler/service.go:74-127 | if each service call is one step, due times strictly increase over the whole run, delete and re-create included, and a winning compare-and-swap listed the current configuration |
| DueTimes.AtomicCallIsTimely | internal/scheduler/service.go:74-127 | a service call that is not interrupted writes in time |
| DueTimes.NoStaleFiring | internal/scheduler/repository.go:162-172 | over a whole run with writes in time, delete and re-create included, a winning compare-and-swap implies that the listed configuration is still the current one |
| SchedulerSystem.RowsStaySound | internal/scheduler/service.go:27-127 | in every reachable state, with read and write halves of calls interleaved arbitrarily, a job is ENABLED iff next_run_at > 0 and its stored configuration is valid |
| FireGuard.OneFirePerJob | internal/scheduler/dispatcher.go:76-101 | in every reachable state at most one Fire of a job is active, across tick loops and run-now calls, and one is iff the guard says so |
| FireGuard.LastAttemptNeverGoesBack | internal/scheduler/repository.go:174-179 | in a row's life last_attempt_at never goes backwards |
| FireGuard.ExecutionsDoNotInterleave | internal/scheduler/dispatcher.go:95-115 | recorded attempts of a job are grouped by execution in every run |
| FireGuard.Dispatcher.AcquireJob | internal/scheduler/dispatcher.go:76-84 | succeeds iff the job is not running, and then it is |
| SchedulerEffects.EveryFireIsAccountedFor | internal/scheduler/runner.go:66-79 | in every run the Fire calls started are those of the won compare-and-swaps, each for the due time it took, and of run-now, each for the current time, in order; only those wait or are active |
| SchedulerEffects.RowRemembersLastAttempt | internal/scheduler/repository.go:174-179 | in every reachable state the attempt columns of a job are the start and the code of the last attempt recorded since it was created |
| SchedulerEffects.FireOnGuard | internal/scheduler/dispatcher.go:76-101 | a Fire call whose turn it is becomes active iff no other of its job is, starts attempts at the clock, and gives the job free at its end |
| SchedulerEffects.TickOnJob | internal/scheduler/runner.go:58-79 | what a tick loop writes to the job of its listed entry, column by column; nothing to any other |
| SchedulerEffects.CommitOnJob | internal/scheduler/repository.go:78-98 | what the write half of each service call writes, column by column; the attempt columns never |
| SchedulerEffects.OthersOnJob | internal/scheduler/service.go:70-98 | deleting removes one row; listings, run-now, the guard, time and crashes change none |
| SchedulerEffects.StepIsPossible | internal/scheduler/service.go:89-98 | when each step is possible: run-now whatever the state of the job, crash and deletion always |
| JobService.Service.Create | internal/scheduler/service.go:27-45 | which answer each request gets, a bad job id included; inserts a validated job with the next run of its state, or writes nothing |
| JobService.JobNamesAre | internal/scheduler/model.go:31 | job names are 1 to 500 letters, digits, hyphens and underscores |
| JobService.Service.Resume | internal/scheduler/service.go:74-87 | enables the job with its next run, or writes nothing |
| JobService.Service.Update | internal/scheduler/service.go:104-127 | which answer each request gets; writes the patched configuration with defaults and keeps state and attempt columns; an unsupported path or an invalid result writes nothing |
| JobMasks.ApplyPatch | internal/scheduler/service.go:143-225 | a mask is accepted iff each of its paths, trimmed and in snake case, is one of the fifteen texts, and then each field is the patch's iff its own text or that of its section is named; without a mask each field is the patch's iff it is set; the first unknown path is reported |
| JobMasks.UpdateSelectsByText | internal/scheduler/service.go:143-223 | the same of what an update takes from its patch |
| JobMasks.SnakeAt | internal/scheduler/service.go:129-141 | snake keeps or lower-cases every character in its order, puts an underscore before each upper-case one but the first, and adds nothing else |
| JobMasks.TrimKeeps | internal/scheduler/service.go:188-189 | trimming takes off white space at both ends and nothing else |
| JobMasks.TrimmedEnds | internal/scheduler/service.go:188-189 | it leaves none there |
| JobMasks.DefaultsAre | internal/scheduler/model.go:161-184 | which fields ApplyDefaults fills with which values, and that it keeps the rest |
| JobMasks.LimitsAre | internal/scheduler/model.go:187-224 | between which limits each field of a valid configuration can be changed alone |
| JobMasks.StoringKeeps | internal/scheduler/repository.go:141-152 | storing truncates the four durations to whole milliseconds and keeps everything else |
| JobConfigs.MaskIsASet | internal/scheduler/service.go:187-223 | the outcome depends only on the set of normalised paths |
| JobConfigs.CoveredBySome | internal/scheduler/service.go:187-219 | a field is covered iff some path of the mask covers it |
| JobConfigs.SnakeIsIdempotent | internal/scheduler/service.go:129-141 | normalising a normalised path changes nothing |
| JobMasks.PrepareUpdate | internal/scheduler/service.go:109-115 | the configuration to write is valid and stable under storing, or nothing is written |
| JobConfigs.StoredStaysValid | internal/scheduler/repository.go:141-152 | a validated configuration still passes validation after truncation to milliseconds |
| JobConfigs.UncoveredNumberKept | internal/scheduler/model.go:161-184 | a numeric field that an update does not cover survives it iff it is not a stored zero that stands for a default |
| JobConfigs.UntouchedBackoffsInOrder | internal/scheduler/model.go:172-219 | when an update leaves both backoffs alone they pass validation iff it is not the case that the stored minimum is zero and the stored maximum is positive and below the 5 s default |
| JobConfigs.SubMillisecondBackoffBlocksUpdates | internal/scheduler/model.go:172-219 | so a job stored with a sub-millisecond minimum backoff and a small maximum rejects every update that leaves its backoffs alone |
| Timestamps.DueByText | internal/tasks/repository.go:11-16 | for years 0 to 9999, text order against the formatted clock holds iff the stored instant is at or before the clock truncated to milliseconds, for both layouts |
| Timestamps.RowOrder | internal/tasks/repository.go:11-16 | text order of stored rows is time order, with old rows first among equal instants |
| Timestamps.LayoutsAre | internal/tasks/repository.go:11-16 | the two layouts, piece by piece, in fixed-width decimals |
| Timestamps.DigitsDenote | internal/tasks/repository.go:16 | a fixed-width decimal denotes its number |
| Timestamps.DaysFollow | internal/tasks/repository.go:16 | the time line behind the order has no gaps: the next calendar day is 24 hours later |
| TaskCreation.Store.CreateTask | internal/grpcserver/server.go:224-344 | which answer each request gets; a request that fails changes neither table, the auto-created queue included; success adds one task and at most its queue |
| TaskCreation.CheckByParts | internal/grpcserver/server.go:224-300 | for a parent that names queue q of location l and project p: the request is refused iff task or url is missing, the url refused, the deadline not positive or the name neither empty nor a valid id nor one of the queue; otherwise the task goes to projects/p/locations/l/queues/q under the given or the generated name |
| TaskCreation.CheckRefuses | internal/grpcserver/server.go:61-67 | a request whose parent names no queue is refused |
| TaskCreation.IdsAre | internal/tasks/model.go:14-23 | short task ids are 1 to 500 letters, digits, hyphens and underscores, queue names up to 100 |
| TaskCreation.NameDeterminesQueue | internal/grpcserver/server.go:286-300 | a task name determines its queue and short id |
| TaskCreation.Store.DeleteQueue | internal/queues/repository.go:100-121 | removes the queue and all its tasks, or nothing, and keeps every task filed under an existing queue |
| TaskCreation.Store.CreateQueue | internal/queues/repository.go:37-64 | stored limits are at least 1, and a taken id changes nothing |
| Paging.PagesAreTheListing | internal/grpcserver/server.go:177-210 | following the page tokens from the start ends and yields the full listing, each task once, for every page size |
| Paging.PagesListTheQueue | internal/tasks/repository.go:117-128 | the rows of a queue have exactly one listing by creation time and row number, newest first; following the page tokens on an unchanged table yields it, each task of the queue exactly once and no other |
| Paging.TokenRoundTrip | internal/grpcserver/server.go:186-204 | a token handed out is read back as its offset |
| Paging.AtoiReads | internal/grpcserver/server.go:186-192 | a token of decimal digits, with or without a sign, is read as the number it denotes, if that is an int64 |
| Paging.AtoiReadsOnly | internal/grpcserver/server.go:186-192 | no other token is read |
| Paging.PageLength | internal/grpcserver/server.go:177-206 | a page has as many rows as are left, up to the size asked for (1000 if none, at most 1000), and a next token iff rows are left |
| Paging.RefusedExactly | internal/grpcserver/server.go:179-191 | a request is refused iff its page size is negative or its token is not a number from zero on |
| Scenarios.NameReuseDoublesRequests | internal/tasks/repository.go:185-199 | without the name proviso one name can have two requests out |
| Restarts.RestartHandsOutAnotherBucket | internal/worker/worker.go:113-117 | for every rate R there is a run with one restart and 2 R claims at one instant, where one process life allows R |
| Scenarios.LateWriteFiresTwice | internal/scheduler/service.go:104-126 | if the write half of an Update comes late, a job fires twice for one due time |

## Left out

- HTTP request building, headers, response bodies and error texts: an attempt is its status or code; `last_error` and the status text columns are not stored.
- SQLite itself: tables are maps, statements are atomic steps, and writes do not fail; the order in which a poll lists the queues is left open.
- Cron parsing, time zones and aliases: only the contract of `NextRun` is used; `@every` schedules are outside the fixed-instant refinement.
- Floating point: bucket tokens are reals.
- Backoffs.TaskBackoff: does not model overflow of the int doubling loop (backoff settings of 2^62 seconds or more), because no such setting is meaningful; nor, for the same reason, that of the delay when seconds are turned into a Go duration.
- REST, UI and proto conversions, configuration loading, tokens and logging: plumbing around the same operations.
- Non-ASCII text: case mapping, trimming and the description length count ASCII characters.
- Buckets are values in a map that is reassigned, so pointer sharing between the map and the poller's local bucket is not modelled.
- Fairness between queues is not promised by the source.
- Interleavings inside CreateTask and DeleteQueue: `TaskCreation.Store` runs each request as one step; a queue deleted between the lookup and the insert of another request can leave a task without a queue.

# Kindling: a verified model of its scheduler

Kindling runs scripts on cron and interval schedules. This project models, in Dafny, the parts of it
whose guarantees span whole histories, and proves those guarantees:

- **The life of a run** (`Lifecycle`, `Server`): the two tables and the background tasks in flight as one
  transition system. `Server.App` is the program in its own imperative form; each of its methods is proved
  to take exactly one kind of step (the tick: a whole history of steps). `RunRows`, `Wakeups`, `Overlap`,
  `QueueOrder`, `Retrying`, `FireLedger` and `Firing` prove what every history keeps,
  `Columns` says what each step writes on the columns of the tables themselves, and `Counterexamples` holds the histories in which something one might expect fails.
- **When a schedule fires** (`FireSearch`, `ScheduleService`, `NextRuns`, `Prediction`): the filtered search with
  its seven-day horizon, the stored cursor, the next-runs endpoint against the cursors that histories
  store, and the browser's preview.
- **Who may execute** (`ScriptLock`): the shared semaphore, then the lock of the script.
- **What a subscriber sees** (`LogStream`, `Executor`, `Json`, `Sse`): the log broker, the read loop that
  feeds it, and the event stream up to the browser's parser.
- **Order-preserving encodings** (`Positional`, `IsoTime`, `TextQueries`, `Ulid`) and the cron picker
  (`CustomPicker`).

## How to read it

- A *step* of `Lifecycle` is what the program does between two commits, and nothing else happens inside it.
  The source awaits between looking for an active run and inserting the new one
  (`src/kindling/scheduler/tick.py` lines 134 and 180, `src/kindling/api/runs.py` lines 177 and 181); the
  model takes each such pair as atomic. Ending a scheduled run and draining the queue are two commits
  (`tick.py` lines 355-364), so they are two steps, `Finish` and `DrainQueue`, and anything may come between
  them. Only `Overlap.OrderlyRunsOneAtATime` asks that no run of the same script starts in between.
- Exceptions that nobody catches are part of the model: computing the next attempt of a run may leave the
  range of datetime (`Lifecycle.Strands`), and computing a schedule's cursor may meet a malformed zone key or
  leave that range (`ScheduleService.CursorRaises`), which ends the whole tick.
- A move of `LogStream` is one call of the broker: between releasing its lock and filling the queues neither
  publish nor close awaits anything.
- A step carries one clock reading, `now`, no earlier than the previous step's. The source reads the clock
  several times in one tick; those readings are one here.
- `Calendar` stands for croniter and zoneinfo: for a well-formed expression a strictly increasing stream
  that yields the least of a fixed set of instants after a given one, and a fixed offset for each zone.
- Theorems over histories quantify over every `steps` with `Possible(cal, EMPTY, steps)`: all interleavings
  of schedule edits, ticks, retries, drains, manual triggers, cancels and ends of runs, of any length.
- Where something one would expect is false of the code, a lemma named `...ExactlyWhen` says for every step
  when it holds, and a concrete history is given where one is needed.

What the code does and one might not expect, each with its exact condition or a concrete history:

- A run queued behind a manual run can wait for good, because an API run never drains the queue
  (`Wakeups.WakeupLostExactlyWhen`, `Wakeups.ManualRunForgetsTheQueue`).
- A retry whose time would lie beyond year 9999 raises in its task: the row stays running with nothing
  executing it, its script stays active, and its queue is never drained (`RunRows.OneTaskExactlyWhen`,
  `RunRows.StrandedStep`, `Counterexamples.OverflowForgetsTheQueue`). The API puts no upper bound on
  `retry_backoff`; `Retrying.AffordableNeverOverflows` says which settings are safe.
- One due schedule with a malformed zone key ends every tick, so schedules behind it do not fire and no retry
  of any script starts (`Server.App.Tick`, `Counterexamples.BadZoneBlocksEveryRetry`).
- A cron schedule with no admissible fire in the next seven days keeps its cursor and still dispatches, at
  every tick (`ScheduleService.AdvancesExactlyWhen`, `Firing.StuckScheduleFiresForever`,
  `Counterexamples.MondaysNeverMove`). The comment at `tick.py` line 124 speaks only of re-evaluation.
- A cancelled row stays in flight and its own end overwrites the status, possibly with a retry; only a row
  whose end overflows stays cancelled (`RunRows.RowAfterStep`, `RunRows.NothingInFlight`).
- With end and drain interleaved with a tick, a drain may start a second run of a script
  (`Overlap.SecondRunExactlyWhen`, `Counterexamples.LateDrainStartsSecond`).
- The overlap policy counts pending rows per script, so the bound on a queue is the largest `queue_max` among
  the schedules of the script (`QueueOrder.QueueIsBounded`).
- The first cursor after a create or an update is computed in UTC without filters
  (`Firing.FreshCursorAdmissibleExactlyWhen`, `Counterexamples.FirstCursorIgnoresFilters`,
  `Counterexamples.FirstCursorIgnoresZone`).
- `run_script` turns its own exceptions into exit code -1, so subscribers are told "error" and the row says
  failure (`Executor.RunScript`); a channel that ended stays ended, so a retry's output reaches no
  subscriber (`LogStream.EndedForGood`), and a subscriber whose queue is full at the close never gets the end
  frame (`LogStream.EndArrivesExactlyWhen`, `LogStream.FullQueueMissesTheEnd`).
- The cron picker loses the frequency it is given, and a toggled day, when the expression was blank
  (`CustomPicker.FrequencyIsSetExactlyWhen`, `CustomPicker.ToggleTwiceExactlyWhen`).

Where the code and its own documentation disagree the model follows the code: `include_days` narrows the days
of the cron (`schedule_service.py` lines 75-76), although the docstring at line 43 says it overrides them.

## Model

| member | source | states |
|---|---|---|
| FireSearch.NextExists | src/kindling/services/schedule_service.py:67-81 | any admissible instant inside the horizon makes the search succeed, with a result no later than it |
| FireSearch.PassMeans | src/kindling/api/schedules.py:341-357 | one pass over a set of instants is exactly the list of its first members: in order, none left out |
| FireSearch.PassUnique | frontend/src/components/schedules/ScheduleForm.tsx:45-65 | two passes from the same point agree as far as both reach |
| FireSearch.CursorsAreFirst | src/kindling/api/schedules.py:341-357 | restarting the search from each fire gives one pass over the admissible fires |
| FireSearch.OnePassEqualsRestarts | src/kindling/api/schedules.py:341-357 | a pass of any length is found by restarts exactly when none of its gaps exceeds seven days; otherwise the restarts fail |
| FireSearch.CursorsSteady | src/kindling/api/schedules.py:342-357 | started anywhere inside the first gap, the repeated search lists the same fires |
| FireSearch.CursorsFailWhenStalled | src/kindling/scheduler/tick.py:110-131 | the repeated search fails exactly when one of the stored cursors does not move |
| ScheduleService.ComputeNextRun | src/kindling/services/schedule_service.py:29-81 | the loop ends with a cron fire of the wall clock of the zone (UTC if none is named) strictly after `after`, at most 7 * 86 400 seconds on, whose weekday is included and whose date is not blacked out, every fire in between failing one of the two; it raises exactly when there is none, and an unknown zone, a malformed zone key and a bad cron are told apart |
| ScheduleService.NextRunMeans | src/kindling/services/schedule_service.py:59-81 | the same of the search that all other results speak of |
| ScheduleService.NextRunExactlyWhen | src/kindling/services/schedule_service.py:59-81 | the search has a result if and only if some admissible fire lies in the horizon |
| ScheduleService.NextIsFire | src/kindling/services/schedule_service.py:67-69 | what the iterator yields next is later than where it stands and is a fire of the expression |
| ScheduleService.AdvancesExactlyWhen | src/kindling/scheduler/tick.py:110-131 | the cursor moves forward at a fire if and only if the interval is positive or the cron has an admissible fire in seven days; otherwise a cron cursor stays where it is |
| ScheduleService.ComputeCursor | src/kindling/scheduler/tick.py:110-130 | the cursor the tick computes: the next admissible fire, the old cursor when there is none, or one period on; an exception exactly for a malformed zone key or a period that leaves the range of datetime |
| ScheduleService.CronCursorsAre | src/kindling/scheduler/tick.py:110-131 | for each answer of compute_next_run: its result is the new cursor, any ComputeError keeps the old one, and only a ValueError goes through |
| ScheduleService.IntervalsAre | src/kindling/services/schedule_service.py:89-93 | n seconds, minutes, hours or days on, in microseconds, both at a create or update and at a fire; an exception exactly outside the range of datetime |
| NextRuns.NextRunsEndpoint | src/kindling/api/schedules.py:341-357 | the loop returns the repeated search of that length, and refuses the whole request exactly when one search fails |
| NextRuns.ListingIsStored | src/kindling/api/schedules.py:341-357 | asked between a cursor and its successor, the repeated search lists the iterates of the cursor computation, and fails exactly when one of them stands still |
| Prediction.CursorFollowsFires | src/kindling/scheduler/tick.py:110-132 | in every history that neither edits nor deletes the schedule, its cursor is the computation iterated once per fire |
| Prediction.EndpointPredictsScheduler | src/kindling/api/schedules.py:341-357 | asked while a schedule is due, entry i of the answer is the cursor that the i-th fire stores, in every such history; the endpoint answers for k fires if and only if the cursor still moves at the k-th |
| Prediction.EndpointPredictsPending | src/kindling/api/schedules.py:341-357 | asked while the cursor lies in the future, the answer starts with the stored cursor if and only if that is what the search finds, and then entry i is the cursor after i fires |
| Prediction.FiredCursorIsFound | src/kindling/scheduler/tick.py:110-132 | a cursor stored by a fire is what the search finds from any moment until then |
| Prediction.FreshCursorFoundExactlyWhen | src/kindling/api/schedules.py:202-230 | for a schedule in UTC the cursor a create or update wrote is what the search finds if and only if the filters pass it and it is at most seven days away |
| NextRuns.PreviewNextRuns | frontend/src/components/schedules/ScheduleForm.tsx:45-65 | the bounded loop returns a pass over the admissible fires that misses none up to where it stopped, full or after 500 candidates; or nothing, when the stream ends |
| NextRuns.PreviewMirrorsServer | frontend/src/components/schedules/ScheduleForm.tsx:45-65 | whenever the server answers, the preview is a prefix of its answer, and equal to it when the preview is full |
| RunRows.EveryReachableState | src/kindling/scheduler/tick.py:134-236 | in every reachable state a running or cancelled row has at most one task executing it and every other row none; ended_at and exit_code are set exactly for success, failure, error and skipped; success holds exactly when the exit code is 0 |
| RunRows.OneTaskExactlyWhen | src/kindling/services/run_service.py:174-177 | in every reachable state a running or cancelled row has exactly one task executing it if and only if computing its next attempt never overflowed; otherwise none |
| RunRows.StrandedStep | src/kindling/scheduler/tick.py:345-351 | over every step, a row is left without a task if and only if it was, or its own end overflows |
| RunRows.StepKeeps | src/kindling/scheduler/tick.py:297-379 | each single step, cancels included, keeps that correspondence |
| RunRows.RowAfterStep | src/kindling/scheduler/tick.py:204-379 | every change a step can make to an existing row, by the row's status: cancel, end and retry for a row in flight, start for a waiting row, nothing else |
| RunRows.EndedRowsNeverChange | src/kindling/services/run_service.py:149-158 | a success, failure, error or skipped row is the same after any history, except that deleting its schedule detaches it |
| RunRows.NothingInFlight | src/kindling/api/runs.py:351-363 | once nothing is in flight a row says running or cancelled if and only if its end overflowed |
| RunRows.WaitsAfter | src/kindling/services/run_service.py:93-119 | who waits after a step: whoever did, plus the run a fire queued, minus the run a drain started |
| Wakeups.NoLostWakeup | src/kindling/scheduler/tick.py:355-379 | in every reachable state a queued run of a script that was never triggered by hand, and none of whose ends overflowed, has a scheduler task or a retry of that script to drain it |
| Wakeups.WakeupLostExactlyWhen | src/kindling/scheduler/tick.py:148-177 | a step loses the wake-up if and only if it queues a run while no scheduler task or retry of the script exists, or its overflow removes the last one while runs wait |
| Wakeups.ManualRunForgetsTheQueue | src/kindling/api/runs.py:246-278 | a history with a manual run after which a run is queued, nothing is in flight and no internal step is possible |
| Counterexamples.OverflowForgetsTheQueue | src/kindling/services/run_service.py:174-177 | retry_max 1 and retry_backoff 300000000000: a history without any trigger after which one run is running with no task, another is queued, and nothing is possible |
| Counterexamples.StrandedForGood | src/kindling/scheduler/tick.py:345-379 | a row without a task stays so in every continuation |
| Counterexamples.BadZoneBlocksEveryRetry | src/kindling/services/schedule_service.py:49-52 | a history after which a retry is due and nothing runs, but every tick raises at the zone key "/x" of another schedule |
| Counterexamples.LateDrainStartsSecond | src/kindling/scheduler/tick.py:355-379 | a history without trigger, cancel or parallel schedule after which two runs of one script are running |
| Counterexamples.MondaysNeverMove | src/kindling/scheduler/tick.py:123-131 | cron "0 0 * * 1" with include_days Saturday: from the first Monday, any number of fires at one instant, all for the same cursor |
| Counterexamples.FirstCursorIgnoresFilters | src/kindling/api/schedules.py:202-203 | the first cursor of that schedule is an instant its filters reject |
| Counterexamples.FirstCursorIgnoresZone | src/kindling/api/schedules.py:202-203 | an hourly cron in a zone half an hour off: its first cursor is no fire of that zone |
| Wakeups.InternalStepLowersRank | src/kindling/scheduler/tick.py:204-379 | each finish, retry and drain strictly lowers a rank of the state |
| Wakeups.InternalRunsAreFinite | src/kindling/scheduler/tick.py:204-379 | with no new fires, triggers, cancels or edits, no sequence of internal steps is longer than the rank it starts from |
| Wakeups.OnlyStopsTerminal | src/kindling/services/run_service.py:100-146 | while a row is not terminal some internal step is possible, now or when its time has come, unless an end of its script overflowed or a schedule makes the tick raise |
| Wakeups.Quiescence | src/kindling/scheduler/tick.py:204-379 | after any history, left to itself, the system stops within the rank, and then every row is terminal whose script was never triggered by hand and had no overflow, if no enabled schedule makes the tick raise |
| Wakeups.OldestPending | src/kindling/services/run_service.py:100-119 | while runs wait there is one the promotion may select |
| Overlap.SecondRunExactlyWhen | src/kindling/scheduler/tick.py:134-182 | a step takes a script from at most one running run to two if and only if it is a parallel fire or a drain while one is running |
| Overlap.OrderlyRunsOneAtATime | src/kindling/scheduler/tick.py:134-216 | with no run of the script started between an end and its drain, no parallel schedule on it and none of its runs cancelled, at most one of its runs is running in every reachable state, whatever other scripts do |
| QueueOrder.QueueGrows | src/kindling/scheduler/tick.py:148-177 | a step lengthens a queue by at most one, and only by a fire that queues |
| QueueOrder.QueueIsBounded | src/kindling/scheduler/tick.py:148-177 | in every history the pending runs of a script never exceed the largest queue_max its schedules fired with |
| QueueOrder.NeverMoreThanHundredWait | src/kindling/api/schedules.py:49 | whatever is created, edited or deleted, never more than 100 runs of a script wait |
| QueueOrder.FirstInFirstOut | src/kindling/services/run_service.py:100-119 | with no two queued at one instant, the runs promoted so far followed by those waiting are exactly the runs ever queued, in order |
| QueueOrder.StrictClockHasNoTies | src/kindling/services/run_service.py:39-73 | in every history whose fires read strictly later clocks, no two runs are queued at one instant |
| QueueOrder.FifoUnderStrictClock | src/kindling/services/run_service.py:100-119 | in every such history the k-th run promoted is the k-th run queued |
| Retrying.AttemptCountsExecutions | src/kindling/services/run_service.py:161-187 | over any history a run has been started once per attempt behind it, and once more if its current attempt has begun |
| Retrying.BackoffOverHistory | src/kindling/services/run_service.py:122-187 | while the retry settings of a schedule stay within bounds: attempt at most retry_max, at most retry_max + 1 executions, and attempt k executing no earlier than started_at + backoff * (2^k - 1) |
| Retrying.FailedRunsUsedEveryAttempt | src/kindling/scheduler/tick.py:328-355 | over any history in which a schedule keeps its retry_max, a run of it that says failure has retry_max attempts behind it and was executed retry_max + 1 times |
| Retrying.AffordableNeverOverflows | src/kindling/services/run_service.py:174-177 | while every schedule with retries satisfies until + backoff * 2^(retry_max - 1) within datetime, and no step is later than `until`, no end of a run ever overflows |
| FireLedger.RowsAreFires | src/kindling/scheduler/tick.py:131-182 | the rows carrying a schedule's id are exactly the rows its fires made, one each, and keep saying what became of the fire |
| FireLedger.FiresPartition | src/kindling/scheduler/tick.py:134-180 | each fire is exactly one of dispatched, queued, skipped for overlap, skipped for a full queue |
| FireLedger.DroppedCountsFires | src/kindling/scheduler/tick.py:159-165 | queue_dropped is the number of fires that found the queue full |
| FireLedger.LedgerBalances | src/kindling/scheduler/tick.py:131-182 | the four counts add up to the fires; the rows without a skip reason are as many as the dispatched and queued, those with one as many as the skipped of that kind; queue_dropped is the last count; for every history that does not delete the schedule |
| Firing.OccurrencesNeverRepeat | src/kindling/scheduler/tick.py:110-132 | while the next fire can be computed and intervals are positive, the cursor values at which a schedule fires are strictly increasing, even across edits |
| Firing.StuckScheduleFiresForever | src/kindling/scheduler/tick.py:123-131 | a due cron schedule whose computation fails with a ComputeError can fire any number of times at one instant, with the same cursor |
| Firing.DisabledNeverFires | src/kindling/api/schedules.py:283-306 | a disabled schedule does not fire, whatever happens, until it is enabled or edited |
| Firing.CronCursorIsAdmissible | src/kindling/scheduler/tick.py:110-132 | before its first fire a cron schedule stands at the cursor the last create or update wrote; after it, while its cursor moved at the fires since that edit, at an instant its zone and filters admit |
| Firing.LaterFiresAreAdmissible | src/kindling/scheduler/tick.py:110-132 | every cron fire after the first since a create or update is at an instant the zone and filters admit, if the cursor moved at the fires since that edit |
| Firing.FreshCursorAdmissibleExactlyWhen | src/kindling/api/schedules.py:202-230 | a create or update writes the plain next fire, which is admissible if and only if the zone is known, the cron fires at it in the wall clock of the zone, and the filters pass there; in UTC, or where the zone does not shift the fires, if and only if the filters pass |
| Firing.AlwaysOnGrid | src/kindling/services/schedule_service.py:89-93 | an interval schedule stands exactly its number of fires since the last edit, in periods, from the edit's cursor, and no fire was early |
| Firing.IntervalsDoNotDrift | src/kindling/services/schedule_service.py:89-93 | an interval of n units, d microseconds long: after k fires since the last edit the cursor is first + k * d, and k is at most floor((T - first) / d) + 1 |
| Firing.GapIsCaughtUp | src/kindling/scheduler/tick.py:99-132 | each fire of an interval schedule lowers its backlog by exactly one, and it is due exactly while the backlog is positive |
| Columns.FireDoes | src/kindling/scheduler/tick.py:134-202 | while a run of the script is running, policy skip leaves a skipped/overlap row that ended at once, queue a pending row below queue_max and otherwise a skipped/queue_full row and one more in queue_dropped; in every other case the row runs and has a task; nothing else changes but the cursor |
| Columns.FinishRetries | src/kindling/services/run_service.py:161-187 | a failure with attempts left makes the row pending_retry, attempt + 1, next_attempt_at exactly backoff * 2^attempt seconds from now; beyond the range of datetime the row stays; the task is over and drains nothing |
| Columns.FinishEnds | src/kindling/scheduler/tick.py:318-356 | otherwise the row ends now: success with 0, failure with the exit code, error with -1 if run_script raised; a scheduled run goes on to drain, a manual one does not |
| Columns.EndedWhenItEnded | src/kindling/services/run_service.py:149-158 | in every reachable state ended_at is the clock of the step at which the row ended, and null if it has not |
| Columns.PickRetryDoes | src/kindling/scheduler/tick.py:204-236 | a retry starts if and only if its row is pending_retry, its time has come and no row of its script is running; then only its status changes |
| Columns.DrainDoes | src/kindling/scheduler/tick.py:357-379 | a drain starts the pending row of its script with the least started_at, or nothing if none is pending |
| Columns.TriggerDoes | src/kindling/api/runs.py:165-212 | a trigger adds a running row without a schedule, and nothing if some row of the script is running |
| Columns.CancelDoes | src/kindling/api/runs.py:351-363 | a cancel writes the status of a running row, and nothing else |
| Columns.EditDoes | src/kindling/api/schedules.py:196-306 | create, update, enable, disable and delete: which columns they write and which they keep, the drop counter and the cursor among them |
| Server.App.CreateRun | src/kindling/services/run_service.py:39-73 | adds one row and changes nothing else; in a reachable state its id is new |
| Server.App.HasActiveRun | src/kindling/services/run_service.py:76-79 | scanning the rows stops with true exactly when some row of the script is running |
| Server.App.CountPending | src/kindling/services/run_service.py:93-97 | scanning the rows counts each pending row of the script once |
| Server.App.PromoteOldestPending | src/kindling/services/run_service.py:100-119 | turns one pending row that started no later than any other to running; nothing when none waits |
| Server.App.FinalizeRun | src/kindling/services/run_service.py:149-158 | writes status, exit code and end time of that row only |
| Server.App.MarkPendingRetry | src/kindling/services/run_service.py:161-187 | schedules attempt + 1 after backoff * 2^attempt seconds if and only if attempts remain and that instant is in the range of datetime; beyond it, an exception and nothing written |
| Server.App.ApplyPolicy | src/kindling/scheduler/tick.py:134-202 | one row with the outcome the policy prescribes, a task exactly when it is dispatched, the drop counter exactly when the queue is full |
| Server.App.FireSchedule | src/kindling/scheduler/tick.py:100-202 | one Fire step, the cursor advanced first whatever becomes of the fire; nothing at all if computing the cursor raises |
| Server.App.StartRetry | src/kindling/scheduler/tick.py:206-236 | one PickRetry step exactly when no run of the script is active, otherwise nothing |
| Server.App.FireDueSchedules | src/kindling/scheduler/tick.py:97-202 | fires each due schedule exactly once if and only if none of them raises; otherwise ends early, having fired some of them once each |
| Server.App.StartDueRetries | src/kindling/scheduler/tick.py:204-236 | a history of retry steps after which the script of every due retry has an active run |
| Server.App.Tick | src/kindling/scheduler/tick.py:97-236 | a tick is a possible history: the due schedules once each, then retries; it ends early, and without retries, if and only if some due schedule raises |
| Server.App.ExecuteAndFinalize | src/kindling/scheduler/tick.py:308-356 | one Finish step of a scheduled run: retry, or end and go on to drain, or lose the task to the overflow |
| Server.App.RetryFailedRun | src/kindling/scheduler/tick.py:345-354 | the task is over exactly when attempts remain, with the retry written or, on overflow, nothing |
| Server.App.DrainAfter | src/kindling/scheduler/tick.py:357-379 | one DrainQueue step |
| Server.App.TriggerRun | src/kindling/api/runs.py:165-212 | refused exactly when a run of the script is active, otherwise one Trigger step |
| Server.App.ExecuteAndFinalizeManual | src/kindling/api/runs.py:246-278 | one Finish step of a manual run: no retry, no drain |
| Server.App.CancelRun | src/kindling/api/runs.py:336-363 | one Cancel step: only a running row changes, and only its status |
| Server.App.StatusAndCode | src/kindling/scheduler/tick.py:318-326 | status and exit code of an outcome; success exactly for exit code 0 |
| Server.App.CreateNewSchedule | src/kindling/api/schedules.py:196-220 | one CreateSchedule step, exactly when the first cursor can be computed |
| Server.App.EditSchedule | src/kindling/api/schedules.py:223-254 | one UpdateSchedule step, exactly when the schedule exists and the new cursor can be computed |
| Server.App.EnableSchedule | src/kindling/api/schedules.py:290-306 | one SetEnabled step for a schedule that exists; its cursor is kept |
| Server.App.RemoveSchedule | src/kindling/api/schedules.py:257-273 | one DeleteSchedule step for a schedule that exists |
| ScriptLock.EveryReachableGate | src/kindling/runner/executor.py:61-62 | permits and holders add up to the limit, and a job executes exactly while it holds its own script's lock |
| ScriptLock.MutualExclusion | src/kindling/runner/lock.py:22-37 | in every reachable state at most one job per script and at most `concurrency` jobs overall execute |
| ScriptLock.NoDeadlockExactlyWhen | src/kindling/runner/executor.py:61-62 | permit before lock: while a job is unfinished some job can go on, if and only if there are permits at all |
| ScriptLock.MovesAreCounted | src/kindling/runner/executor.py:61-62 | each move takes exactly one off the number of moves left, so without arrivals every order of moves ends |
| ScriptLock.NothingLeft | src/kindling/runner/executor.py:61-62 | with no moves left every job is done |
| ScriptLock.Runner.GetLock | src/kindling/runner/lock.py:13-19 | one lock object per script, made on first use, kept for good and shared with no other script |
| ScriptLock.Runner.TakePermit | src/kindling/runner/executor.py:61 | a job takes a permit and finds its script's lock in the table |
| ScriptLock.Runner.TakeLock | src/kindling/runner/lock.py:30-33 | a job takes its script's free lock object and executes |
| ScriptLock.Runner.Leave | src/kindling/runner/lock.py:34-37 | a job gives back its lock and its permit |
| LogStream.EveryReachableStream | src/kindling/services/log_broker.py:37-91 | for every subscriber over every interleaving: frames are conserved, queues hold at most 1024, and the lines offered are a gapless stretch of what was sent |
| LogStream.EverySubscriber | src/kindling/services/log_broker.py:37-91 | delivered plus queued is an in-order subsequence of what was published since it joined; published = delivered + queued + dropped + left behind; at most one end frame, and no frame after it |
| LogStream.DropsExactlyWhenFull | src/kindling/services/log_broker.py:68-91 | a frame is dropped exactly when an open channel offers it to a queue that holds 1024 |
| LogStream.EndArrivesExactlyWhen | src/kindling/services/log_broker.py:74-91 | over every history, a subscriber present at the close that does not leave has the end frame among what it got or has queued if and only if its queue held fewer than 1024 frames then |
| LogStream.FullQueueMissesTheEnd | src/kindling/services/log_broker.py:87-91 | 1024 unread lines and a close: in every continuation the end frame is not among what the subscriber gets |
| LogStream.EndedForGood | src/kindling/services/log_broker.py:37-91 | once a channel has ended, in every continuation it keeps that end frame, offers its subscribers nothing more, and replays it alone to whoever joins |
| Executor.LogBroker.Subscribe | src/kindling/services/log_broker.py:37-49 | a new empty queue, or the end frame replayed when the channel has ended |
| Executor.LogBroker.Publish | src/kindling/services/log_broker.py:61-72 | one Publish move of that run's stream; other runs are untouched |
| Executor.LogBroker.Close | src/kindling/services/log_broker.py:74-91 | one Close move; the channel has ended afterwards, with the first end it was given |
| Executor.LogBroker.PutAllQueues | src/kindling/services/log_broker.py:68-72 | every queue takes the frame except those that are full |
| Executor.LogBroker.Unsubscribe | src/kindling/services/log_broker.py:57-59 | removes that queue and nothing else |
| Executor.StreamOutput | src/kindling/runner/executor.py:118-128 | the log is the chunks before the first empty one, joined, and each is published with the offset of its first byte |
| Executor.RunScript | src/kindling/runner/executor.py:63-141 | the channel is closed on every path: with "success" and 0, with "failure" and the exit code, or after an exception with "error" and -1, which is also returned |
| Executor.ChunkInLog | src/kindling/runner/executor.py:118-128 | at its offset the log holds exactly the chunk |
| Executor.NothingLost | src/kindling/services/log_broker.py:61-91 | a subscriber that lost nothing has a contiguous stretch of the lines passed on, up to the last if it stayed |
| Executor.OffsetsTileTheLog | src/kindling/runner/executor.py:118-128 | over every interleaving in which the channel passed on some beginning of the output of an attempt, line i of a subscriber that lost nothing carries chunk joined + i, with the offset at which that chunk stands in the log of the whole attempt; the next line starts where it ends |
| Executor.AttemptPassesOn | src/kindling/runner/executor.py:118-141 | so it is for an attempt that handed over any beginning of its output, whoever closed the channel and when |
| Executor.LaterAttemptsPassNothing | src/kindling/runner/executor.py:118-141 | and so it stays whatever later attempts hand over |
| Json.EscapePrintable | src/kindling/services/log_broker.py:13 | whatever the text, its JSON form contains no line break |
| Json.StringRoundTrip | src/kindling/services/log_broker.py:13 | a browser reads back from the JSON form exactly the text that was encoded |
| Json.ShortEscapesAre | src/kindling/services/log_broker.py:13 | which characters have a short escape, and which |
| Json.UnitEscapeIs | src/kindling/services/log_broker.py:13 | every other one is four hexadecimal digits, the most significant first |
| Json.NumberRoundTrip | src/kindling/services/log_broker.py:13 | an exact reader reads back the integer that was written |
| Sse.StreamRoundTrip | src/kindling/services/log_broker.py:9-18 | any concatenation of line, end and heartbeat frames parses under section 9.2.6 of the WHATWG HTML Standard to exactly the line and end events, in order |
| Sse.FrameReads | src/kindling/services/log_broker.py:9-14 | the data of an event reads back as the frame: offset and text, or status and exit code |
| Sse.StreamRecovered | src/kindling/services/log_broker.py:9-18 | end to end, the browser recovers exactly the frames sent, in order, whatever they contain |
| Sse.FrameLooksLike | src/kindling/services/log_broker.py:9-18 | a frame and a heartbeat as they are written |
| Sse.LineLooksLike | src/kindling/services/log_broker.py:67 | a line event as it is written |
| Sse.EndLooksLike | src/kindling/services/log_broker.py:86 | an end event as it is written |
| Positional.DigitsRoundTrip | src/kindling/services/run_service.py:24-36 | what fits in k digits of an alphabet reads back exactly |
| Positional.DigitsOrder | src/kindling/services/run_service.py:24-36 | numbers of one width compare as text exactly as they compare as numbers |
| Ulid.Fill | src/kindling/services/run_service.py:27-35 | the division loop leaves the base-32 digits of the number in the array, and nothing of the number over |
| Ulid.NewUlid | src/kindling/services/run_service.py:15-36 | 26 characters that decode to the 48 low bits of the clock and to the ten random bytes |
| Ulid.DecodesToItsParts | src/kindling/services/run_service.py:24-36 | decoding the 26 characters recovers time and randomness |
| Ulid.EqualOnlyForEqualParts | src/kindling/services/run_service.py:24-36 | two identifiers are equal exactly for the same millisecond and the same ten bytes |
| Ulid.SortsByTimeThenRandom | src/kindling/services/run_service.py:18-19 | identifiers sort as text by time, then by the random part |
| Ulid.SortsByClock | src/kindling/services/run_service.py:25 | of two clock readings below 2^48 milliseconds, the earlier makes the identifier that sorts first, whatever the random bytes |
| Ulid.BigEndian | src/kindling/services/run_service.py:31 | the random bytes count most significant first |
| Ulid.CrockfordIs | src/kindling/services/run_service.py:24 | the alphabet is the digits and capitals without I, L, O and U |
| IsoTime.TextOrderIsTimeOrder | src/kindling/services/run_service.py:59 | two UTC isoformat texts, with or without a fraction, compare and equal each other exactly as their instants do |
| IsoTime.RepresentableExactlyWhen | src/kindling/services/run_service.py:177 | an instant has a datetime if and only if it is in the range beyond which the model lets datetime arithmetic raise |
| IsoTime.LeapDayReads | src/kindling/services/run_service.py:59 | 29 February 2024, 12:05:09 reads 2024-02-29T12:05:09+00:00 |
| IsoTime.LeapDayIs | src/kindling/services/run_service.py:59 | and is 1 709 208 309 seconds after the epoch |
| TextQueries.DueByText | src/kindling/services/schedule_service.py:97-110 | the text comparison selects exactly the schedules due by the clock |
| TextQueries.RetriesByText | src/kindling/services/run_service.py:122-146 | the text comparison selects exactly the retries due by the clock; a null is never due |
| TextQueries.OldestByText | src/kindling/services/run_service.py:100-119 | ordering by the text of started_at selects exactly a row that started first |
| CustomPicker.FrequencyIsSetExactlyWhen | frontend/src/components/schedules/CustomPicker.tsx:92-99 | the frequency read back is the one set, if and only if the expression was not blank or the frequency needs no hour |
| CustomPicker.ToggleFlipsExactlyWhen | frontend/src/components/schedules/CustomPicker.tsx:111-118 | toggling flips that day and keeps the others, if and only if the expression was not blank |
| CustomPicker.ToggleTwiceExactlyWhen | frontend/src/components/schedules/CustomPicker.tsx:111-118 | toggling a day twice restores the days, if and only if the expression was not blank |
| CustomPicker.ParseOfPrint | frontend/src/components/schedules/CustomPicker.tsx:35-39 | five fields printed with spaces parse back to the same five fields |
| CustomPicker.SetFrequencyWrites | frontend/src/components/schedules/CustomPicker.tsx:92-99 | setFrequency replaces only what the frequency governs: minute, hour, day of month, month and selected days are kept where it needs them, with "0", "9" and Monday where there were none |
| CustomPicker.ToggleDayKeeps | frontend/src/components/schedules/CustomPicker.tsx:111-118 | toggling keeps day of month, month and time of day |
| CustomPicker.RangeSelects | frontend/src/components/schedules/CustomPicker.tsx:50-66 | a range selects every day from its first to its last, alone or before other parts, in ascending order |

## Left out

- Interleavings inside a step: the awaits between looking for an active run and inserting a row, an edit of a schedule between list_due and its fire, and a database error while promoting (`tick.py` line 365).
- Server.App.CancelRun: does not model that the row is read in one session (`runs.py` lines 346-350) and written by id in another (357-362); a run that ends in between is overwritten with `cancelled`, its end time kept and no task left. Nor the signal to the process or the close of its channel; the close is a Close move of `LogStream`, which may come at any time.
- Other exceptions nobody catches: a search whose seven-day horizon passes the end of year 9999, and operating system errors behind an unusual zone key, which a `badKey` may stand for.
- Crash and restart: rows left running have no recovery code, so nothing is claimed about them. The `fcntl.flock` layer between processes.
- Fairness: nothing says when a possible step is taken, and a retry step is possible in `Lifecycle` even while some schedule would end the tick; `Wakeups.CanGoOn` and `Server.App.Tick` say when a tick gets that far. The slow-client stall of `subscribe`, which replays an end frame while holding the broker lock, is a liveness matter and not covered.
- croniter, cron-parser, zoneinfo: a lawful `Calendar`. Daylight-saving gaps and folds (every zone has a fixed offset), and any disagreement between the server's and the browser's cron library.
- ScheduleService.AdvanceNextRun: takes the interval's count and unit as parsed, so the text of an interval expression and its parse errors are not covered; positivity is not checked by the source either, and is a hypothesis exactly where it is needed.
- The join of schedules and runs with scripts, and the deletion of scripts; the SQL engine, sessions and ORM (a table is a map, a query a filter).
- Log retention and `last_gc_at` (`tick.py` lines 238-251), statistics, backup and migration.
- The subprocess, provisioning, environments and the sandbox: a process is any sequence of chunks and an exit code. The sandboxed path publishes no chunks.
- Executor.StreamOutput: takes decoding as an arbitrary function from a chunk to a text, and the log as the bytes written so far.
- HTTP plumbing, ownership checks, passwords, tokens, invites and encryption: wrappers over libraries or facts about one branch.
- Parsing of stored JSON columns (`blackout_dates`, `include_days`), and the validators of dates, days and policies; the policy is one of three values here.
- QueueOrder.StrictClockHasNoTies: the two schedules of one script that fire in the same tick share its one clock reading here; the source reads the clock again for each row.
- Ulid.NewUlid: the clock reading and the random bytes are parameters.
- IsoTime.TextOrderIsTimeOrder: covers what UTC datetimes produce (years 1 to 9999); reading a timestamp back is not modelled.
- Json.NumberRoundTrip: the reader is exact, as a browser's is up to 2^53; a log offset or exit code beyond that would be rounded there.
- Json.StringRoundTrip: characters are Unicode scalar values, which is what a decoded chunk consists of.
- CustomPicker.ToggleTwiceExactlyWhen: a day-list part that is not digits, a one-digit range or empty counts as no number; signs, fractions, exponents and hexadecimal, which JavaScript's Number also reads, are not modelled. setTime, setMinuteOnly, rendering and the presets are left out.

# ErminetQ in Dafny

A model of ErminetQ's engine, and proofs about it. The engine is a task store whose four tables (tasks, attempts,
workers, task_events) are changed only by transactions, and the parts around it: the single-writer goroutine, the
worker pool, the interval scheduler, the SSE broker, the DATETIME text encoding and the migration runner.
`dafny verify dfyconfig.toml` checks everything.

## How the store is modelled

- `Rows`, `Config`: the rows, the database value, the configured limits.
- `Transitions`: what each transaction does, as functions on database values (`ClaimTx`, `ResolveTx`, ...), one
  `Op` for each transaction, and `Trace`, the sequence of transactions that the writer goroutine executed.
  `Exec` is the database after a trace, `Legal` says that every claim chose what ClaimTask chooses and that new
  ids are fresh.
- `TaskStore.Store`: the tables as fields, one method for each transaction, with the loops that the Go code or its
  SQL performs. `Ran(op)` in a method's contract says that the fields hold exactly `Exec` of the old history
  extended by `op`: the whole new state, of every table. `Valid()` is `Legal(history)` and `Exec(history)` equal to
  the fields, so every theorem about all legal traces is a theorem about all states of a store, whatever was
  called in whatever order; `Guarantees` writes that out.
- `Ledger`: what the columns say about the run that wrote them (limits, claims, results, heartbeats), in terms of
  column values and configuration entries only.
- `Lanes`: the abstraction used for counting. Seen from one task every transaction is a move of a small automaton
  over (status, retry count, retry budget, running attempts, attempts made); `LaneStep` is the refinement proof.

An attempt is *orphaned* by ResumeTask, by CancelTask on a halted task and by RestartTask on a halted task: the
task moves on while its attempt keeps running. Properties that this can break are stated with the number of
orphanings of the task, or for runs without them. `ExclusiveExactly` shows that these calls, and no others, break
"one live attempt while running or halted, none otherwise"; `TwoLiveAttempts` is a run in which that happens;
`SupersededAbsorbsExactly` gives the condition for a superseded task. `StandingCount` holds in all runs; the other
lineage results, about restart children and chains, are proved for runs without orphanings only.

Assumptions, stated as hypotheses where they are used: transaction bodies are atomic, one configuration for a run,
NewID returns fresh ids, and, for `Spacing` and `Schedules` only, a clock that does not run backwards. Times are
whole seconds, which is what the columns hold; `TimeText` proves that comparing the column texts is comparing
those seconds.

The concurrent parts (`Writer`, `Pool`, `Schedules`, `Broker`) are step machines: a run is any interleaving of the
moves of all goroutines, one channel operation or store call at a time, and a move that is not possible where it
stands changes nothing. `Runner`, `Scheduler` and `Broker.Broker` are the same code as one goroutine executes it, the
first two on a `TaskStore.Store`. `StoreWriter` puts the store's transactions into the single-writer protocol: the
database it leaves is `Exec` of the executed requests, in dequeue order.

`Witnesses` holds concrete runs that show that the bounds are met: every edge between statuses is taken.

## Where the code differs from its documentation

- docs/DESIGN.md section 8 draws a state machine. `DocumentedExactly`: in every run a transaction keeps to it exactly
  if it is not an outcome that strays, not a RetryTask that takes effect, and not a CancelTask on a queued task; an
  outcome strays when it is reported for a task that is not running and changes its status, except for cancelling a
  halted one. Without orphanings that leaves six edges off the diagram: halted to succeeded, retrying and dead, dead
  and cancelled to queued, and queued to cancelled. `EveryEdgeOccurs`: each of the six is taken. After an orphaning
  late outcomes take further ones, such as cancelled to retrying.
- The same section says that a cancelled task will not run again. RetryTask queues it again, and that is not the only
  way. `CancelledExactly`: without RetryTask no continuation queues it exactly if none of its attempts is still running
  or its retries are used up. `CancelledRunsAgain`: cancelled after a halt, it is sent to retrying by the late failure
  of its attempt, promoted, and claimed. The section also sends a task with a non-retryable error to dead; the code
  knows no such errors.
- The comment on computeNextRun promises a time strictly after `after`. For intervals that holds exactly if last_run_at
  (or `after`, before the first run) plus the interval is after it (`NextIsAfterExactly`; `NextCanHavePassed` is an input
  that fails). `FullIntervalExactly` says when the next fire is a full interval away, and
  `ConsecutiveFiresCanCoincide` shows a run in which it is not.
- The comment on ClaimTask leaves the worker's spare capacity to the caller; `CapacityKept` proves that the pool
  keeps within it.
- Migrate is described as safe to call again. `SafeToRepeatExactly`: for scripts that run through, taken once each in
  order from the schema at hand, it is, exactly if no version that is not recorded yet occurs twice among the files;
  `SameVersionTwiceDoesNotResume` is the smallest input that fails. Scripts that were migrated successfully once do
  run through (`SuccessRunsThrough`), CREATE TABLE included.

## Model

| member | source | states |
|---|---|---|
| Config.Validate | internal/config/config.go:165-180 | no complaint exactly for a global limit of at least 1 and limits that are not negative; a complaint names an entry that is really negative |
| Backoff.RetryBackoff | internal/store/attempts.go:30-43 | for every integer the clamped shift gives min(30 * 2^max(n, 0), 3600) |
| Backoff.DelayDoubles | internal/store/attempts.go:22-43 | the delay starts at 30 seconds and doubles with each retry until it would pass 3600 |
| Backoff.DelayTable | internal/store/attempts.go:22-43 | 30, 60, 120, 240, 480, 960, 1920, and 3600 seconds from the seventh retry on |
| TaskStore.Store.CreateTask | internal/store/tasks.go:29-85 | one queued row whose columns hold the input, with queue default, 3 retries, 1800 seconds and run_at now filled in where it says nothing, and one queued event; nothing else |
| TaskStore.Store.CreateWorker | internal/store/workers.go:23-68 | one idle worker row whose columns hold the input, with the defaults filled in, count 0 and concurrency at least 1; nothing else |
| TaskStore.Store.CountRunning | internal/store/claim.go:49-88 | the number of running tasks everywhere, of a queue or of a type |
| TaskStore.Store.EligibleTypes | internal/store/claim.go:74-95 | exactly the requested types that have spare capacity |
| TaskStore.Store.SelectBest | internal/store/claim.go:110-135 | nothing exactly if no task matches; otherwise a matching task that no other precedes by priority and then created_at |
| TaskStore.Store.PreviousMax | internal/store/claim.go:140-146 | the highest attempt number of the task, 0 if it has none |
| TaskStore.Store.ChooseTask | internal/store/claim.go:49-135 | the guards and loops refine the one-line specification ClaimChoice, which ClaimExactly states in columns |
| TaskStore.Store.IncrementWorker | internal/store/claim.go:156-166 | a known worker's count goes up and it is busy when full; an unknown worker changes no row |
| TaskStore.Store.ClaimTask | internal/store/claim.go:33-187 | no task, and no change, exactly if the global limit is reached, the queue is listed with a positive limit that is reached, or no due queued task of it has a requested type below its limit; otherwise such a task that no other precedes runs, its attempt has the next number and no result, error or heartbeat, and every other row stays |
| TaskStore.Store.LoadRunningAttempt | internal/store/attempts.go:256-275 | not found, not running, or the attempt's task and worker |
| TaskStore.Store.DecrementWorker | internal/store/attempts.go:279-291 | the count goes down and the status follows it |
| TaskStore.Store.SucceedAttempt | internal/store/attempts.go:50-96 | of a running attempt the result is stored, the attempt and its task succeed, the worker gets its slot back and one event is logged; any other attempt is an error and nothing changes |
| TaskStore.Store.RecordFailure | internal/store/attempts.go:113-170 | the rows of a failed execution: retrying with backoff while the budget lasts, dead otherwise |
| TaskStore.Store.FailAttempt | internal/store/attempts.go:104-184 | as SucceedAttempt: the attempt fails with that error, the task goes to retrying with one more retry and run_at after the delay while the budget lasts, and to dead otherwise; a missing task row is an error and nothing changes |
| TaskStore.Store.CancelAttempt | internal/store/attempts.go:191-235 | as SucceedAttempt: the attempt and its task are cancelled, without a result or an error |
| TaskStore.Store.TimeoutAttempt | internal/store/maintenance.go:65-135 | as FailAttempt, with the error and the event of a heartbeat timeout |
| TaskStore.Store.UpdateHeartbeat | internal/store/attempts.go:241-249 | heartbeat_at of a running attempt becomes now; nothing else changes, and nothing at all for any other attempt |
| TaskStore.Store.TaskStatusOneOf | internal/store/control.go:279-286 | membership |
| TaskStore.Store.ControlTransition | internal/store/control.go:208-234 | the error for a missing task or a wrong state, and otherwise the new status and one event |
| TaskStore.Store.HaltTask | internal/store/control.go:21-31 | running to halted; no attempt row changes |
| TaskStore.Store.ResumeTask | internal/store/control.go:37-62 | halted to queued, due at once, retry count kept; no attempt row changes |
| TaskStore.Store.CancelTask | internal/store/control.go:69-79 | queued or halted to cancelled; no attempt row changes |
| TaskStore.Store.RetryTask | internal/store/control.go:85-113 | dead or cancelled to queued with the retry count reset; no attempt row changes |
| TaskStore.Store.RestartTask | internal/store/control.go:124-202 | the old row superseded and a fresh copy queued that names it as parent |
| TaskStore.Store.RequeueRetrying | internal/store/maintenance.go:14-32 | exactly the due retrying tasks become queued, and their number is returned; no event |
| TaskStore.Store.FindStaleAttempts | internal/store/maintenance.go:37-60 | exactly the running attempts that were last heard of, by claim or heartbeat, at or before the cutoff, each once |
| TaskStore.Store.ScanHeartbeats | internal/scheduler/heartbeat.go:50-77 | the attempts last heard of at or before the cutoff are timed out in order, each once, until the sweep is told to stop; no other attempt is touched |
| TaskStore.Store.TimeOutAll | internal/scheduler/heartbeat.go:64-76 | the sweep over a list of running attempts: each one visited fails with a heartbeat timeout, the rest stay as they were |
| Replay.TimeoutSettles | internal/scheduler/heartbeat.go:64-76 | whatever others write meanwhile, an attempt that the scanner called a timeout for, refused or not, is finished for good |
| Guarantees.EveryStore | internal/store/store.go:188-199 | limits, worker load, attempt numbers and event log of any store object after any calls |
| Guarantees.EveryTask | internal/store/store.go:188-199 | retry count and number of attempts of any task of any store object after any calls |
| Guarantees.EveryLog | internal/store/store.go:188-199 | the event log rebuilds any task of any store object after any calls, and its running attempts are bounded |
| Guarantees.EveryColumn | internal/store/store.go:188-199 | the three laws of `Ledger` below, read off the columns of any store object after any calls |
| Ledger.RunningWithinLimits | internal/store/claim.go:49-95 | in every run the running tasks, those of each queue and those of each type listed with a positive limit stay within the limits at once, counted in the status, queue and type columns |
| Ledger.FullExactly | internal/config/config.go:137-151 | a queue or type closes exactly if it is listed with a positive limit that its running tasks have reached; unlisted or 0 never closes |
| Ledger.ClaimExactly | internal/store/claim.go:49-135 | what a claim answers, as an if and only if over the columns and the listed limits |
| Ledger.OutcomeRecorded | internal/store/attempts.go:50-235 | in every run an attempt holds a result x exactly if a success with x took effect on it, an error e exactly if a failure with e or a timeout did, and the time of that report |
| Ledger.LastHeard | internal/store/attempts.go:241-249 | in every run heartbeat_at, or started_at without one, is the time of the last claim or heartbeat that reached the attempt |
| Soundness.SoundRun | internal/store/claim.go:137-154 | in every run attempts and events refer to existing rows and 0 <= retry_count <= max(0, max_retries) |
| Soundness.AttemptNumbers | internal/store/claim.go:140-154 | in every run the attempts of each task are numbered 1..n, each number once |
| Soundness.IdentityFixed | internal/store/tasks.go:58-79 | a task keeps its type, queue, payload, priority, max_retries, timeout, parent and schedule in every continuation |
| Lanes.LaneStep | internal/store/attempts.go:136-155 | refinement: every transaction moves every existing task by a legal move of the automaton, or not at all |
| Lanes.LaneBirth | internal/store/tasks.go:32-47 | a task is born queued with no retries and no attempts |
| Lanes.LiveAttempts | internal/store/attempts.go:55-75 | in every run running attempts <= [running or halted] + orphanings, and equal without orphanings |
| Lanes.ExclusiveExactly | internal/store/control.go:16-79 | exactly the orphaning calls break one live attempt while running or halted and none otherwise |
| Lanes.LatestAttemptRuns | internal/store/claim.go:137-154 | a running or halted task's highest-numbered attempt is running, orphanings or not |
| Lanes.StatusFollowsEdges | internal/store/control.go:16-202 | the only status changes that runs without orphanings can make |
| Witnesses.EveryEdgeOccurs | internal/store/control.go:16-202 | each of those changes is made by some run without orphanings, under every valid configuration |
| Lanes.DocumentedExactly | internal/store/control.go:64-113 | in every run, orphanings included, a transaction keeps to the documented diagram if and only if it is none of three kinds of call, which the rows before the call decide |
| Lanes.StraysWithoutOrphans | internal/store/attempts.go:55-75 | without orphanings the outcomes that stray are exactly those for a halted task that are not cancellations |
| Lanes.DocumentedWithoutOrphans | internal/store/control.go:64-113 | the same if and only if for runs without orphanings, in terms of halted, dead, cancelled and queued tasks |
| Lanes.CancelledExactly | internal/store/control.go:69-113 | for every cancelled task: no continuation without an effective RetryTask queues it, if and only if none of its attempts is running or its retries are used up |
| Lanes.StaysDownExactly | internal/store/control.go:69-113 | in every continuation a cancelled task stays cancelled or superseded if and only if neither a RetryTask nor a success, failure or timeout takes effect on it |
| Witnesses.CancelledRunsAgain | internal/store/attempts.go:104-163 | a run without RetryTask in which a cancelled task runs again, under every valid configuration |
| Lanes.HaltedCanEnd | internal/store/attempts.go:55-75 | in every run a halted task's worker can still report any outcome, which settles the task as if it had not been halted |
| Witnesses.TwoLiveAttempts | internal/store/control.go:37-62 | a run with one orphaning in which a task has two running attempts, under every valid configuration |
| Lanes.AttemptPotential | internal/store/attempts.go:134-163 | the potential behind the bound: each claim is paid for by an entry into the queue |
| Lanes.AttemptBudget | internal/store/claim.go:110-154 | in every run attempts made <= (max(0, max_retries) + 1) * (1 + retry calls) + resume calls |
| Replay.ReplayRebuilds | internal/store/control.go:49-55 | in every run the event log rebuilds each retry count exactly and each status up to retrying to queued and to superseded |
| Replay.AttemptStories | internal/store/attempts.go:88-94 | in every run each attempt has one started event, and one outcome event of matching kind, time and error exactly if finished |
| Replay.OutcomeStep | internal/store/attempts.go:256-275 | a finished attempt row survives any transaction, and a refused outcome changes nothing |
| Replay.OneOutcome | internal/store/attempts.go:268-270 | in any race of success, failure, cancel and timeout exactly one takes effect if the attempt ever finishes |
| Replay.FinishedStaysFrozen | internal/store/attempts.go:256-275 | a finished attempt row never changes again |
| Limits.RunningGrowth | internal/store/claim.go:110-121 | no transaction makes a task running except the one it claims |
| Limits.LimitsHold | internal/store/claim.go:49-126 | in every reachable state each scope holds no more running tasks than its limit; RunningWithinLimits says it in columns |
| Limits.WorkerLoad | internal/store/claim.go:156-166 | in every run current_task_count is the number of running attempts with the worker's id, and busy means count >= concurrency |
| Drain.WorkDescends | internal/store/attempts.go:134-163 | one measure never grows in quiet operation and shrinks with every effective step |
| Drain.EngineDrains | internal/store/maintenance.go:14-32 | without create, restart, resume and retry calls a run makes at most as many effective steps as the measure at its start |
| Drain.NoDeadlock | internal/store/claim.go:49-135 | in every reachable state not at rest, at every time when the waiting tasks are due, a claim, an outcome or a requeue at that time takes effect |
| Drain.RestReachable | internal/store/maintenance.go:14-32 | from every reachable state quiet steps at such a time lead to rest |
| Spacing.ConsecutiveSpacedOut | internal/store/attempts.go:134-142 | without orphanings and retry calls attempt k+1 starts at least the k-th backoff delay after attempt k |
| Spacing.AttemptsSpacedOut | internal/store/attempts.go:134-142 | and so at least the first k backoff delays after attempt 1 |
| Lineage.StandingCount | internal/store/control.go:124-194 | in every run the tasks that are not superseded number exactly the CreateTask commits plus the superseded tasks revived by late outcomes |
| Lineage.StandingCountExact | internal/store/control.go:124-194 | without orphanings they number exactly the CreateTask commits |
| Lineage.SupersededAbsorbsExactly | internal/store/control.go:137-153 | a superseded task stays superseded in every continuation if and only if none of its attempts is running |
| Lineage.SupersededAbsorbs | internal/store/control.go:137-153 | in particular if it was never orphaned before |
| Witnesses.SupersededRevived | internal/store/attempts.go:55-75 | a run in which a superseded task becomes succeeded, under every valid configuration |
| Lineage.EdgesGood | internal/store/control.go:155-171 | a restart leads from a superseded task to a younger one with the same work that names it as parent |
| Lineage.OneRestartChild | internal/store/control.go:124-194 | without orphanings each superseded task has exactly one restart child |
| Lineage.LineageHead | internal/store/control.go:124-194 | from every task the restarts lead without circles to one live head, by one way only |
| Writer.DatabaseIsFold | internal/store/store.go:146-199 | in every interleaving the database is the fold of the executed ops in dequeue order, each executed once, each answer the one the fold gives |
| Writer.ReturnsMean | internal/store/store.go:146-164 | nil means committed, a body error means no effect, ErrStoreClosing means not run |
| Writer.OrderGrows | internal/store/store.go:168-186 | the dequeue order only grows |
| Writer.ClosingNeverRuns | internal/store/store.go:174-184 | an op refused with ErrStoreClosing is never executed later |
| Writer.RealTimeOrder | internal/store/store.go:146-164 | an op whose caller got nil precedes every op called afterwards, and ran after its own call |
| Writer.LoopNeverBlocks | internal/store/store.go:147-186 | each reply channel gets at most one send, and the loop can always take its next step |
| Writer.LoopServesAll | internal/store/store.go:168-186 | from every reachable state before it stops, the loop's own steps lead to rest with an empty buffer: each accepted op has its one answer, an open store has run them in order, waiting callers can take and the others can send |
| Writer.ClosingNeedsClose | internal/store/store.go:146-186 | in every interleaving no caller gets ErrStoreClosing before Close was called |
| Writer.BufferBounded | internal/store/store.go:123-127 | the write channel never holds more than 64 ops |
| StoreWriter.DatabaseIsRun | internal/store/store.go:146-199 | with the store's own transactions the database is that of the run of the executed requests in dequeue order |
| StoreWriter.RunIsLegal | internal/store/claim.go:46-178 | that run is legal when the ids are new, so the theorems about legal runs hold of what the writer leaves |
| Runner.RunOnce | internal/queue/worker.go:38-120 | one claim, heartbeats, then one outcome: with a cancelled context the attempt and the task are cancelled whatever the handler returned, else a handler error fails the attempt with that error, else it succeeds with that result |
| Runner.Report | internal/queue/worker.go:93-119 | the context is asked first, then the error, then the result; the columns that each branch writes |
| Pool.CapacityKept | internal/queue/pool.go:79-136 | in every interleaving, claims lost to a cancelled context included, the pool's task count equals its running attempts and stays within its concurrency |
| Pool.OneReportPerClaim | internal/queue/worker.go:67-119 | each claim a poller got leads to exactly one outcome call, after the last heartbeat |
| Pool.PollerRound | internal/queue/worker.go:38-119 | from every reachable state each claim of a polling goroutine leads by its own moves through one report back to polling, with the columns that the outcome asks for |
| Pool.ReportWrites | internal/queue/worker.go:97-119 | in every interleaving the report of a held attempt writes the columns that the context, the error and the result ask for, or nothing if it had ended |
| Pool.NewPoolStarts | internal/queue/pool.go:52-84 | a pool starts with one idle poller for each unit of concurrency, at least one, and its idle worker row |
| Schedules.FiresPaced | internal/scheduler/next_run.go:41-46 | fire n+2 is found due at least an interval after fire n was recorded, and so is every later one recorded |
| Schedules.ConsecutiveFiresCanCoincide | internal/scheduler/next_run.go:41-46 | a run in which two consecutive fires are recorded at the same second |
| Schedules.FullIntervalExactly | internal/scheduler/next_run.go:41-46 | after a run recorded at r every later fire in every continuation is found due at r + I or later, if and only if I <= 0 or next_run_at was counted from r or later |
| Schedules.NextIsAfterExactly | internal/scheduler/next_run.go:21-46 | exactly when the next run of an interval schedule is strictly after the given time |
| Schedules.NextCanHavePassed | internal/scheduler/next_run.go:21-46 | an input whose next run has passed |
| Schedules.NextRunExactly | internal/scheduler/next_run.go:32-51 | the cron expression decides if there is one, then the interval from last_run_at or else from the given time; neither is an error |
| Schedules.TasksCoverFires | internal/scheduler/task_scheduler.go:119-154 | the store's task rows with the schedule's id are never fewer than its recorded runs, whatever other clients do |
| Scheduler.TaskScheduler.InitSchedules | internal/scheduler/task_scheduler.go:56-91 | exactly the enabled schedules without next_run_at get one, unless it cannot be computed or the update is refused |
| Scheduler.TaskScheduler.DueSchedules | internal/store/maintenance.go:139-162 | exactly the enabled schedules whose time has come, each once |
| Scheduler.TaskScheduler.FireDue | internal/scheduler/task_scheduler.go:119-154 | the task first, then the record; a failed create records nothing, a failed record leaves the task; the store gets exactly that task and no other schedule changes |
| Scheduler.TaskScheduler.Poll | internal/scheduler/task_scheduler.go:94-113 | the due schedules are fired in turn, each once and from its row as the poll read it, until the poll is told to stop; no other is touched |
| Broker.DeliveredInOrder | internal/api/broker.go:105-115 | a subscriber's stream is an in-order subsequence without repetition of the events fanned out while it was subscribed |
| Broker.MissingMeansFull | internal/api/broker.go:105-115 | an event is missing only if the subscriber's buffer was full when the fan-out came to it |
| Broker.AloneIsSame | internal/api/broker.go:105-115 | to one subscriber every run looks as if nobody else had subscribed |
| Broker.NonInterference | internal/api/broker.go:27-28 | two runs that differ only in what other subscribers do give the same stream |
| Broker.Broker.Emit | internal/api/broker.go:63-69 | appends to the input buffer, or drops the event when it is full |
| Broker.Broker.Subscribe | internal/api/broker.go:74-80 | adds a subscriber with an empty buffer |
| Broker.Broker.Unsubscribe | internal/api/broker.go:84-88 | removes exactly that subscriber and touches no buffer |
| Broker.Broker.OfferTo | internal/api/broker.go:108-114 | one non-blocking send: delivered if there is room, dropped otherwise |
| Broker.Broker.FanOut | internal/api/broker.go:91-115 | the oldest event goes to exactly the subscribers with room, whatever the order of the loop |
| TimeText.TextOrderIsTimeOrder | internal/store/id.go:20-26 | for all instants of the years 0 to 9999 text order is the order of whole seconds |
| TimeText.ParseFormatted | internal/store/id.go:53-56 | parsing a formatted instant gives it back truncated to seconds |
| TimeText.LayoutExactly | internal/store/id.go:20-26 | the digits and separators of the layout, position by position |
| TimeText.MonthTable | internal/store/id.go:20-26 | the month lengths of the Gregorian calendar, leap years included |
| TimeText.DaysInClosedForm | internal/store/id.go:20-26 | the days before a year, summed year by year, are 365 a year and one for each leap year |
| TimeText.EpochSeconds | internal/store/id.go:20-26 | two instants whose Unix time is known lie where they should |
| SqlSplit.NothingLost | internal/store/migrate.go:144-174 | the joined statements are the clean lines in order, minus lone semicolons |
| SqlSplit.SplitAgain | internal/store/migrate.go:144-174 | splitting the joined statements gives the same statements |
| SqlSplit.SplitSQL | internal/store/migrate.go:144-174 | the loop over lines and buffer computes the specified statements; each but the last ends in a semicolon, and in none does a line before its last |
| SqlSplit.SplitExactly | internal/store/migrate.go:144-174 | a statement ends at each clean line that ends in a semicolon, unless that line is a lone semicolon with no statement open; so many statements there are, and one more if lines are left open |
| SqlSplit.EndsExactly | internal/store/migrate.go:160-166 | a line ends a statement exactly if it is some text followed by a semicolon |
| SqlSplit.StripExactly | internal/store/migrate.go:149-152 | a line loses its text from the first two dashes on, and nothing before them |
| SqlSplit.TrimExactly | internal/store/migrate.go:153 | a line loses the longest runs of white space at its ends, and nothing else |
| SqlSplit.LinesExactly | internal/store/migrate.go:148 | the lines joined by line feeds are the script, and hold no line feed |
| SqlSplit.CleanSnoc | internal/store/migrate.go:148-157 | the clean lines are the stripped and trimmed lines that are not empty, in order |
| Migrations.MigrateResumes | internal/store/migrate.go:16-54 | whatever the engine does, if no version still to be applied occurs twice, stopping after any number of files and running again ends as one full run |
| Migrations.MigrateTwice | internal/store/migrate.go:16-19 | under the same condition a second run changes nothing |
| Migrations.SucceedsExactly | internal/store/migrate.go:35-54 | a run of scripts that run through in order succeeds if and only if no version still to be applied occurs twice, and a failing one has made progress |
| Migrations.StillRunsThrough | internal/store/migrate.go:35-54 | wherever such a run stops, the scripts still run through from there |
| Migrations.SuccessRunsThrough | internal/store/migrate.go:35-54 | files that were migrated successfully run through from where that run began |
| Migrations.SuccessMeans | internal/store/migrate.go:35-54 | a run succeeds only by executing all statements of all pending files in order, and then exactly their versions are new in schema_migrations |
| Migrations.ChainExecutes | internal/store/migrate.go:100-111 | statements that take one schema to the next, each in turn, execute to the last |
| Migrations.ExecutesInChain | internal/store/migrate.go:100-111 | statements that execute pass through one schema for each |
| Migrations.SafeToRepeatExactly | internal/store/migrate.go:16-54 | for such scripts, repeating changes nothing, and resuming from every point is one full run, if and only if no version still to be applied occurs twice |
| Migrations.SameVersionTwiceDoesNotResume | internal/store/migrate.go:35-52 | the smallest input for which the first run fails and the second succeeds |
| Migrations.Handle.ApplyMigration | internal/store/migrate.go:93-120 | all statements and the version row, or no change |
| Migrations.Handle.Migrate | internal/store/migrate.go:19-54 | the loop over the files computes the specified outcome |

## Left out

- SQLite, database/sql, row scanning and JSON: rows are values and a transaction commits or has no effect. Errors
  of the database engine itself are not modelled in the store; in `Writer` they are answers of the body.
- Helpers without a counterpart of their own: `RecordFailure` is the SQL that FailAttempt and TimeoutAttempt both
  write out, `IncrementWorker`, `CountRunning`, `SelectBest` and `PreviousMax` are SQL statements of ClaimTask.
- Order of equal created_at values, UUID randomness and event ids: ties are unspecified in the code, ids are fresh.
- The heartbeat column of workers, which nothing writes.
- Interleaving inside a store method: a transaction is one step, as the single writer makes it.
- Foreign keys: nothing relies on them. An outcome for an attempt whose task row is missing is modelled.
- The database engine's integer width: counts, priorities and intervals are unbounded integers.
- The call from a committed transaction to the broker, and the API's reading of a subscription (HTTP, JSON, SSE text).
- Liveness of a caller whose op is accepted into the buffer after the writer has gone: the code does not
  guarantee it.
- User handlers, their panics and timeouts, the Python bridge and SDK: a handler's result is a parameter.
- Tickers, sleeps and poll intervals: goroutines take their steps at any time.
- Cron parsing: `Cron` is any function from an expression and a time to an optional next time.
- Operator patches of next_run_at and of the timing of a schedule, and UpdateSchedule's patch building.
- ListTasks, ListWorkers, ListSchedules, GetTask, the registry: plain reads.
- Loading configuration from TOML files, flags and environment.
- Time zones, years after 9999, and the RFC 3339 fallbacks and lenient parts of time.Parse.
- Listing and sorting migration files and parsing their names: a file is its version, or none, and its text.
- Invalid UTF-8 in SQL scripts: scripts are sequences of characters.
- ScanHeartbeats: a sweep in which nobody else writes; for other writers between the timeouts see `TimeoutSettles`.
- RunOnce: a run in which nobody else writes; `Pool` has the interleavings.
- Poll: a poll in which nobody else writes; `Schedules` has the interleavings.
- SafeToRepeatExactly: for file names that carry a version and scripts that run through. Without that, a repeated
  version can go unnoticed because the run fails for another reason first; `MigrateResumes` has no such condition.
- CapacityKept: assumes that an outcome write commits or is refused by the store, and that nobody else claims with
  the pool's worker id.

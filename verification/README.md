# easytask: a verified model

easytask runs scheduled callbacks. Several nodes share a task table, a task-log table and a registry of callback
servers. On each node a scheduler pages through the due rows and hands tasks over an unbuffered channel to a pool of
workers; a worker locks its task by a compare-and-set on the row, writes a log row, calls the server back and confirms
the outcome. API calls add, stop and confirm tasks and register or unregister servers at any time.

The difficulty is that workers act on stale copies, that there are no transactions, and that nothing but the
compare-and-set keeps two nodes apart. The project states what nevertheless holds in every interleaved run, and proves
it; where an expectation is false of the code, it proves exactly when the expectation does hold and gives an input that breaks it.

## Layout

| file | content |
|---|---|
| `Common.dfy` | options and results, selections, pages and primary-key order over sequences |
| `SrvTables.dfy`, `SrvRefinement.dfy`, `SrvQueries.dfy`, `TaskSrvRepo.dfy`, `Registry.dfy` | the server and route tables with their tombstones, the plain registry they stand for, the queries, and the imperative repository, API and health sweep on top |
| `TaskTables.dfy`, `TaskRepo.dfy` | tasks, schedules, the statements on the task table, and the imperative repository with one worker's turn |
| `RunLog.dfy` | the log table as a state machine fed by three parties, and its repository |
| `LockProtocol.dfy`, `LockTheorems.dfy` | rows plus a trace of all committed statements; the invariant; what it says about whole runs |
| `Engine.dfy` | one node's scheduler, channel, pool, pause flag, wait group and stop sequence as a state machine |
| `Sweep.dfy`, `SystemSweep.dfy`, `Starvation.dfy` | the scheduler loop over tables that change under it; the proof that engines of the whole system perform exactly such sweeps, and what one sweep of a node covers; a run into a state where a due task is never sent |
| `Cluster.dfy`, `ClusterProofs.dfy`, `ClusterTheorems.dfy`, `SystemRuns.dfy` | any number of nodes over one database, with every API call in between; its invariant; what holds in every run of it, `SystemRuns` for the locking |
| `Progress.dfy` | the drain of a node in the system when nothing fails |
| `Requests.dfy` | from the request to the callback: what AddTask was asked for is what a worker calls back with; repeating tasks become due again |
| `Turns.dfy` | one worker's turn in every run: its clock readings, its one callback, its report |
| `Reports.dfy` | from the answer to the log: what callback log, confirmation and API make of it |
| `SrvStatements.dfy` | registrations and deletions statement by statement; exactly when two of them at once keep the registry invariants |
| `SplitReads.dfy` | the system with any number of such calls under way and the two reads of a join apart; exactly when a task goes out without routes, and what follows |
| `SmallRuns.dfy`, `RepeatedRuns.dfy`, `FailingRuns.dfy` | building blocks of runs; a run in which an interval task runs as often as it may; runs in which the system does not do what one would expect |

Repositories, whose methods reassign rows, are classes whose methods are proved equal to functions on the tables. The
goroutines of one node are a state machine, because the interest there is their interleaving: an action of `Engine` is
one channel handoff, one flag or counter access, or one call out of the node.

## Assumptions

- Each SQL statement is one atomic step. Methods on tasks that issue several statements are several steps. In `Cluster`
  methods on the registry tables, and the join's two reads of them, are one step each, though the code has no transaction
  there; `SrvStatements` and `SplitReads` take them apart. An uninterrupted call is the one step (`AddTogether`,
  `DeleteTogether`). A first-or-create is one statement, and that of a route goes with the update that follows it;
  the server row is looked for and revived in two. In `SplitReads` a call may end with an error after any statement.
- A node may take itself for the master at any moment. No safety statement depends on mastership.
- A node's clock never goes back. Clocks of different nodes are unrelated. `LockTask` reads the clock twice, and both readings are kept.
- A cron expression that parses has a least firing instant after every instant; which one it is, is left to the calendar.
- `ConfirmTask` updates `last_success_at` or `last_failed_at`, which the task model does not declare, so that statement may
  fail and end the call before the log is written. The statements about logs hold both ways.
- A callback either returns something or is cut off; the drain claims rely on its ending at some time.
- The order in which the database scans a table without ORDER BY is an arbitrary enumeration of it.

## Where the code and its intent differ

- `COUNT(IF(x > 0, 1, 0))` in `DelSrvRoutes` counts every row, because neither branch is NULL. The health-check flag of a server is
  therefore never cleared: `FlagIsHistory` states what it records, `FlagExactIff` when that is what it should, and
  `FlagOutlivesItsRoutes` shows the smallest case where it is not.
- `AddTask` writes `allow_max_run_times = 1`, not one more than `run_times`, when a one-shot task is added again with the
  same plan. Such a task does not run again: `OneShotReAddRunsAgainIff`, and `StoppedOneShotIsDone` is a run of the system
  into it. Nor is `run_times <= allow_max_run_times` an invariant: `UpdateWithinAllowanceIff` and `LockWithinAllowanceIff`
  say exactly which writes keep it, and `AllowanceOverrun` is a run that ends with two runs where one is allowed.
- The compare-and-set looks at the run number and the last run, not at the plan. A copy read before an add therefore still
  wins after it if the row is live and nothing has won since (`LockCriterion`), and it may do so before the added plan.
  `NotBeforePlan` is what holds for copies read after the add, `EarlyOnlyByStaleCopy` says that early runs of the
  last add all come from such an old copy, and in `StaleCopyRunsEarly` one spends the only run of a one-shot task,
  which is then never due again.
- `TimeoutTasks` drops rows without a live server after the LIMIT, and an empty page resets the cursor. A full page of such rows hides all
  later rows: `SweepMissesIff`, `NodeSweepMissesIff` and `FrozenSweepCompleteIff` are exact. `StarvationExists` is a run of the system into such a state,
  for every page size, and by `StarvedForEver` no node gets out of it by itself.
- The last terminal report on a log row wins, also over an earlier confirmation by the API: when the callback's request
  fails after the confirmation, the log says failed (`LateFailureOverwrites`).
- A confirmation sets `ended_at` also when it reports a run that goes on: after a callback that was accepted in the
  background the log row is still running and has an end time (`TurnLog`, `AfterConfirmation`).
- A health check works on routes read earlier. What it removes were health-checked entries then
  (`CheckRemovesOnlyChecked`); when the checks of a route are switched off in between, an entry without checks is
  removed (`LateCheckRemovesUnchecked`).
- Two calls on one server can break the registry invariants. A deletion and a registration do so exactly when they are
  about the same server, the deletion counts no live route, the registration looks for the server row before the deletion
  deletes it, and one of its routes is put after the count (`TwoCallsKeepInvIff`); for a deletion of all routes there
  always is such an order (`SomeOrderBreaks`). Two deletions, and two registrations, never do (`TwoDeletionsKeepInv`,
  `TwoRegistrationsKeepInv`).
- A worker that meets a task without routes returns without telling the wait group, and `Stop` then waits for ever
  (`LostBlocksStop`). With registry calls and joins as single steps no run of the system gets there
  (`PoolNeverLosesWorker`). With their statements apart some do. A task is delivered without routes exactly when its
  server was live at the first read of `GetSrvs` and had no live route at the second (`RoutelessIff`,
  `SplitDeliversRoutedIff`). Two runs get there: in `LostBetweenReads` the server is unregistered between the reads, in
  `LostInRevival` both reads fall between the revival of its row and its first route; the gap of a deletion between its
  last route and the server row is open in the same way. As long as no delivery does this, no worker is lost, whatever calls are under way (`SplitPoolNeverLosesWorker`); once one has, `Stop` never returns on that
  node (`StopReturnsOnlyIfRouted`, `LostForEver`).
- When the INSERT of `AddTask` meets the unique index because another call added the key first, the method returns neither an error nor
  an id. `AddOutcome` says exactly when, and that nothing is stored then; `SecondAddGetsNothing` is a run.

## Model

| member | source | states |
|---|---|---|
| LockProtocol.InvAlways | internal/task/impl/repo/mysql/task_repo.go:101-330 | in every state of every interleaving of reads, locks, adds and stops the rows agree with the history: run_times counts the wins, last_run_at is the last win's time, the plan is what the last win or add wrote |
| SystemRuns.LockCriterion | internal/task/impl/repo/mysql/task_repo.go:306-319 | a lock on a snapshot wins if and only if the row is not deleted and no lock on the task has won since the snapshot was read |
| SystemRuns.RunNumbers | internal/task/impl/repo/mysql/task_repo.go:286-330 | the run numbers won for a task are exactly 1 .. run_times, each once and in order, across stops and re-adds |
| SystemRuns.NoStaleWin | internal/task/impl/repo/mysql/task_repo.go:294-319 | each winner read its copy after the previous win, so of the holders of one snapshot at most one ever wins |
| SystemRuns.OneShotOnce | internal/task/impl/repo/mysql/task_repo.go:151-171 | between two wins after a time-spec add there is another add, whatever snapshots were outstanding |
| SystemRuns.OneShotWithinAdds | internal/task/impl/repo/mysql/task_repo.go:120-171 | a row only ever added as time-spec has run at most as often as it was added |
| SystemRuns.NotBeforePlan | internal/task/impl/repo/mysql/task_repo.go:193-202 | no run that relies on a copy read after an add starts before the plan which that add wrote, unless a run was won between the add and the read |
| SystemRuns.EarlyOnlyByStaleCopy | internal/task/impl/repo/mysql/task_repo.go:306-319 | every run before the plan of the last add, of an interval that is not negative, relies on a copy read before that add or follows a run since the add that does |
| FailingRuns.StaleCopyRunsEarly | internal/task/impl/repo/mysql/task_repo.go:294-311 | for every waiting time a run of the system: an interval task is read, added again as one-shot for later, and run at once by the old copy; the one-shot task is never due again |
| SystemRuns.NotBeforeNextPlan | internal/task/impl/repo/mysql/task_repo.go:294-311 | the second of two consecutive runs is not before the plan that the first wrote, unless the task was added again |
| SystemRuns.IntervalSpacing | internal/task/task.go:205-209 | n consecutive runs of an interval task span at least n - 1 intervals, whichever nodes and clocks win them |
| SystemRuns.CronSpacing | internal/task/task.go:210-215 | the runs of a cron task in a window outnumber the firing instants in it by at most one |
| SystemRuns.StopUntilAdd | internal/task/impl/repo/mysql/task_repo.go:25-36 | after a stop no lock wins, by any snapshot on any node, until an add revives the row |
| LockTheorems.StoppedMeansLocked | internal/apihandler/service/service.go:54-60 | while the last stop stands, every compare-and-set on the task fails |
| TaskTables.ModeRoundTrip | internal/task/impl/repo/mysql/data_model.go:86-108 | the two numberings of the schedule modes are inverse to each other, one-shot is 1, cron 2 and interval 3 in the table, and nothing else converts |
| TaskTables.NextAtMeaning | internal/task/task.go:205-220 | a next time is found exactly when the mode is set and the expression parses, and it is the interval's end, the least firing instant after now, or the given time |
| TaskTables.JoinSource | internal/task/impl/repo/mysql/task_repo.go:236-276 | a task is returned if and only if its row is on the page, its server is live, it agrees with the row column by column, with the row's plan as its time only when it is one-shot, and it has the server's live routes |
| TaskTables.ReviveKeepsRuns | internal/task/impl/repo/mysql/task_repo.go:151-171 | adding a stopped task again keeps its id, its key, its run counter and its last run, and touches no other row |
| TaskTables.OneShotReAddRunsAgainIff | internal/task/impl/repo/mysql/task_repo.go:154-166 | a one-shot task added again can become due if and only if the mode or plan of the row that the SELECT saw differs or the row written has never run |
| TaskTables.StoppedOneShotStaysDone | internal/task/impl/repo/mysql/task_repo.go:164-166 | a concrete one-shot task that ran, was stopped and is added again for the same time is never due |
| TaskTables.UpdateWithinAllowanceIff | internal/task/impl/repo/mysql/task_repo.go:151-171 | an update leaves run_times within allow_max_run_times if and only if it is not time-spec, or its mode or plan differ from the row seen, or the row has run at most once |
| TaskTables.LockWithinAllowanceIff | internal/task/impl/repo/mysql/task_repo.go:306-311 | a winning lock leaves run_times within allow_max_run_times if and only if budget was left when it won |
| FailingRuns.StoppedOneShotIsDone | internal/task/impl/repo/mysql/task_repo.go:164-166 | a run of the system, a one-shot task run, stopped and added again for the same time, ends with a live row that is never due |
| FailingRuns.AllowanceOverrun | internal/task/impl/repo/mysql/task_repo.go:164-166 | a run of the system, two one-shot runs on two nodes and a third add with the same plan, ends with run_times 2 and allow_max_run_times 1 |
| TaskTables.WriteTaskStores | internal/task/impl/repo/mysql/task_repo.go:142-178 | the write of AddTask, at any time after its SELECT, stores nothing and returns no id exactly when the SELECT saw nothing and the key has been added since; otherwise the row of the id carries the request and no other row changes |
| ClusterTheorems.AddOutcome | internal/task/impl/repo/mysql/task_repo.go:142-149 | in every run of the system a call of AddTask returns neither error nor id exactly in that case, and then the tables stay as they were |
| ClusterTheorems.SecondAddGetsNothing | internal/task/impl/repo/mysql/task_repo.go:146-149 | a run in which two calls look before either writes, and the second gets neither id nor error |
| TaskRepository.AddTaskStores | internal/task/impl/repo/mysql/task_repo.go:101-179 | after an uninterrupted AddTask the one row of the key is live and carries the request and its plan; a known key keeps id, run counter and last run, a new one starts at zero; no other row changes; a one-shot row gets one run, one more than it had, or the bare number one, by mode and plan, and any other row is due from its plan on until it has run 2^63 - 1 times |
| TaskRepository.TaskRepo.SelectTask | internal/task/impl/repo/mysql/task_repo.go:142-145 | finds the row of the key, deleted or not |
| TaskRepository.TaskRepo.StoreTask | internal/task/impl/repo/mysql/task_repo.go:145-178 | inserts or updates, judged on the row found earlier, over a table that may have changed since; a refused INSERT changes nothing and returns no id |
| TaskRepository.TaskRepo.AddTask | internal/task/impl/repo/mysql/task_repo.go:101-179 | both in a row leave all that, and an invalid schedule changes nothing |
| TaskRepository.TaskRepo.DelTaskById | internal/task/impl/repo/mysql/task_repo.go:25-36 | marks the row deleted and changes nothing else |
| TaskRepository.TaskRepo.TimeoutTasks | internal/task/impl/repo/mysql/task_repo.go:181-284 | whatever order the servers come back in: every returned task is the column-by-column copy of a due row after the cursor, with its live server and exactly the registered routes; every row of the page with a live server is returned; the call fails exactly when such a row has no name or an unknown mode |
| TaskRepository.TaskRepo.DistinctSrvIds | internal/task/impl/repo/mysql/task_repo.go:211-223 | the collected ids are exactly the server ids of the page, each once |
| TaskRepository.TaskRepo.SrvMap | internal/task/impl/repo/mysql/task_repo.go:231-234 | every returned server is indexed under its own id |
| TaskRepository.TaskRepo.BuildTasks | internal/task/impl/repo/mysql/task_repo.go:236-276 | rows without a server are skipped, a refused row ends the call, and otherwise the result is the join that JoinSource describes |
| TaskRepository.TaskRepo.LockTask | internal/task/impl/repo/mysql/task_repo.go:286-330 | the row moves on, in last run, run number and plan only, if and only if id, last run and run number match a live row; a fresh log row is running, started at the log's clock and not ended; a lost race returns false without an error, a refused log insert returns an error although the row has moved and the run number gone up |
| TaskRepository.TaskRepo.ConfirmTask | internal/task/impl/repo/mysql/task_repo.go:332-368 | the log is written exactly when the statement on the task row did not fail |
| TaskRepository.TaskRepo.WorkerTurn | internal/task/worker.go:96-133 | one turn issues the callback if and only if the task has routes, its schedule is valid, the lock wins and the log row is new; without a callback the log stays; with one the whole log row of the run is stated: success, running in the background or failure by the two flags of the answer, its times, server and extra; no other row changes except that of run 0 after an internal error |
| RunLog.RowIsFirstStart | internal/task/impl/repo/mysql/task_log_repo.go:18-41 | in any order of statements a log row has the time and the server of the first insert of its key |
| RunLog.ColumnIsLastReport | internal/task/impl/repo/mysql/task_log_repo.go:18-104 | in any order of statements each of status, end time, async flag and extra shows the last statement that sets it among those that found the row: terminal reports set the status, these and confirmations the end time, callback logs the flag, confirmations the extra; until then running, 0, false and empty |
| RunLog.ApplyFrame | internal/task/impl/repo/mysql/task_log_repo.go:43-104 | statements for other keys never touch a row, and a finished row never becomes running again |
| RunLog.LateFailureOverwritesSuccess | internal/task/impl/callback/http.go:65-108 | a failed callback log written after an API confirmation of success turns the row to failed |
| FailingRuns.LateFailureOverwrites | internal/task/worker.go:109-130 | a run of the system in which the API confirms a run, the callback's request then fails, and the log changes from success to failed |
| RunLog.TaskLogRepo.SaveTaskStartedLog | internal/task/impl/repo/mysql/task_log_repo.go:18-41 | inserts a row that is running, started now and not ended, refused exactly when the key has one |
| RunLog.TaskLogRepo.SaveTaskCallbackLog | internal/task/impl/repo/mysql/task_log_repo.go:43-78 | sets the async flag of the row of the key, and status and end time exactly for a success or a failure; nothing if there is no row |
| RunLog.TaskLogRepo.SaveTaskConfirmedLog | internal/task/impl/repo/mysql/task_log_repo.go:80-104 | sets end time and extra of the row of the key, and the status exactly for a success or a failure; nothing if there is no row |
| Engine.InvKept | internal/task/worker.go:38-141 | every action keeps the stop order, the exact wait group, and the balance of emitted, received and finished tasks |
| Engine.NoWorkerLost | internal/task/worker.go:96-103 | as long as delivered tasks have routes no worker takes the early return |
| Engine.GracefulDrain | internal/task/worker.go:43-47 | when Stop has returned, every emitted task was received once, in order, and finished; no send is pending, all workers have exited, and no action is possible |
| Engine.ReturnedOnlyRouted | internal/task/worker.go:96-103 | Stop has returned only if every task ever emitted had a route |
| Engine.LostBlocksStop | internal/task/worker.go:96-103 | a worker lost to the early return keeps Stop from returning, for ever |
| Engine.DrainDecreases | internal/task/sched.go:56-96 | after the stop request every action that changes anything lowers one measure of unsent tasks, tasks in hand and live workers |
| Engine.DrainBounded | internal/task/worker.go:60-141 | in a run of any length after the stop request at most that many actions have an effect |
| Engine.DrainNotStuck | internal/task/worker.go:79-90 | between the stop request and the return some action in which no call fails always changes the state |
| Engine.DrainCompletes | internal/task/worker.go:43-47 | from every state after the stop request a run in which no call fails makes Stop return with every emitted task finished |
| Sweep.Sched.Schedule | internal/task/sched.go:43-97 | the loop sends exactly the tasks that the walk over the turns sends, in order, and nothing after the exit signal |
| Sweep.SweepRestarts | internal/task/sched.go:84-89 | from an empty page on the loop behaves as from its beginning |
| Sweep.ReadIds | internal/task/impl/repo/mysql/task_repo.go:193-283 | a read hands over the live rows of the page in ascending order, all after the cursor, and moves the cursor to the last of them |
| Sweep.NoBadRow | internal/task/impl/repo/mysql/task_repo.go:244-270 | over a valid table no row makes TimeoutTasks fail |
| Sweep.SweepIncreasing | internal/task/sched.go:76-95 | within one sweep ids are sent in strictly increasing order, so each at most once, while the tables change arbitrarily |
| Sweep.SweepMissesIff | internal/task/sched.go:76-95 | a row due with a live server at every read is missed if and only if the last read met a full page of orphaned rows in front of it |
| Sweep.SweepCovers | internal/task/impl/repo/mysql/task_repo.go:193-283 | such a row is sent exactly once when fewer than a page of due rows are orphaned at the last read |
| Sweep.SweepBounded | internal/task/sched.go:91 | with bounded ids the pages of a sweep are bounded, because each moves the cursor up |
| Sweep.SweepEnds | internal/task/sched.go:76-95 | more reads than there are ids cannot all belong to one sweep, whatever turns without mastership or with a failing database lie between them |
| Sweep.FrozenSweepCompleteIff | internal/task/sched.go:76-95 | over a table that does not change a sweep sends every due live row if and only if no full page of orphans precedes one, and sends nothing else |
| Sweep.BlockedIsNeverSent | internal/task/sched.go:84-91 | while the table stays as it is a blocked row is sent in no sweep at all |
| Starvation.StarvationExists | internal/task/impl/repo/mysql/task_repo.go:236-241 | for every page size a run of the system, with adds and an unregistration, ends in valid tables over which a due task with a live server is sent in no sweep |
| Starvation.StarvedForEver | internal/task/sched.go:84-91 | at the real page size, however that run goes on by steps of the nodes, at whatever times, no node emits any task |
| SystemSweep.EngineSweeps | internal/task/sched.go:43-97 | in every run of the system, what a node sends from the start of a sweep on is what its turns send, where each read has the tasks and the clock of its SELECT and the registry of its join, in the order of the run |
| SystemSweep.NodeSweepIncreasing | internal/task/sched.go:76-95 | in one sweep of a node the emitted ids ascend, whatever other nodes and the API do |
| SystemSweep.NodeSweepMissesIff | internal/task/impl/repo/mysql/task_repo.go:193-283 | a task due on a live server in every state of a node's sweep is missed if and only if the last SELECT met a full page of due rows before it |
| SystemSweep.NodeSweepCovers | internal/task/impl/repo/mysql/task_repo.go:193-283 | such a task is emitted exactly once if fewer than a page of due rows were orphaned at the last read |
| ClusterProofs.InvAlways | internal/task/worker.go:60-141 | the whole system's invariant: tables, logs, callbacks, registry, nodes and pending adds agree in every state of every run |
| ClusterTheorems.LockingHolds | internal/task/impl/repo/mysql/task_repo.go:286-330 | the locking invariant, hence every statement of LockTheorems, holds throughout every run of the system |
| ClusterTheorems.CallbackAtMostOnce | internal/task/worker.go:109-130 | the callback for a task and run is issued at most once, however many nodes believe they are master |
| ClusterTheorems.LogBeforeCallback | internal/task/impl/repo/mysql/task_repo.go:317-329 | every callback follows the insert of its log row and is for a run that was won |
| ClusterTheorems.LogInsertNeverDuplicates | internal/task/impl/repo/mysql/data_model.go:235-241 | a worker that holds a lock never finds a log row of its key, so the unique index refuses no insert |
| ClusterTheorems.LogKeysInRange | internal/task/impl/repo/mysql/task_log_repo.go:29-35 | the log keys of a task lie within 1 .. run_times, so the run-0 report of an internal error meets no row |
| ClusterTheorems.LogColumnsInSystem | internal/apihandler/service/service.go:62-75 | in every state each column of a log row shows the last statement of worker, callback or API that set it, and its start is that of its own insert |
| Reports.TurnLog | internal/task/worker.go:109-141 | in every run of the system a turn from the log insert to the confirmation that nothing interrupts leaves the log row with the outcome of the answer, the times of its statements, server and extra, and changes no other row; after an internal error the confirmation changes nothing |
| Reports.CallbackLogTellsAnswer | internal/task/impl/callback/http.go:65-93 | whatever lies in between, a callback log reports success, background or failure by the two flags of the answer it belongs to |
| Reports.ConfirmationTellsAnswer | internal/task/worker.go:118-130 | whatever lies between answer and confirmation, the worker confirms that outcome on the row of its run, and after an internal error no row at all |
| Reports.ApiConfirms | internal/apihandler/service/service.go:62-75 | an API confirmation sets the row of its key to success or failure as it was told, and no other row |
| ClusterTheorems.PoolNeverLosesWorker | internal/task/worker.go:96-103 | with registry calls and joins as single steps no pool ever loses a worker, the wait group always equals the number of live workers, and the early return is never enabled |
| SrvStatements.AddTogether | internal/task/impl/repo/mysql/task_srv_repo.go:21-98 | the statements of AddSrvRoutes without interruption are the one-step registration |
| SrvStatements.DeleteTogether | internal/task/impl/repo/mysql/task_srv_repo.go:100-167 | the statements of DelSrvRoutes without interruption are the one-step deletion, and nothing on a name that is not known |
| SrvStatements.TwoCallsKeepInvIff | internal/task/impl/repo/mysql/task_srv_repo.go:21-167 | a deletion on a live server and a registration, in any order of their statements, leave the registry invariants intact if and only if not all of this holds: same server, no live route at the count, the look before the server delete, a route put after the count |
| SrvStatements.SomeOrderBreaks | internal/task/impl/repo/mysql/task_srv_repo.go:123-152 | for every deletion of all routes of a server and every registration of it some order of their statements breaks the invariants |
| SrvStatements.TwoDeletionsKeepInv | internal/task/impl/repo/mysql/task_srv_repo.go:100-167 | two deletions keep the invariants in any order of their statements, on one server or two |
| SrvStatements.TwoRegistrationsKeepInv | internal/task/impl/repo/mysql/task_srv_repo.go:21-98 | two registrations of some routes keep the invariants in any order of their statements, on one server or two |
| SplitReads.SplitJoinTogether | internal/task/impl/repo/mysql/task_srv_repo.go:229-306 | with both reads of GetSrvs on the same tables the split join is the join of the other modules |
| SplitReads.RoutelessIff | internal/task/impl/repo/mysql/task_srv_repo.go:266-303 | with the two reads of GetSrvs apart, a joined task has no routes if and only if its server had no live route at the second read, whatever calls are under way |
| SplitReads.SplitDeliversRoutedIff | internal/task/impl/repo/mysql/task_srv_repo.go:266-303 | a delivery hands over only tasks with routes if and only if every selected task's server that was live at the first read has a live route at the second |
| SplitReads.SplitPoolNeverLosesWorker | internal/task/worker.go:96-103 | with any number of registry calls under way, statement by statement, and split reads, no worker is lost as long as that holds at every delivery |
| SplitReads.StopReturnsOnlyIfRouted | internal/task/worker.go:43-47 | in such a system Stop has returned on a node only if it held at every delivery the node ever made |
| SplitReads.LostBetweenReads | internal/task/worker.go:96-103 | a run: a server is unregistered between the two reads, and a worker returns early |
| SplitReads.LostInRevival | internal/task/impl/repo/mysql/task_srv_repo.go:32-54 | a run: both reads fall between the revival of a server row and its first route, and a worker returns early although the server was live throughout |
| SplitReads.LostForEver | internal/task/worker.go:43-47 | however such a run goes on, Stop never returns on that node |
| SplitReads.HalfRegisteredIff | internal/task/impl/repo/mysql/task_srv_repo.go:32-54 | between the first two statements of AddSrvRoutes servers and routes are live together if and only if the name was known before |
| ClusterTheorems.NodeDrained | internal/task/worker.go:43-47 | in the system too a returned Stop leaves every emitted task received once and finished |
| ClusterTheorems.NoLockAfterReturn | internal/task/worker.go:43-47 | after a node's Stop has returned none of its locks ever wins again |
| Requests.CallbackCarriesRequest | internal/task/impl/callback/http.go:33-55 | in every run of the system each callback carries name, business id, argument, path, server and schedule of one request of AddTask, the last one stored before the row was read, with exactly the routes its server had when it was joined |
| Requests.AddHasCall | internal/task/impl/repo/mysql/task_repo.go:142-178 | every add in the history was written by a call whose request the row carries, with the largest integer as budget unless it is one-shot |
| Turns.LockUsesReadings | internal/task/impl/repo/mysql/task_repo.go:286-311 | the last run that a winning lock writes is its first clock reading, and its plan is computed from the second |
| Turns.LoggedRunIsCalled | internal/task/worker.go:109-118 | in every state of every run each logged run has been called back exactly once, unless a worker is just about to |
| Turns.AnswerIsReported | internal/task/impl/callback/http.go:65-93 | after a callback has ended the worker's next step is its callback log |
| Requests.RepeatingIsDue | internal/task/impl/repo/mysql/task_repo.go:120-126 | in every state of every run a live interval or cron task is due exactly from its plan on, as long as it has run less than 2^63 - 1 times |
| Requests.DueAgainAfterLock | internal/task/impl/repo/mysql/task_repo.go:294-319 | after every lock that wins the row is live, planned for the time the lock computed, and due again from then on |
| RepeatedRuns.RunsAsOftenAsItMay | internal/task/worker.go:60-141 | for every interval and every number up to 2^63 - 1 a run of the system in which a task added once runs that often, each time exactly one interval after the last, so the bound of IntervalSpacing is attained |
| Progress.SystemDrainNotStuck | internal/task/worker.go:60-141 | from the stop request to the return some step of the whole system in which nothing fails moves the node on; a turn ends early only by a lost race |
| Progress.SystemDrainCompletes | internal/task/worker.go:43-47 | every run in which a node was told to stop can be continued, with nothing failing, until its Stop returns |
| Progress.SystemDrainBounded | internal/task/worker.go:43-47 | however the whole system goes on after a node was told to stop, at most as many of its steps change that node as its measure says |
| Progress.PlannableAlways | internal/task/impl/repo/mysql/task_repo.go:108-118 | every stored row, copied row and pending add has a name and a schedule whose next time can be found |
| SrvRefinement.RegisterRefines | internal/task/impl/repo/mysql/task_srv_repo.go:21-98 | AddSrvRoutes adds exactly its routes to the plain registry, reviving tombstones and keeping one row per address |
| SrvRefinement.UnregisterRefines | internal/task/impl/repo/mysql/task_srv_repo.go:100-167 | DelSrvRoutes fails exactly on a name the registry does not know and otherwise removes exactly the named addresses |
| SrvRefinement.RegisterKeepsInv | internal/task/impl/repo/mysql/task_srv_repo.go:86-95 | AddSrvRoutes keeps the invariants if and only if it is given a route or the name is already known |
| SrvRefinement.UnregisterKeepsInv | internal/task/impl/repo/mysql/task_srv_repo.go:147-164 | DelSrvRoutes keeps the invariants: a server is live if and only if it has a live route, and a live health-checked route implies the flag |
| SrvRefinement.RunRefines | internal/registry/registry.go:61-95 | after every sequence of registrations, unregistrations and health-check deletions the live rows are the plain registry's entries, and the invariants hold |
| SrvRefinement.RunExists | internal/registry/registry.go:80-95 | every sequence of calls has such a run |
| SrvRefinement.StepKeepsIds | internal/task/impl/repo/mysql/task_srv_repo.go:47-80 | a route id keeps its server and its address for ever, so ids read earlier still mean the same route |
| SrvRefinement.FlagIsHistory | internal/task/impl/repo/mysql/task_srv_repo.go:132-164 | a server's flag is set if and only if a health-checked route was ever registered for it |
| SrvRefinement.FlagExactIff | internal/task/impl/repo/mysql/task_srv_repo.go:132-164 | the flag tells whether a live health-checked route exists if and only if none was ever registered or one still is |
| SrvRefinement.FlagOutlivesItsRoutes | internal/task/impl/repo/mysql/task_srv_repo.go:137-141 | a concrete run after which the flag stands although no live route is health-checked |
| SrvQueries.DiscoverIsLookup | internal/registry/registry.go:61-78 | Discover fails exactly on unknown names and otherwise returns the registry's routes of the name |
| SrvQueries.RoutesOfListRegistry | internal/task/impl/repo/mysql/task_srv_repo.go:277-303 | the routes built for a server list the plain registry's entries of its name, each once |
| SrvQueries.ByIdsLosesNone | internal/task/impl/repo/mysql/task_srv_repo.go:217-227 | the limit of len(ids) loses no server: the query returns a server if and only if it was asked for and is live |
| SrvQueries.LiveSrvHasRoutes | internal/task/impl/repo/mysql/task_srv_repo.go:147-153 | a live server is never returned without routes |
| SrvRepo.TaskSrvRepo.AddSrvRoutes | internal/task/impl/repo/mysql/task_srv_repo.go:21-98 | the imperative method changes the tables as the one-step specification says |
| SrvRepo.TaskSrvRepo.DelSrvRoutes | internal/task/impl/repo/mysql/task_srv_repo.go:100-167 | likewise for the deletion, with its not-found error |
| SrvRepo.TaskSrvRepo.GetSrvs | internal/task/impl/repo/mysql/task_srv_repo.go:229-306 | the two queries and the grouping map yield the plain selection: live servers, each with all its live routes, or for a health query only the health-checked ones, column by column, each once and no other |
| SrvRepo.TaskSrvRepo.GetSrvsByIds | internal/task/impl/repo/mysql/task_srv_repo.go:217-227 | the selection by ids |
| SrvRepo.TaskSrvRepo.GroupBySrv | internal/task/impl/repo/mysql/task_srv_repo.go:290-293 | each server is mapped to exactly its fetched routes, in fetch order |
| RegistryService.Registry.RegisterTaskCallbackSrv | internal/apihandler/service/service.go:87-97 | one route is added to the plain registry and the invariants stay |
| RegistryService.Registry.UnregisterTaskCallbackSrv | internal/apihandler/service/service.go:99-119 | exactly the route at the address leaves the plain registry; the call fails exactly on unknown names |
| RegistryService.Registry.RoutesAt | internal/apihandler/service/service.go:106-111 | picks exactly the routes at the address |
| RegistryService.Registry.CheckSrv | internal/registry/registry.go:229-243 | a check worker removes exactly the addresses whose routes did not answer, and nothing of an unknown server |
| RegistryService.Registry.HealthCheck | internal/registry/registry.go:97-132 | over a table that stays still the offset sweep ends and sends exactly the flagged servers with their health-checked routes only, and nothing when not master |
| RegistryService.HealthCoverage | internal/task/impl/repo/mysql/task_srv_repo.go:247-303 | that list holds every flagged live server exactly once, each with exactly its live health-checked routes, and misses none |
| RegistryService.CheckRemovesOnlyChecked | internal/registry/registry.go:229-243 | a check of a sent server, on whatever the tables have become since, removes exactly the routes that did not answer, all of which were health-checked entries at the sweep; over tables that stay still no entry without health checks is removed |
| RegistryService.RunIsLater | internal/task/impl/repo/mysql/task_srv_repo.go:47-80 | every sequence of calls leads to tables that the check theorem speaks of |
| RegistryService.LateCheckRemovesUnchecked | internal/registry/registry.go:229-243 | a sequence of calls after which the check of an earlier sweep removes an entry that is no longer health-checked |

## Left out

- HTTP server, client, routing, reflection, JSON, validators, loggers, tracing and configuration: plumbing over libraries.
- Leader election and the distributed mutex: external libraries; a node may be master at any time.
- Cron parsing: an external library; the calendar stands for what it answers.
- `DelTasks`, `DelLogs`, the stream query and the maintenance tool: bulk deletes outside the protocol.
- `GetTaskById`: no part of the system calls it.
- The lookup of the server by its name before `AddTask`: an add may name any server id, live or not.
- `SetSrvRoutesPassHealthCheck`, `checked_health_at`, `created_at`, `updated_at`, `callback_err` and the request and response snapshots: written, but read by nothing that is modelled.
- Probing inside `HeartBeat`: its goroutines share variables; any subset of the probed routes may come back as not answering.
- `Registry.Stop` and the registry's scheduler: it sets the pause flag before its scheduler has left, so the drain statements of the worker engine do not carry over.
- Callback timeouts and `MaxRunTimeSec`: not carried through `TimeoutTasks`.
- Decimal printing and parsing of ids: natural numbers stand for them; 0 stands for the empty cursor.
- Machine integers: times and counters are unbounded; only the largest value of `allow_max_run_times` is kept.
- RunLog.TaskLogRepo.SaveTaskCallbackLog: does not model callback_err, nor the snapshots; nothing that is modelled reads them.
- SrvRepo.TaskSrvRepo.GetSrvs: does not model the option on the time of the last health check, which no caller sets.
- ClusterTheorems.PoolNeverLosesWorker: does not model the two reads of a join, nor the statements of a registry call, apart; `SplitReads` does.
- SrvStatements.TwoCallsKeepInvIff: two calls that run to their ends; calls that end with an error, and more than two at once, are in `SplitReads`, which needs no registry invariant.
- TaskRepository.TaskRepo.AddTask: does not model other calls between its two statements; `SelectTask`, `StoreTask` and `Cluster` do.
- TaskRepository.TaskRepo.LockTask: the task is a value, so the increment of its run number is a second result instead of an update in place.
- Engine.InvKept: the goroutines are steps of a state machine over values, not methods of a class, because a method cannot stop halfway; the counter, the flag and the channel are fields of its state.
- Sweep.Sched.Schedule: a send on the channel is recorded in `sent`; that it blocks until a worker receives is part of `Engine`.
- RegistryService.Registry.HealthCheck: the table does not change during the sweep; with an offset, a sweep over a changing table can skip servers.

# A verified model of the task-coordination kernel

This project models the code in which many workers, one supervisor, one scheduler and a human change
shared rows concurrently, and proves what that code promises over every run. The Postgres tables are
values (maps, sequences, an append-only log) that classes hold as fields; one committed transaction is one
atomic step; an interleaving is a sequence of such steps; the clock never goes back.

`dafny verify dfyconfig.toml` checks the whole project.

## How it is laid out

* **Task rows.** `Lifecycle.dfy` holds the nine states, the legal hops and the trail of a task.
  `Tables.dfy` gives the tables as one value and each transaction as a function on it. `TaskStore.dfy` is
  the code itself: a class whose methods change the rows in place, each proved to do exactly its transaction
  and to write exactly the columns, trail rows and events its contract lists, down to the sweep loop, the resume
  loop and the worker's attempt loop. `Studio.dfy` interleaves the transactions and shows that each operation
  leaves statuses alone, creates one row or makes exactly one hop.
* **Theorems over runs of the task rows.** `Trail.dfy` (replay, legality, absorption), `Dependencies.dfy`
  (no self-made deadlock, the merge gate), `Ladder.dfy` (what the retry counters mean), `Recovery.dfy` (a silent
  task that is offered, waited for and swept ends), `Worker.dfy` (the work loop alone and under interference),
  `Decisions.dfy` (when open decisions and parked tasks stay paired, among running work loops too).
* **`Acyclicity.dfy`**: the three-colour search over a plan, against the absence of closed walks.
* **`Approvals.dfy`**: one-shot grants, for any number of workers and humans, and the choke point that
  consumes them.
* **Budgets.** `BudgetGate.dfy` is the verdict on one row, `BudgetTable.dfy` the gate and the release as a
  class, `BudgetProtocol.dfy` the reservation protocol with `enforce` split at its lock while other calls
  record their spend, `BudgetRecap.dfy` the same with caps that change during the run.
  `BudgetTable.UninterruptedEnforce` connects the class's gate with the protocol.
* **`Dispatch.dfy`**: sequence numbers drawn at insert and visible at commit, the consumer's bounded
  overlap, idempotence and page limit. `StuckSignals.dfy` proves of the kernel what it assumes of the log.
* **`RateLimiter.dfy`**, **`Wilson.dfy`**, **`SkillVerdicts.dfy`**, **`GraceWindow.dfy`**: the token bucket,
  the score interval, the keep / revise / retire verdict on it, and the reconnect grace window. `Rounding.dfy` is
  Python's `round`, which the reported numbers go through.

## What turned out not to hold, and exactly when it does

* **A full overlap stalls the dispatcher.** The documentation promises that a late commit within the lookback is
  recovered. The pass moves its cursor if and only if the overlap holds fewer stuck events than a page
  (`CursorMovesExactly`). A fresh process that finds more than 200 stuck events in its first 1000 numbers reads
  the same page for ever (`BacklogNeverDrains`). Where every window is sparser than a page, an event is recovered if
  and only if its number is above the cursor less the lookback (`DispatchedExactly`).
* **A worker's late hop can reopen a task parked on a decision.** The hops of the work loop carry no source guard.
  `LateRetryReopensParkedTask` is a run of two work loops on one task, with no bare hop but their own, in which the
  second loop's retry reopens it. `WorldsStayPairedExactly` says, for every interleaving, that the pairing holds throughout if and
  only if no loop retries or drops, and nobody else moves, a task that awaits an open decision at that moment.
* **The merge gate is in `grab_task`'s query only.** `transition` does not check it: `BareClaimBreaksGate` is a run in
  which a bare claim starts a task with an unmerged prerequisite. `WorkStandsOnMergedPrerequisites` says that the gate
  holds throughout an unforced run if and only if each bare claim that moves hits a task ready in that state. Outside
  the demo the one bare claim is the PM's pickup of a request (runtime/roles/pm.py:1545-1565); requests as submitted
  today name no prerequisites, so nothing in the repository makes the failing call.
* **A cap given or taken away while calls are in flight breaks exact accounting.** The release takes the estimate off
  rows that the gate had skipped. `CapGivenMidFlight` is the shortest case; `ReservationsStayExactExactly` says that
  the reservations are exact at every moment if and only if no row gets or loses its cap while a call on it is in
  flight with a nonzero estimate.
* **The reported Retry-After can be too short.** It is rounded to three places. With 30 a minute and a burst of one, a
  call at 0.7656 is told 1.234 seconds and is refused again when it has waited so long (`RoundedReportFallsShort`).
  `ReportSufficesExactly` says that the report is enough if and only if the need is at most a second or rounding did
  not lower it; it is never short by more than half a millisecond (`ReportIsClose`).

## Model

| member | source | states |
|---|---|---|
| Lifecycle.TerminalExactlyWhenStuck | runtime/task_state.py:44-83 | A state is terminal iff it has no legal hop; every other state can be dropped. |
| Lifecycle.LegalByKind | runtime/task_state.py:51-83 | A hop is legal iff it is one step along the lifecycle, a drop, a park or failed review or the way back from it, or the requeueing of a claimed, running or parked task. |
| Lifecycle.WorkImpliesClaim | runtime/task_state.py:51-83 | A legal trail that ends outside the pool and outside abandoned contains a claim. |
| Lifecycle.MergedTrailShape | runtime/task_state.py:51-83 | A legal trail ending merged ends in_progress, ready_for_review, approved, merged, with a claim before. |
| Acyclicity.Search.Visit | runtime/task_state.py:135-146 | Terminates on fewer white nodes; a normal return blackens the node and keeps prerequisites first, a reported path is real. |
| Acyclicity.AssertAcyclic | runtime/task_state.py:125-149 | Returns normally iff the plan (prerequisite-only nodes included) has no closed walk; then with a topological order; a reported path closes on itself. |
| Acyclicity.ScheduleImpliesAcyclic | runtime/task_state.py:125-149 | A plan with a schedule that puts prerequisites first has no cycle. |
| Acyclicity.ClosingPathHasCycle | runtime/task_state.py:141-145 | A path whose last node is already on it contains a closed walk. |
| TaskTables.TaskStore.Transition | runtime/tasks.py:219-343 | The guarded writer: missing row, source guard, no-op and illegal hop change nothing, each with its reply; otherwise the row, one trail row and the events change together. |
| TaskTables.TransitionTells | runtime/tasks.py:258-343 | The same of the transaction, case by case. |
| TaskTables.TaskStore.EnqueueTask | runtime/tasks.py:349-408 | A self-dependency raises and changes nothing; otherwise a pooled row with all the prerequisites and the priority asked for, no claim, zero counters, last in creation order, with its event; no other row changes. |
| TaskTables.Pick | runtime/tasks.py:463-490 | Under the default order, the claimable row of highest priority, oldest first, among the eligible ones; None iff there is none. |
| TaskTables.First | runtime/tasks.py:485-497 | In a given order, the first claimable eligible row; None iff there is none. |
| TaskTables.TaskStore.GrabTask | runtime/tasks.py:433-504 | Claims for the worker the first ready eligible row, in the order of the caller's sort, or by default the one of highest priority, oldest first; None changes nothing and means quarantined or nothing ready. |
| TaskTables.TaskStore.StartTask | runtime/tasks.py:507-521 | Moves a claimed task to in_progress with heartbeat and progress stamped and nothing else changed, else nothing. |
| TaskTables.TaskStore.Heartbeat | runtime/tasks.py:554-585 | Iff the worker holds the claim of a held task: refreshes its heartbeat, clears its nudge, and logs nothing. |
| TaskTables.TaskStore.CompleteTask | runtime/tasks.py:591-644 | A success from in_progress ends merged through ready_for_review and approved with the result set, in exactly three hops and one task.finished; a failure drops any unfinished task the guard admits in one hop; a guard that does not match and a non-terminal target change nothing. |
| TaskTables.SuccessTells | runtime/tasks.py:623-636 | When a success moves, and its three hops. |
| TaskTables.DropTells | runtime/tasks.py:637-642 | When a drop moves, and its one hop. |
| TaskTables.TaskStore.BlockTask | runtime/tasks.py:650-667 | Parks an in_progress task on the approval, else nothing. |
| TaskTables.TaskStore.RequeueBlockedTask | runtime/tasks.py:670-680 | Requeues a blocked task with its claim cleared, else nothing. |
| TaskTables.TaskStore.NudgeTask | runtime/tasks.py:1024-1053 | Nudges a held, not yet nudged task once. |
| TaskTables.TaskStore.RekickTask | runtime/tasks.py:1056-1120 | Requeues a held task, counts the retry and the progress, logs it; anything else changes nothing. |
| TaskTables.TaskStore.EscalateStuckTask | runtime/tasks.py:1123-1179 | Stamps the reason, drops the held task and emits task.stuck. |
| TaskTables.TaskStore.FailExhausted | runtime/supervisor.py:175-222 | Drops a held task that is out of retries and logs it. |
| TaskTables.TaskStore.HandleRow | runtime/supervisor.py:283-350 | One scanned row climbs exactly the rung its precedence gives, and lands in that rung's list, and no other, iff the write moved it or it was deferred. |
| TaskTables.TaskStore.Sweep | runtime/supervisor.py:243-353 | An uninterrupted sweep of all stale rows is the run of a scan and its handlings, and each action list holds exactly the rows that climbed its rung, in scan order. |
| TaskTables.SweepPrefix | runtime/supervisor.py:283-350 | After i rows the sweep has made the first i + 1 operations of its run. |
| Studio.RecoverTouchesOne | runtime/supervisor.py:283-350 | Handling a row changes no other row, not the clock and not the decisions, and nothing at all of a row that is not held. |
| TaskTables.RowClimbsItsRung | runtime/supervisor.py:283-350 | A scanned row is in the list of its own rung and in no other. |
| TaskTables.RowsClimbOnce | runtime/supervisor.py:283-350 | No list names a row twice. |
| TaskTables.CurrentRowMoves | runtime/supervisor.py:283-350 | Handling a held row as it is now moves it, unless it is deferred. |
| TaskTables.TaskStore.RequestDecision | runtime/decisions.py:132-217 | Parks the dependent task and records the open decision together; a park that does not move raises and leaves nothing. |
| TaskTables.TaskStore.CloseDecision | runtime/decisions.py:220-311 | Closes an open decision and requeues its task; a settled or unknown one changes nothing. |
| TaskTables.TaskStore.ResumeTask | runtime/worker.py:1559-1589 | A task parked on an approval is requeued with its claim cleared and reported when granted, dropped when denied; anything else leaves the tables as they are. |
| TaskTables.ResumeTells | runtime/worker.py:1559-1589 | The same of the transaction, from the approvals table. |
| TaskTables.TaskStore.ResumePass | runtime/worker.py:1535-1590 | A pass requeues and reports exactly the tasks whose approval is granted, drops exactly those whose approval is denied and leaves every other row. |
| TaskTables.ResumeIsLocal | runtime/worker.py:1559-1589 | What happens to a parked row depends on that row and its approval only. |
| TaskTables.TaskStore.Conclude | runtime/worker.py:558-623 | From the verdict to the next attempt or the end, as the work loop's view says; no other row changes. |
| TaskTables.TaskStore.Attempt | runtime/worker.py:522-623 | One attempt of the work loop changes its own row only, as the step-by-step program's attempt does; the holder's heartbeat is refreshed and an open nudge closed. |
| TaskTables.TaskStore.HandleWork | runtime/worker.py:488-623 | The loop over attempts computes what the step-by-step program computes and changes no other row. |
| Studio.OpShape | runtime/tasks.py:258-343 | Every operation of the kernel leaves all statuses alone, creates one row, or makes exactly one hop, legal unless forced. |
| Trail.StepKeepsTrail | runtime/tasks.py:297-343 | Each operation keeps trail, event log and statuses in step. |
| Trail.RunsAreChained | runtime/tasks.py:258-343 | In every run, forced or not, the trail table is the log's transition events and replays to every status. |
| Trail.ReplayYieldsStatus | runtime/tasks.py:258-343 | Replaying a task's events from up_for_grabs yields its status and its trail rows, hop by hop. |
| Trail.UnforcedTrail | runtime/tasks.py:258-343 | In unforced runs every hop is legal, task.finished occurs once iff terminal, and merged tasks have the one merged history. |
| Trail.TerminalAbsorbs | runtime/task_state.py:44-83 | Once terminal, an unforced run changes neither status nor trail. |
| Dependencies.RunsAreWellFounded | runtime/tasks.py:349-408 | In every run existing prerequisites are older than their dependents. |
| Dependencies.SomeoneCanAct | runtime/tasks.py:463-490 | From a pooled task a chain of prerequisites leads to one that is ready, in flight or abandoned. |
| Dependencies.QueueNeverDeadlocks | runtime/tasks.py:463-490 | The same in every reachable state: the queue never deadlocks itself. |
| Dependencies.ReadyAndWaitingPartition | runtime/tasks.py:730-810 | ready_tasks and waiting_tasks partition the pool. |
| Dependencies.WorkStandsOnMergedPrerequisites | runtime/tasks.py:433-504 | Without override, at every prefix of a run every started task has its existing prerequisites merged and each merge precedes the claim, iff each bare claim that moves hits a ready task. |
| Dependencies.WorkWaitsForItsPlan | runtime/tasks.py:376-399 | In every run a task keeps exactly the prerequisites and priority it was enqueued with, and from its claim on every existing one of them is merged, as long as bare claims hit ready tasks only. |
| Dependencies.DoomPersists | runtime/tasks.py:769-810 | A pooled or dropped task with an abandoned prerequisite stays so and is never claimed, as long as bare claims hit ready tasks only. |
| Dependencies.ReportedExactlyDoomed | runtime/tasks.py:769-810 | blocked_by_abandoned is reported iff a pooled task has an abandoned prerequisite. |
| Dependencies.BlockedByAbandonedNeverClaimed | runtime/tasks.py:769-810 | A task reported blocked_by_abandoned is never claimed afterwards, as long as bare claims hit ready tasks only. |
| Dependencies.BareClaimKeepsGateIffReady | runtime/tasks.py:258-343 | A claim by bare transition that moves keeps the merge gate iff the task was ready. |
| Dependencies.StepKeepsGateIff | runtime/tasks.py:433-504 | An operation without override keeps the gate iff it is not a bare claim of an unready task. |
| Dependencies.BareClaimBreaksGate | runtime/tasks.py:258-343 | A run in which the guarded transition alone claims a task with an unmerged prerequisite. |
| Ladder.StepKeepsLadder | runtime/tasks.py:1056-1179 | Every operation keeps the counters equal to what the log says and each signal justified. |
| Ladder.CountersTellTheLog | runtime/supervisor.py:310-350 | In every run no_progress_rekicks <= retries <= max_retries, retries counts task.rekicked, and no_progress_rekicks is the trailing idle run. |
| Ladder.StuckMeansNoProgress | runtime/supervisor.py:310-330 | Each task.stuck comes after at least stuck_threshold consecutive re-kicks without progress. |
| Ladder.ExhaustionNeedsProgress | runtime/supervisor.py:310-350 | With stuck_threshold <= max_retries, only a task that made progress can end by exhaustion. |
| Ladder.RungExactly | runtime/supervisor.py:283-350 | Each rung as an iff over the nudge, the grace and the two counters. |
| Ladder.HandledRowClimbs | runtime/supervisor.py:283-350 | What a held row is after its rung, column by column, and the events that tell of it. |
| Ladder.SilentStep | runtime/supervisor.py:283-350 | Any operation leaves a silent task's row alone or lowers its measure. |
| Ladder.SilentTaskTerminates | runtime/supervisor.py:283-350 | A silent task changes at most 4 * (max_retries + 1) times and is terminal when it has. |
| Ladder.StaleTaskMoves | runtime/supervisor.py:283-350 | Handling a stale task past its grace always changes its row. |
| Recovery.SweepLowers | runtime/supervisor.py:283-350 | A full sweep of a task that is stale and past its grace brings it closer to its end. |
| Recovery.RoundLowers | runtime/supervisor.py:243-353 | A round of offering, waiting and sweeping brings a silent task closer to its end. |
| Recovery.SilentTaskEnds | runtime/supervisor.py:243-353 | After 4 * (max_retries + 1) such rounds a silent task is terminal. |
| Ladder.TouchedRowIsFresh | runtime/models.py:190-213 | A claim, a start and a heartbeat each keep the task from being stale for the whole threshold. |
| Ladder.HeartbeatRestartsLadder | runtime/tasks.py:554-585 | A heartbeat after a nudge restarts the ladder: next time the task is nudged and waited for before any re-kick. |
| Decisions.ClosingResumes | runtime/decisions.py:220-311 | Closing settles the decision, requeues its task with the claim cleared, and touches nothing else. |
| Decisions.StepKeepsPairsIff | runtime/decisions.py:173-217 | An operation keeps decisions and parked tasks paired iff it is not a bare hop that moves a task awaiting an open decision. |
| Decisions.RunsStayPairedExactly | runtime/decisions.py:173-217 | Every prefix of a run has each open decision's task blocked and stamped with it, iff no operation, in the state where it is issued, is a bare hop moving a task that awaits an open decision. |
| Decisions.OpenDecisionsDisjoint | runtime/decisions.py:173-217 | No two open decisions share a task, in every run without such a hop. |
| Decisions.BareHopKeepsPairsIff | runtime/worker.py:545-611 | A bare hop keeps the pairing iff the task awaits no decision or the call could not move a blocked task. |
| Decisions.WorkKeepsPairsIff | runtime/worker.py:524-611 | A step of the work loop keeps the pairing iff it is not a retry or drop hop on a task that awaits an open decision. |
| Decisions.WorldsStayPairedExactly | runtime/worker.py:524-611 | Among any number of running work loops and everything else, every prefix is paired iff no loop retries or drops, and nobody else moves, a task that awaits an open decision at that moment. |
| Decisions.LateRetryReopensParkedTask | runtime/worker.py:524-603 | A run of two work loops on one task, all hops their own, in which the late retry of one reopens the task while a decision on it is open. |
| Worker.StepIsSeen | runtime/worker.py:522-623 | Each transaction of the work loop acts on its task's status and result as the view says, and on no other row. |
| Worker.PhasesHeartbeat | runtime/worker.py:522-556 | Before executing, before submitting and after the verdict the loop heartbeats: while it holds the task this keeps it from being stale for the whole threshold and closes a nudge. |
| Worker.AttemptByAttempt | runtime/worker.py:522-623 | The step-by-step program runs one attempt after the other. |
| Worker.AttemptsAreSteps | runtime/worker.py:522-623 | The attempt loop and the step-by-step program agree for all answers. |
| Worker.WorkAlone | runtime/worker.py:522-623 | Alone, the loop ends as the first deciding answer says, after one verification per completed attempt. |
| Worker.HandledAlone | runtime/worker.py:488-623 | Alone: never an illegal hop, at most max_attempts verifications; merged iff the last verdict passed, abandoned iff all failed, blocked iff an execution pended. |
| Worker.NoMergeWithoutPassingVerdict | runtime/worker.py:546-623 | Under any interference a task only such workers approve or merge is never merged without a passing verdict. |
| Worker.MergeFollowsPassingVerdict | runtime/worker.py:546-560 | And that verdict was given by a verifier earlier in the run. |
| Approvals.StepKeepsSound | runtime/enforce.py:197-238 | Each step of any worker or human keeps grants, workers and executions accounted for. |
| Approvals.ExecutionsNeverExceedApprovals | runtime/enforce.py:197-238 | Per action, executions <= consumed rows <= approvals given, in every interleaving. |
| Approvals.EachGrantBacksOneExecution | runtime/approvals.py:307-329 | Each grant backs at most one execution, of its own action, only after a human approved that row while it was pending and a worker consumed it. |
| Approvals.GrantsAreApproved | runtime/approvals.py:233-267 | A granted or consumed row had a human's yes while it was pending. |
| Approvals.DeniedNeverExecutes | runtime/approvals.py:233-267 | A row a human denied stays denied and nothing is ever executed on it. |
| Approvals.CrashSpendsTheGrant | runtime/enforce.py:197-238 | A worker that dies between consuming a grant and executing spends it: nothing is ever executed on it. |
| Approvals.OneOpenRowPerAction | runtime/approvals.py:170-230 | At most one pending-or-granted row per action. |
| Approvals.Decide | runtime/policy.py:204-257 | Allow iff granted, within budget and not red; deny iff a capability is missing. |
| Approvals.ApprovalStore.RequestApproval | runtime/approvals.py:170-230 | Returns the open row of the action, creating one iff there is none. |
| Approvals.ApprovalStore.ResolveApproval | runtime/approvals.py:233-267 | Settles a pending row once; anything else changes nothing. |
| Approvals.ApprovalStore.ConsumeGrant | runtime/approvals.py:307-329 | Spends a granted row once; anything else changes nothing. |
| Approvals.ApprovalStore.Invoke | runtime/enforce.py:138-268 | Logs the decision first; a gated call runs iff a grant for this action exists, which it consumes; otherwise it leaves one open request and its event, or without a connection only the event. |
| Approvals.UninterruptedInvoke | runtime/enforce.py:197-238 | What an uninterrupted invoke does to the rows and executions is what its worker does in the interleaved protocol. |
| BudgetGate.OverMeansCapCrossed | runtime/budget.py:236-295 | Zone over iff some configured cap would be crossed by spent + reserved + estimate. |
| BudgetGate.LetThroughMeansRoom | runtime/budget.py:255-295 | A row lets a call through only within every cap, and a normal one only below the reserve threshold of every positive cap. |
| BudgetGate.ZoneExactly | runtime/budget.py:255-295 | Each zone as an iff: the hard caps first, then the strictest configured threshold some positive cap has reached. |
| BudgetGate.AdmissibleExactly | runtime/budget.py:1001-1016 | A call is admitted iff every capped row of its workstream and of the org has room for it, a normal one below the reserve. |
| BudgetGate.NormalBlockedExactly | runtime/budget.py:255-295 | A row refuses a normal call iff a cap would be crossed or a positive cap reaches its reserve threshold. |
| BudgetGate.BufferLetsThrough | runtime/budget.py:1011-1016 | A wind_down or escalation call within every cap is not refused. |
| BudgetGate.ReleaseUndoesReserve | runtime/budget.py:884-892 | Releasing what was just reserved restores every capped row; a tracking-only row iff its cushion or the estimate is zero. |
| BudgetTable.LockOrderCovers | runtime/budget.py:964-974 | The locked rows are exactly the workstream's allocations and the org ceilings. |
| BudgetTable.Budgets.Entries | runtime/budget.py:974-999 | One status per capped locked row, none for tracking-only rows. |
| BudgetTable.Budgets.FirstIn | runtime/budget.py:1011-1016 | The first entry in a zone, in the order given. |
| BudgetTable.OwnPrecede | runtime/budget.py:1005-1010 | Own allocations are looked at before any org ceiling. |
| BudgetTable.Budgets.Blocking | runtime/budget.py:1011-1016 | A blocking entry exists iff some entry refuses the call; it is the first over, else (normal calls) the first in reserve. |
| BudgetTable.Budgets.Decide | runtime/budget.py:1001-1016 | No offending row iff every capped row admits the call; an offending row is named, own allocation before org ceiling. |
| BudgetTable.Budgets.Enforce | runtime/budget.py:896-1117 | Allowed iff admissible, reserving on every capped row; over also leaves one open request to raise the row's budget; over, withheld and a failing sink leave capped cushions as they were. |
| BudgetTable.Budgets.Refuse | runtime/budget.py:1043-1086 | The event of the offending row and, over a cap, the idempotent request to raise its budget. |
| BudgetTable.Budgets.Announce | runtime/budget.py:1095-1116 | One event per entry; an emit that raises releases the reservation first. |
| BudgetTable.Budgets.ReleaseReservation | runtime/budget.py:855-893 | Takes the estimate off every touched row, floored at zero. |
| BudgetTable.UninterruptedEnforce | runtime/budget.py:962-1031 | Lock, read each row, decide, without interference, is exactly the gate's verdict and reservation. |
| BudgetTable.UninterruptedCall | runtime/budget.py:855-1031 | The whole life of an admitted call: it reserves, its spend is in the log, the reservation is returned; an aborted one spends nothing. |
| BudgetTable.CapGivenMidFlight | runtime/budget.py:884-892 | A cap given while a call is in flight keeps the cushion right iff one of the two calls estimated nothing in each column. |
| BudgetRecap.StepKeepsExactIff | runtime/budget.py:386-432 | A budget change keeps the reservations exact iff it does not flip a row's cap while a call on it is in flight with a nonzero estimate. |
| BudgetRecap.ReservationsStayExactExactly | runtime/budget.py:386-432 | In every interleaving of calls and budget changes the reservations are exact at every moment iff no change does so. |
| BudgetRecap.CapGivenInFlightUnsettles | runtime/budget.py:386-432 | A run in which a cap is given while a call is in flight, and the accounting is off. |
| BudgetRecap.BudgetTakesEffect | runtime/budget.py:386-432 | An upsert waits only for a call that holds its row; a new row has nothing reserved. |
| BudgetProtocol.ExposureStep | runtime/budget.py:954-1031 | A row's exposure never rises except at an admission, and then not above the value the gate compared. |
| BudgetProtocol.LockedRowsKeepCushion | runtime/budget.py:962-974 | While a call holds the lock nobody else reserves or releases on its rows. |
| BudgetProtocol.InvStep | runtime/budget.py:954-1031 | Every step keeps the cushions exact, the readings covering and the locks exclusive. |
| BudgetProtocol.ReservationsAreExact | runtime/budget.py:1017-1031 | On every capped row the cushion is the sum of estimates of admitted, unreleased calls, so the zero floor never bites. |
| BudgetProtocol.CapHoldsInEveryRun | runtime/budget.py:954-1031 | Spend plus unrecorded estimates <= max(cap, initial spend) plus recorded overruns, in every interleaving; without overruns the cap is never crossed. |
| BudgetProtocol.SpendIsWhatCallsCharged | runtime/budget.py:836-852 | Within a window a row's spend grows by exactly what the calls on it recorded, released or not. |
| BudgetProtocol.CapBoundsCharges | runtime/budget.py:954-1031 | So the cap bounds the charges themselves: initial spend plus charges plus unrecorded estimates <= max(cap, initial spend) plus overruns. |
| BudgetProtocol.NewWindowIsEmpty | runtime/budget.py:836-852 | A window that starts after every recorded call starts empty, with the reservations as they were. |
| BudgetProtocol.NormalCallsLeaveTheBuffer | runtime/budget.py:1011-1031 | After settled normal calls within their estimates, spend is below the reserve threshold and nothing is reserved. |
| BudgetProtocol.BufferServesWindDown | runtime/budget.py:1011-1031 | Then a wind_down or escalation call of at most (1 - reserve_frac) * cap is not blocked by the row. |
| Dispatch.PageIsEarliest | runtime/events.py:151-171 | A read returns the earliest visible events past its bound and omits one only when full of earlier ones. |
| Dispatch.OneReplanPerStuckTask | runtime/scheduler.py:111-174 | Through crashes and restarts no stuck task gets two replans, and only stuck tasks get one. |
| Dispatch.PassCovers | runtime/scheduler.py:155-174 | With room for the overlap a pass handles every visible event up to its new cursor, which never goes back. |
| Dispatch.NothingIsLost | runtime/scheduler.py:155-174 | In every timely run, after a pass every visible stuck event at or below the cursor has its replan. |
| Dispatch.CursorMovesExactly | runtime/scheduler.py:155-174 | The cursor moves iff the overlap leaves room and something lies beyond; then less lies beyond. |
| Dispatch.DispatchedExactly | runtime/scheduler.py:94-109 | With sparse windows and no new commits, an event ends with its replan iff it had one or is above cursor minus lookback. |
| Dispatch.LateCommitIsRecovered | runtime/scheduler.py:94-109 | An open event is not read; its commit above the lower bound is replanned by the next pass with room; a rollback burns its number. |
| Dispatch.DrawIsInvisible | runtime/events.py:73-98 | An insert draws the next number and changes no read. |
| Dispatch.RestartRecoversTheLost | runtime/scheduler.py:94-109 | After a restart, with room for all stuck events, the next pass replans even those the lookback had passed by. |
| Dispatch.EachPassDispatches | runtime/scheduler.py:155-174 | In timely runs without restart or crash each pass lowers the number of undispatched events until none remain. |
| StuckSignals.StuckAtMostOnce | runtime/tasks.py:1123-1179 | In every unforced run a task has at most one task.stuck event, and none while it is not terminal. |
| StuckSignals.KernelIsOncePerTask | runtime/tasks.py:1123-1179 | So the dispatcher's log, whatever has committed so far, has at most one stuck event per task. |
| Dispatch.FullOverlapStalls | runtime/scheduler.py:155-174 | An overlap that fills the page keeps the cursor for ever and nothing beyond it is dispatched. |
| Dispatch.BacklogNeverDrains | runtime/scheduler.py:188-220 | A fresh scheduler with more than limit stuck tasks, limit <= lookback, never dispatches the next one. |
| Dispatch.ProductionBacklog | runtime/scheduler.py:188-220 | With the production limits, any backlog of more than 200 stuck tasks does that. |
| Dispatch.Scheduler.ReadStuck | runtime/events.py:101-171 | The page of the commit-safe read. |
| Dispatch.Scheduler.DispatchReplans | runtime/scheduler.py:124-174 | The loop enqueues one replan per unserved event and returns the high-water mark; an exception leaves the prefix dispatched. |
| Dispatch.Scheduler.Turn | runtime/scheduler.py:188-220 | One turn of the loop is a pass, or a crashed pass that leaves the cursor. |
| GraceWindow.DeferredExactlyAfterRecovery | runtime/supervisor.py:359-415 | Sweeping is deferred iff some reconnect after a known outage is less than the grace period old. |
| GraceWindow.GraceTracker.Poll | runtime/supervisor.py:399-409 | The answer and the self-clearing of the window. |
| GraceWindow.GraceTracker.NoteConnected | runtime/supervisor.py:389-397 | Arms the window iff recovering from a known outage. |
| RateLimiting.LimitsOf | gateway/auth.py:256-266 | The rate is the configured one per minute, never negative; the burst the configured one, at least one. |
| RateLimiting.WindowIsPaidFor | gateway/auth.py:268-282 | What is admitted in a window plus what the bucket holds is at most one burst plus the refill. |
| RateLimiting.AdmissionsAreBounded | gateway/auth.py:268-282 | At most burst + rate * T admissions of an identity in any stretch of T seconds. |
| RateLimiting.AdmittedExactly | gateway/auth.py:268-282 | A call is admitted iff it keeps every stretch that ends with it within one burst and its refill. |
| RateLimiting.SpacedCallIsServed | gateway/auth.py:268-282 | A call at least 1/rate after its identity's earlier ones is never refused. |
| RateLimiting.AdmittedFromNeedOn | gateway/auth.py:277-280 | A refused identity is admitted again exactly from its need on, if nothing of its own comes in between. |
| RateLimiting.NoRefillNeverReadmits | gateway/auth.py:275-280 | Without a refill a refused identity stays refused and is told sixty seconds. |
| RateLimiting.ReportSufficesExactly | gateway/auth.py:277-280 | Waiting the reported seconds is enough iff the need is at most a second or rounding did not lower it. |
| RateLimiting.ReportIsClose | gateway/auth.py:277-280 | The report is short by at most half a millisecond, and long by more only as the one-second minimum. |
| RateLimiting.RoundedReportFallsShort | gateway/auth.py:277-280 | An input whose reported wait is too short. |
| RateLimiting.RefusalIsFree | gateway/auth.py:276-277 | A refused call leaves every later level as if it had not been made. |
| RateLimiting.IdentitiesAreIndependent | gateway/auth.py:268-282 | An identity's verdicts depend on its own calls only. |
| RateLimiting.RateLimiter.CheckAt | gateway/auth.py:268-282 | The in-place check updates the bucket and answers as specified, the report rounded to three places. |
| Wilson.ScoreIsThePlausibleSet | runtime/quality.py:113-122 | The clamps never bite, the bounds are the two roots of the score equation, and the interval is exactly the set the score test does not reject. |
| Wilson.ScoreHoldsTheEstimate | runtime/quality.py:96-122 | The interval contains k/n. |
| Wilson.ScoreMirrors | runtime/quality.py:96-122 | Swapping successes and failures mirrors the interval. |
| Rounding.Round4KeepsOrder | runtime/quality.py:122-122 | Half-even rounding to four places never reorders. |
| Rounding.RoundExactly | runtime/quality.py:122-122 | The rounded integer is the nearest one and, of two equally near, the even one. |
| Wilson.EntryPointsAgree | evals/stats.py:39-62 | Any count gives an interval inside [0, 1] holding the clamped proportion, all of [0, 1] without a sample; the quality report is its rounding iff the count is in range, absent iff there is no sample, an error otherwise. |
| SkillVerdicts.WorseIsLower | runtime/quality.py:1035-1051 | Separated intervals mean a strictly lower rate, and plausible proportions that do not meet. |
| Rounding.WideGapsSurviveRounding | runtime/quality.py:122-122 | Rounding hides no gap wider than one unit of the fourth place. |
| SkillVerdicts.NeverWorseAndBetter | runtime/quality.py:1035-1051 | Worse and better are never both true. |
| SkillVerdicts.VerdictExactly | runtime/quality.py:1054-1131 | Each verdict as an iff over the samples, the interval ends and the deltas: a confident degradation retires whatever the deltas. |
| SkillVerdicts.VerdictsAreSound | runtime/quality.py:1054-1131 | Retire means both samples suffice and a strictly lower applied rate; keep without exploration benefit a strictly higher one. |
| SkillVerdicts.SwappedRetireKeeps | runtime/quality.py:1054-1131 | Swapping the cohorts of a retired family gives keep. |
| SkillVerdicts.Drive | runtime/quality.py:1168-1177 | The driving family has the strongest concern and, among those, the name that sorts first. |
| SkillVerdicts.LifecycleVerdicts | runtime/quality.py:1134-1200 | One ruling per live skill with its strongest concern and driving family, sorted by skill, and counters that add up. |
| SkillVerdicts.LiveSkillsAreJudged | runtime/quality.py:1134-1200 | Every live skill of the report is ruled on, once per entry, and no other. |
| SkillVerdicts.SortIsAStableSort | runtime/quality.py:1190-1190 | The summary is a permutation of the rulings, sorted by skill, those of one skill in the order made. |
| SkillVerdicts.RetiredSkillHasEvidence | runtime/quality.py:1134-1200 | A retired skill has a family with sufficient samples and a strictly lower applied rate. |

## Left out

- SQL text, psycopg, row parsing, JSON payloads, reconnecting and sleeping: plumbing. A transaction is its atomic effect; taking several row locks is one step.
- The roles, the model calls, the workstream configuration and `task_made_progress`: arbitrary verdicts, outcomes, progress flags, estimates and costs.
- HTTP surfaces, chat, messaging, dashboards, telemetry rollups, migrations, readiness, the demo: I/O and reporting.
- Digests and secrets: a fingerprint is an abstract key that differs for different actions.
- TaskTables.TaskStore.GrabTask: the parsing of sort and filter arguments and the identity lookup; it takes the order the sort gives, the set of rows that pass the filters and a quarantine flag.
- The columns that drive nothing here (agent, workstream, spent_tokens, payload) and `claim_task`, which is `grab_task` followed by `start_task`.
- TaskTables.TaskStore.Sweep: the order by heartbeat in which stale rows come back is an argument; the handlings of one row are atomic.
- Trail.UnforcedTrail: says nothing of `force=True`, which bypasses the legality check by design; ReplayYieldsStatus holds with force too.
- Dependencies.WorkStandsOnMergedPrerequisites: ids without a row hold nothing back, so a fresh id is assumed not to be named by any task yet.
- Worker.NoMergeWithoutPassingVerdict: no ownership of the task is claimed, since worker hops do not check it.
- Liveness of ready_for_review and approved after a crash: the code does not promise it.
- TaskTables.TaskStore.HandleWork: the retrospective and review tasks it enqueues when it ends (runtime/worker.py:569-619), so its contract says that no other row changes.
- TaskTables.TaskStore.Attempt: the same tasks; the clock stands still during an uninterrupted attempt, so its three heartbeats are told apart in Worker.PhasesHeartbeat only.
- TaskTables.TaskStore.Conclude: the same tasks.
- TaskTables.TaskStore.ResumePass: reading a task and its approval and requeueing it is one step.
- The request and lookup of `request_approval` are one serialized step, as its idempotence needs.
- BudgetProtocol.CapHoldsInEveryRun: caps are fixed during the run (BudgetRecap is about the accounting when they are not), windows only move forward, and a call records its spend once.
- BudgetTable.Budgets.Enforce: an invalid purpose, the payload texts and the burn-rate projections; the emit at which the sink fails is one argument.
- BudgetTable.LockOrderCovers: the collation of workstream names is an argument of the lock order.
- Money and rates are reals: floating-point error is not modelled.
- Wilson.ScoreIsThePlausibleSet: the square root is an argument that must be a nonnegative root, which for reals exists.
- SkillVerdicts.LifecycleVerdicts: the reason texts and the efficacy report it reads.
- The recursion limit of the host language in `assert_acyclic`.
- `tick_once`, the trajectory numbers, trust strikes, mode selection, connection backoff and digest batching: each is a local rule that shares no row or counter with what is modelled here.

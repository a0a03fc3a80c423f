# Work-schedule verification

A Dafny 4.11 model of the scheduling system's logic, with proofs. `dafny verify dfyconfig.toml`
checks all of it.

## What is modelled

**The schedule compiler** turns a staffing request into 0/1 and integer variables, linear
constraints and a weighted objective, and reads a schedule back. `Scheduling` and `Costs` say
directly what a legal schedule is and what it costs, without variables or constraints.
`LinearModel` gives linear models and their meaning, `Encoding` the constraint families,
`Builder` the program's loops over a mutable model and its dictionaries, each proved to post
exactly its family. `Reading`, `ReadingLimits` and `ReadingDates` prove what each family means,
`Exactness` that the whole encoding admits exactly the legal schedules, `ObjectiveReading` that
its least objective is the cost, `Dominance` the exchange argument for the unfilled penalty,
`CostFacts` and `CanonicalOrder` what the fair share and the rotation mean, `Solver` the run from
request to result, and `ResultRows` what its rows promise in the request's own fields. The engine is a parameter that must be sound: infeasible means no valuation, feasible
means a valuation, optimal means a least one.

**The queue** (`RedisQueue`) is the Redis main list, processing list, lease and owner hashes, one
function per command, and the in-memory FIFO; `RedisRuns` is about whole operations one after the
other. `QueueProtocol` makes each Redis command and each
database commit one atomic step and lets workers, recoveries, the API and the requeue script
interleave and crash. `QueueAlone` shows that one worker's commands alone are the whole
operations, `QueueEnded` that ended runs stay ended, `QueueResets` gives the guard under which the script's reset is safe,
`LeaseExclusion` is about leases as mutual exclusion, `QueueHazards` holds concrete runs in which
a condition is missing, and `QueueWorker` is one worker from its recovery pass to its last job.

**The run record** (`RunRecord`) is the stored row of a run and the execute, retry, cancel and
requeue operations, with the session's copy, rollback and commit; `RunVerdicts` says what they
store. `RunSessions` lets sessions on
one row overlap: each reads the committed row, and its first write locks the row until it commits.

**The compliance scans** (`Compliance`) are the grouping, sorting and neighbour loops;
`ComplianceMeaning` says what they find without sorting, and ties the rest scan to the rest rule
of solved schedules; `ComplianceReviews` says which rows draw which warning; `ComplianceIdentity`
covers row order, the snapshot and warning identities.

**The shift-type reconciler** (`ShiftSync`, `ShiftPresets`), the table behind the API
(`ShiftTable`, `ShiftTableRuns`) and their convergence (`ShiftConvergence`); **the scenario
drafts** (`DraftText`, `ScenarioDraft`, `EmployeeDraft`, `DraftRows`); **the shift-type import**
(`ShiftImport`, `ShiftBatch`, `ShiftApply`, `ShiftImportOrder`, `ShiftImportContents`,
`ShiftImportErrors`). `Options`, `Sequences`, `Sorting` and `DateRuns` are shared.

## What was found

- "Running" is flushed and never committed, whether sessions overlap or not
  (`RunningIsNeverDurable`, `OverlapKeepsComplete`), and runs are created queued or succeeded. So
  the requeue script never has a stale running row to reset, and no run is stranded
  (`NoStrandedRun`).
- Only in a database that holds a running row from elsewhere could the reset do harm: the script
  pushes its jobs before it commits its resets, and if a worker finishes such a job first, the
  later commit leaves a queued run with no job anywhere (`LateResetStrandsRun`).
  `ResetStrandsIff` gives the exact condition: the stored status is no longer live, and every
  payload of the run that is still anywhere is about to be acknowledged.
- Recovery checks a lease and removes the payload in two commands. Two recoveries that both check
  before either removes can deliver one job to two live workers. `TakeOutBreaksIff` gives the
  exact condition, `ConcurrentRecoveriesBreakExclusion` the run.
- A recovering worker that dies between removing a payload and pushing it back loses the job
  (`CrashWhileHoldingLosesPayload`); the protocol results exclude that crash.
- A retry executes nothing and always succeeds; it keeps the solver status of the failed attempt
  (`RetrySucceedsUncalculated`). It passes no executor, so a rollback never undoes its attempt
  number.
- A cancellation that commits between an execution's read and its first flush is overwritten
  (`CancelSurvivesIff`), and so is one that commits between a rolled-back execution's second read
  and its commit. `CancellationLastsIff` gives the exact condition for any sessions under way.
- Retries that overlap can lower the attempt number (`AttemptLastsIff` gives the exact condition).
- The rotation tie-breaker follows rotation order exactly when there are at most 1000 employees
  or the preferred one is the first in the list (`TieBreakerFollowsTurnsIff`); it fails for a
  request with 1001 (`LongRequestIsNotOrdered`).
- The shift-type API accepts times such as 24:99; the import does not (`ImportTimesAreApiTimes`).
- The infeasible result can occur only for a negative count, cap or limit that applies to
  somebody (`InfeasibleOnlyByNegativeLimit`).

## Reading the model

- Dates are proleptic Gregorian day numbers with day 1 a Monday, so that the ISO week of section
  4.1.4 of ISO 8601:2004 is an index of Monday-anchored weeks. A slot carries its year and month
  as one number. Times are integer seconds in one timezone.
- Identifiers are integers: only their equality and order matter. Dictionary keys made of ids
  appear as the records the ids name; in a well-formed request ids are unique.
- A well-formed request has unique employee, slot and requirement ids, and requirements name
  known slots. Nothing is asked of counts, caps, limits, weights, pairs or targets.
- The engine's answer for an invalid model is covered by its unknown answer, as in the program,
  where both give the failed result.
- The executor of a run is a parameter: it does nothing, raises, or sets status, solver status
  and quality.
- In the drafts, reading and showing numbers is a parameter with one law, that a number that was
  read can be shown and read back. In the import, stripping, lower-casing, reading an integer and
  the value of a decimal digit are parameters; where it matters a single digit reads as its value
  and the empty text as no integer.

## Model

| member | source | states |
|---|---|---|
| `Solver.CompiledIsExact` | src/work_schedule_ai/solver/ortools_solver.py:23-284 | For every well-formed request, listed in any order, a set of (requirement, employee) choices extends to a valuation of everything that is posted exactly when it is a legal schedule by the direct rules |
| `Exactness.EncodingIsExact` | src/work_schedule_ai/solver/ortools_solver.py:65-284 | The same for a request whose slots are already in date order: extends to a valuation if and only if legal |
| `Exactness.ValuationIsLegal` | src/work_schedule_ai/solver/ortools_solver.py:65-284 | Every satisfying valuation chooses a legal schedule |
| `Exactness.LegalHasWitness` | src/work_schedule_ai/solver/ortools_solver.py:65-284 | Every legal schedule extends, by an explicit setting of all auxiliary variables, to a satisfying valuation within all bounds |
| `Exactness.InfeasibleOnlyByNegativeLimit` | src/work_schedule_ai/solver/ortools_solver.py:294-301 | The model has no valuation exactly when some count, cap or limit that applies to somebody is negative |
| `Exactness.FilledPlusMissing` | src/work_schedule_ai/solver/ortools_solver.py:98-107 | In every satisfying valuation a requirement's chosen employees and its unfilled variable add up to its required count |
| `Scheduling.RemovalKeepsLegal` | src/work_schedule_ai/solver/ortools_solver.py:65-267 | Taking any assignments away from a legal schedule leaves a legal schedule |
| `Scheduling.LegalScheduleExists` | src/work_schedule_ai/solver/ortools_solver.py:94-193 | Some schedule is legal if and only if the applicable limits are non-negative, and then the empty one is |
| `ObjectiveReading.ObjectiveIsExact` | src/work_schedule_ai/solver/ortools_solver.py:107-286 | For a legal schedule, the least objective over all valuations that choose it is the directly defined cost, for a fairness weight of either sign |
| `ObjectiveReading.ObjectiveAtLeastCost` | src/work_schedule_ai/solver/ortools_solver.py:107-286 | No satisfying valuation has an objective below the cost of the schedule it chooses; equality when the slack variables are tight |
| `ObjectiveReading.OptimalIsLeastCost` | src/work_schedule_ai/solver/ortools_solver.py:286 | A schedule is chosen by some optimal valuation if and only if it is a least-cost legal schedule |
| `Dominance.OneMoreAssignment` | src/work_schedule_ai/solver/ortools_solver.py:107-284 | Adding one eligible assignment changes the whole cost by at most its exposure less the unfilled penalty: the bound over all six cost terms |
| `Dominance.UnfilledPenaltyDominates` | src/work_schedule_ai/solver/ortools_solver.py:107-284 | If the unfilled penalty exceeds the exposure, no optimal answer leaves out an assignment that could be added legally |
| `Dominance.TieBreakerBound` | src/work_schedule_ai/solver/ortools_solver.py:200-209 | The rotation term of one assignment is at most 1001 times one less than the number of employees |
| `CostFacts.FairTargetIsLeast` | src/work_schedule_ai/solver/ortools_solver.py:458-465 | The fair target is the least positive number of shifts per employee that covers everything required |
| `CostFacts.TurnsAreDistinct` | src/work_schedule_ai/solver/ortools_solver.py:203-205 | No two employees stand equally far from the preferred one for a requirement |
| `CostFacts.TieBreakerFollowsTurnsIff` | src/work_schedule_ai/solver/ortools_solver.py:195-209 | The tie-breaker orders all employees of a requirement exactly by rotation distance if and only if there are at most 1000 of them or the preferred one is the first in the list |
| `CostFacts.LongRequestIsNotOrdered` | src/work_schedule_ai/solver/ortools_solver.py:195-209 | A well-formed request with 1001 employees in which, of two choices the model has, the one whose turn is earlier costs no less |
| `CanonicalOrder.PreferredIsCounted` | src/work_schedule_ai/solver/ortools_solver.py:24-33 | The preferred employee, counted without lists: slots before the requirement's by date and id, plus smaller roles asked for, going round the employees by id |
| `CanonicalOrder.RotationIsCounted` | src/work_schedule_ai/solver/ortools_solver.py:195-209 | Choosing an employee costs a thousand for each place after the preferred one, going round, and one for each employee with a smaller id |
| `CostFacts.TwoDaysInARowCost` | src/work_schedule_ai/solver/ortools_solver.py:269-284 | A second shift on the day after the first costs 20,000, one shift nothing |
| `DateRuns.ConsecutiveDateSequences` | src/work_schedule_ai/solver/ortools_solver.py:404-418 | The loop that grows the current sequence computes the runs of the dates |
| `DateRuns.RunsAreMaximal` | src/work_schedule_ai/solver/ortools_solver.py:404-418 | The runs are consecutive days, no two neighbouring runs could be joined, and together they are the input |
| `DateRuns.MaximalRunsAreUnique` | src/work_schedule_ai/solver/ortools_solver.py:404-418 | They are the only maximal consecutive splitting of the input |
| `DateRuns.BlockIsStretch` | src/work_schedule_ai/solver/ortools_solver.py:244-248 | For increasing dates, every day of an interval is present if and only if the interval lies inside one run |
| `ReadingDates.ReadStreak` | src/work_schedule_ai/solver/ortools_solver.py:246-258 | The sliding-window constraints hold if and only if nobody works more than the limit of calendar days in a row |
| `ReadingDates.ReadRest` | src/work_schedule_ai/solver/ortools_solver.py:260-267 | The pairwise constraints hold if and only if every two timed slots of an employee leave the minimum rest |
| `ReadingDates.RestedPairwise` | src/work_schedule_ai/solver/ortools_solver.py:438-455 | Comparing each slot with the later ones in the list, earlier start first, covers every pair once |
| `ReadingDates.ReadWorked` | src/work_schedule_ai/solver/ortools_solver.py:235-242 | The worked-on-date variable is 1 exactly on the dates an employee works |
| `ReadingDates.ReadAdjacent` | src/work_schedule_ai/solver/ortools_solver.py:269-283 | The adjacent-repeat variable is 1 exactly when both neighbouring days are worked |
| `Reading.ReadUnfilled` | src/work_schedule_ai/solver/ortools_solver.py:94-106 | The unfilled constraint and its bounds hold if and only if the variable is the non-negative shortfall |
| `Reading.ReadStaffing` | src/work_schedule_ai/solver/ortools_solver.py:109-133 | The staffing-target constraints hold if and only if the count is exact and the slack variables cover the two differences within their bounds |
| `Reading.ReadOneRole` | src/work_schedule_ai/solver/ortools_solver.py:141-142 | At most one variable per employee and slot if and only if at most one role per employee and slot |
| `Reading.ReadBlocked` | src/work_schedule_ai/solver/ortools_solver.py:144-152 | The pair constraints hold if and only if no blocked pair works together in a slot; with one role per slot |
| `Reading.ReadAvoid` | src/work_schedule_ai/solver/ortools_solver.py:154-173 | The three avoid variables of a pair and slot are forced to mean: the first works, the second works, both work |
| `ReadingLimits.ReadWeekly` | src/work_schedule_ai/solver/ortools_solver.py:175-185 | The weekly constraints hold if and only if no employee exceeds the own cap, or the global one, in any week |
| `ReadingLimits.ReadWeekend` | src/work_schedule_ai/solver/ortools_solver.py:187-189 | The monthly weekend constraints hold if and only if no employee exceeds the limit in any month |
| `ReadingLimits.ReadNight` | src/work_schedule_ai/solver/ortools_solver.py:191-193 | The same for night shifts |
| `ReadingLimits.ReadFairness` | src/work_schedule_ai/solver/ortools_solver.py:212-232 | The count is exact and the over-target variable covers the excess over the fair target |
| `Builder.AddChoices` | src/work_schedule_ai/solver/ortools_solver.py:65-92 | The declaring loop creates one variable per eligible pair and files it under every dictionary key it belongs to |
| `Builder.AddUnfilled` | src/work_schedule_ai/solver/ortools_solver.py:94-107 | The loop posts exactly the unfilled family |
| `Builder.AddStaffing` | src/work_schedule_ai/solver/ortools_solver.py:109-139 | The loop posts exactly the staffing-target family |
| `Builder.AddBlocked` | src/work_schedule_ai/solver/ortools_solver.py:144-152 | The loop posts exactly the blocked-pair family |
| `Builder.AddAvoid` | src/work_schedule_ai/solver/ortools_solver.py:154-173 | The loop posts exactly the avoid-pair family |
| `Builder.AddWeekly` | src/work_schedule_ai/solver/ortools_solver.py:175-185 | The loop posts exactly the weekly-cap family |
| `Builder.AddMonthly` | src/work_schedule_ai/solver/ortools_solver.py:187-193 | The loop posts exactly one monthly family |
| `Builder.AddRotation` | src/work_schedule_ai/solver/ortools_solver.py:195-210 | The loop adds exactly the rotation terms |
| `Builder.AddFairness` | src/work_schedule_ai/solver/ortools_solver.py:212-233 | The loop posts exactly the fairness family |
| `Builder.AddWorked` | src/work_schedule_ai/solver/ortools_solver.py:235-242 | The loop posts exactly the worked-on-date family and its dictionary |
| `Builder.AddStreaks` | src/work_schedule_ai/solver/ortools_solver.py:244-258 | The loop posts exactly the streak windows of every run and employee |
| `Builder.AddRest` | src/work_schedule_ai/solver/ortools_solver.py:260-267 | The loop posts exactly the rest family |
| `Builder.AddRestOf` | src/work_schedule_ai/solver/ortools_solver.py:438-455 | The nested index loops post exactly the rest constraints of one employee |
| `Builder.AddAdjacent` | src/work_schedule_ai/solver/ortools_solver.py:269-284 | The loop posts exactly the adjacent-repeat family |
| `Builder.BuildModel` | src/work_schedule_ai/solver/ortools_solver.py:23-286 | All loops together build exactly the encoding whose exactness is proved |
| `Solver.ExtractAssignments` | src/work_schedule_ai/solver/ortools_solver.py:336-364 | The loop over sorted keys lists the chosen assignments, each once, in slot, role, employee order |
| `Solver.ExtractIssues` | src/work_schedule_ai/solver/ortools_solver.py:367-388 | One issue per short requirement with the exact missing count, and none otherwise |
| `Solver.SolveSchedule` | src/work_schedule_ai/solver/ortools_solver.py:23-333 | The result follows the engine's answer, each status if and only if; with a sound engine an infeasible result means a negative limit, non-negative limits and a known answer mean success, a success lists the legal schedule the engine chose and its shortfalls, and an optimal one has least cost |
| `ResultRows.RowsNameTheRequest` | src/work_schedule_ai/solver/ortools_solver.py:336-388 | Every assignment row names a requirement and an employee of the request, who has its role and is available; every issue names a requirement |
| `ResultRows.RowsAreOrdered` | src/work_schedule_ai/solver/ortools_solver.py:336-364 | Rows come by slot, role and employee, and an employee has one row in a slot |
| `ResultRows.IssuesAreOrdered` | src/work_schedule_ai/solver/ortools_solver.py:24-33 | Issues come by the date and id of the slot, then role, then requirement |
| `ResultRows.RowsKeepBlockedPairs` | src/work_schedule_ai/solver/ortools_solver.py:144-152 | No two rows in one slot name a blocked pair |
| `ResultRows.ShiftsKeepWeeklyCaps` | src/work_schedule_ai/solver/ortools_solver.py:175-185 | From any Monday to Sunday an employee works at most the own cap when there is one, and the global cap otherwise |
| `ResultRows.LoneAssignmentIsLegal` | src/work_schedule_ai/solver/ortools_solver.py:65-92 | What the rules never forbid: one assignment of an available employee with the role, when nothing that applies is below one |
| `Scheduling.WeekIsMondayToSunday` | src/work_schedule_ai/solver/ortools_solver.py:398-401 | Two dates share a week key if and only if one Monday-to-Sunday span holds both |
| `Solver.ResultConserves` | src/work_schedule_ai/solver/ortools_solver.py:336-388 | In every reported result a requirement's assignments and its missing count add up to the required count |
| `Solver.LegalAnyOrder` | src/work_schedule_ai/solver/ortools_solver.py:24-33 | Which schedules are legal does not depend on the order in which the request lists its parts |
| `RedisQueue.RedisScheduleRunQueue.Enqueue` | src/work_schedule_ai/worker/queue.py:90-107 | Pushes a payload whose job id occurs nowhere in the store on the left of the main list and changes nothing else |
| `RedisQueue.RedisScheduleRunQueue.Dequeue` | src/work_schedule_ai/worker/queue.py:109-123 | Moves the right end of the main list to processing and writes its lease and owner; an empty list changes nothing |
| `RedisQueue.RedisScheduleRunQueue.Ack` | src/work_schedule_ai/worker/queue.py:125-130 | Removes one occurrence from processing and clears lease and owner |
| `RedisQueue.RedisScheduleRunQueue.RecoverInProgress` | src/work_schedule_ai/worker/queue.py:132-145 | Over a snapshot of at most the limit, takes back every recoverable delivery and counts them |
| `RedisQueue.InMemoryScheduleRunQueue.Enqueue` | src/work_schedule_ai/worker/queue.py:42-53 | Appends at the back |
| `RedisQueue.InMemoryScheduleRunQueue.Dequeue` | src/work_schedule_ai/worker/queue.py:55-58 | Hands out the front, or nothing |
| `RedisQueue.RedisRefinesFifo` | src/work_schedule_ai/worker/queue.py:90-130 | Over any sequence of enqueues, dequeues and acknowledgements the Redis queue hands out the same jobs in the same order as the in-memory FIFO |
| `RedisQueue.RecoveryUndoesDelivery` | src/work_schedule_ai/worker/queue.py:96-145 | After k deliveries and a crash, one recovery pass keeps the main list followed by the processing list equal to the original main list, and restores the main list exactly if and only if k is within the limit |
| `RedisQueue.DequeuesThenCrash` | src/work_schedule_ai/worker/queue.py:109-123 | k dequeues whose leases have run out are such a crash |
| `QueueProtocol.PayloadsAreConserved` | src/work_schedule_ai/worker/queue.py:90-145 | Over every interleaving of single commands and crashes, an issued payload that nobody acknowledged is in exactly one of main list, processing list and a recovering worker's hand, once; only executed payloads are ever removed |
| `QueueProtocol.StepConserves` | src/work_schedule_ai/worker/queue.py:109-145 | Each single step keeps that invariant |
| `QueueProtocol.NoStrandedRun` | src/work_schedule_ai/worker/schedule_worker.py:93-132 | Over every interleaving from a database that stores no run as running, each enqueued queued-or-running run still has an unexecuted payload in one of the three places |
| `QueueProtocol.NoStrandedRunTimely` | scripts/requeue_queued_schedule_runs.py:35-61 | The same for a database that does store running rows, when each reset commits before the payload pushed for it has been executed |
| `QueueResets.GuardedResetsStrandNobody` | scripts/requeue_queued_schedule_runs.py:52-61 | Over every interleaving, running rows included, in which a reset commits only while the stored status is live or a payload of the run waits, each enqueued live run has a payload that no worker is about to acknowledge |
| `QueueResets.ResetStrandsIff` | scripts/requeue_queued_schedule_runs.py:52-61 | Some continuation without another reset leaves the run queued with no payload anywhere if and only if the reset committed when that guard did not hold |
| `QueueHazards.LateResetStrandsRun` | scripts/requeue_queued_schedule_runs.py:52-61 | A concrete run from a stored running row: the script pushes a job, a worker executes and acknowledges it, then the reset commits; the run is queued and no payload is left |
| `QueueHazards.CrashWhileHoldingLosesPayload` | src/work_schedule_ai/worker/queue.py:138-143 | A crash between taking a payload out of processing and pushing it back loses it, unacknowledged |
| `LeaseExclusion.LeasesExclude` | src/work_schedule_ai/worker/queue.py:109-155 | With move and lease as one step, executions within the lease, and removal only while recoverable, no two live workers ever hold an unacknowledged delivery of one payload |
| `LeaseExclusion.DeliverIsDequeue` | src/work_schedule_ai/worker/queue.py:109-123 | Move and lease as one step are the whole dequeue |
| `LeaseExclusion.TakeOutBreaksIff` | src/work_schedule_ai/worker/queue.py:138 | After a payload is taken out, some disciplined continuation has two live workers holding one payload if and only if a live worker had an unacknowledged delivery of it |
| `LeaseExclusion.ConcurrentRecoveriesBreakExclusion` | src/work_schedule_ai/worker/queue.py:135-143 | A concrete run: two recoveries check one payload before either removes it, and two live workers end up holding it |
| `RedisRuns.RecoveryTakesUnprotected` | src/work_schedule_ai/worker/queue.py:132-155 | A pass takes back exactly the deliveries among the first limit that have no lease, an unreadable one or an expired one, in their order, without lease or owner; everything else stays; they are counted |
| `RedisRuns.StoreStaysTidy` | src/work_schedule_ai/worker/queue.py:90-145 | From an empty queue, over every sequence of operations each payload is in one place and has a lease and an owner exactly while it is in processing |
| `RedisRuns.DeliveryIsOnRecord` | src/work_schedule_ai/worker/queue.py:109-123 | The lease and owner of a payload in processing are the time and worker of a dequeue that handed it out |
| `QueueAlone.DequeueAlone` | src/work_schedule_ai/worker/queue.py:109-123 | The three commands of a dequeue, with nobody else in between, are the whole dequeue |
| `QueueAlone.AckAlone` | src/work_schedule_ai/worker/queue.py:125-130 | The three commands of an acknowledgement likewise |
| `QueueAlone.RecoveryAlone` | src/work_schedule_ai/worker/queue.py:132-145 | A recovery pass, command by command, is the whole pass over a snapshot of at most the limit |
| `QueueEnded.EndedStaysIff` | src/work_schedule_ai/worker/schedule_worker.py:16-25 | A succeeded, infeasible, failed or canceled run keeps its status over every continuation that neither resets nor retries it if and only if no worker is executing a payload of it |
| `QueueEnded.CancellationIsFinal` | src/work_schedule_ai/worker/schedule_worker.py:78-90 | A cancellation that finds nobody executing the run is final: no delivery, execution or retry changes it |
| `QueueEnded.IssuedWasAsked` | src/work_schedule_ai/worker/queue.py:90-107 | Over every interleaving, each payload issued was asked for by an enqueue or a requeue of its run for its organization |
| `QueueEnded.RequeuesAreSelected` | scripts/requeue_queued_schedule_runs.py:35-61 | The script requeues a run at most once each time it has selected it |
| `QueueEnded.CreatedRunWaits` | src/work_schedule_ai/worker/schedule_worker.py:93-132 | A run that is created and never enqueued, canceled or retried keeps its status over every interleaving |
| `QueueWorker.ProcessNextScheduleRun` | src/work_schedule_ai/worker/schedule_worker.py:93-132 | Delivers, executes and acknowledges the next job, a missing run included; an empty queue changes nothing |
| `QueueWorker.RunQueueWorker` | src/work_schedule_ai/worker/queue_worker.py:22-63 | A recovery pass, then jobs until the limit or the queue's end; counts the jobs processed |
| `QueueWorker.WorkerEmptiesQueue` | src/work_schedule_ai/worker/queue_worker.py:32-63 | A lone worker with room for every job leaves both lists empty, every run that had a job ended by one execution of its own executor, and every other run as it was |
| `RunRecord.RunTable.ExecuteScheduleRun` | src/work_schedule_ai/worker/schedule_worker.py:16-60 | A missing run is reported; otherwise the row becomes what the executor leaves, closed; a raise rolls the session's copy back and marks the stored row failed |
| `RunRecord.RunTable.RetryScheduleRun` | src/work_schedule_ai/worker/schedule_worker.py:63-75 | Unless canceled, the attempt number rises by one and the run is executed without an executor |
| `RunRecord.RunTable.CancelScheduleRun` | src/work_schedule_ai/worker/schedule_worker.py:78-90 | A live run is canceled with a time; any other is refused and unchanged |
| `RunRecord.RunTable.RequeueQueuedScheduleRuns` | scripts/requeue_queued_schedule_runs.py:35-61 | One job per selected run, in order; stale running rows are reset, all others kept |
| `RunRecord.RecordStaysCoherent` | src/work_schedule_ai/worker/schedule_worker.py:16-90 | Over every sequence of operations whose sessions do not overlap, with a clock that never goes back: decided runs have ordered times and a solver status, canceled runs a cancellation time, attempts never fall, canceled records never change |
| `RunRecord.ExecuteDecidesIff` | src/work_schedule_ai/worker/schedule_worker.py:16-60 | Executing a live run decides it coherently if and only if the executor neither puts it back in the queue nor cancels it |
| `RunRecord.RedeliveryIsIdle` | src/work_schedule_ai/worker/schedule_worker.py:22-25 | Operations other than retry change nothing on a decided or canceled run |
| `RunRecord.RetrySucceedsUncalculated` | src/work_schedule_ai/worker/schedule_worker.py:63-75 | A retry always succeeds, and keeps the old solver status exactly when there was one, "error" included |
| `RunRecord.RunningIsNeverDurable` | src/work_schedule_ai/worker/schedule_worker.py:27-31 | "Running" is flushed but never committed, so no sequence of operations makes it durable and the requeue reset finds nothing to do |
| `RunRecord.ProtocolStatuses` | src/work_schedule_ai/worker/schedule_worker.py:16-90 | What the queue protocol takes for granted about execution, retry and cancellation holds of the record |
| `RunRecord.ExecutedLateAlone` | src/work_schedule_ai/worker/schedule_worker.py:27-60 | Writing only the changed columns, flush by flush, leaves the plain execution's record when no other session commits in between |
| `RunRecord.CancelSurvivesIff` | src/work_schedule_ai/worker/schedule_worker.py:21-60 | A cancellation committed after the executing session first read the run, and before its last read, survives if and only if the executor raises or itself cancels |
| `RunVerdicts.VerdictIsStored` | src/work_schedule_ai/worker/schedule_worker.py:27-60 | Executing a live run stores the executor's status, solver status and quality, fills in what is missing, and stores a raise as a failure; what the times become |
| `RunVerdicts.VerdictStands` | src/work_schedule_ai/worker/schedule_worker.py:16-60 | In any sequence, the verdict of an execution that ends the run is what stays stored until a retry |
| `RunVerdicts.StampsFollowTheClock` | src/work_schedule_ai/worker/schedule_worker.py:16-90 | The record's stamp never goes back and is never ahead of the clock |
| `RunVerdicts.StartIsKept` | src/work_schedule_ai/worker/schedule_worker.py:29 | The first start time is kept over every sequence of operations, retries included |
| `RunVerdicts.ResetForgets` | scripts/requeue_queued_schedule_runs.py:53-59 | The reset leaves a run as it was created, but for its attempt number and cancellation time |
| `RunVerdicts.CancelOnlyMarks` | src/work_schedule_ai/worker/schedule_worker.py:82-90 | A cancellation changes the status, the cancellation time and the stamp, and nothing else |
| `RunVerdicts.ProtocolFollowsRecord` | src/work_schedule_ai/worker/schedule_worker.py:63-90 | The statuses the queue protocol writes for a cancellation and a retry are those of the record |
| `RunVerdicts.ResetFollowsRecord` | scripts/requeue_queued_schedule_runs.py:53-59 | So is the one it writes for a committed reset |
| `RunVerdicts.ExecutionFollowsRecord` | src/work_schedule_ai/worker/schedule_worker.py:16-60 | So is the status it writes for a delivery's execution, which it makes two steps |
| `RunSessions.LateExecutionMerges` | src/work_schedule_ai/worker/schedule_worker.py:27-60 | An execution that closes over a row changed meanwhile writes its status and exactly the columns that it would change alone |
| `RunSessions.LateCancellationMarks` | src/work_schedule_ai/worker/schedule_worker.py:82-90 | A cancellation that closes over a row changed meanwhile cancels it whatever its status has become |
| `RunSessions.SerialSessions` | src/work_schedule_ai/worker/schedule_worker.py:16-90 | Sessions that do not overlap, read, rollback and column-wise writes included, do what the operations do in that order |
| `RunSessions.OverlapKeepsComplete` | src/work_schedule_ai/worker/schedule_worker.py:16-90 | Over every interleaving of sessions with well-behaved executors the row is never running, a decided row has both times and a solver status, and a canceled one its time |
| `RunSessions.CancellationLastsIff` | src/work_schedule_ai/worker/schedule_worker.py:16-90 | A canceled row stays canceled over every continuation if and only if no session under way read a status it is going to write over: which those are, operation by operation |
| `RunSessions.AttemptLastsIff` | src/work_schedule_ai/worker/schedule_worker.py:63-75 | The attempt number never falls below what it is over every continuation if and only if no retry under way read a number two or more below it |
| `Compliance.WeeklyHoursWarnings` | src/work_schedule_ai/compliance.py:89-118 | The dictionary loop computes the weekly scan |
| `Compliance.MinimumRestWarnings` | src/work_schedule_ai/compliance.py:121-151 | Grouping, sorting and comparing neighbours computes the rest scan |
| `Compliance.NightAndWeekendWarnings` | src/work_schedule_ai/compliance.py:154-184 | The loop lists night and weekend reviews row by row |
| `Compliance.ConsecutiveNightWarnings` | src/work_schedule_ai/compliance.py:187-219 | Filtering, grouping, sorting and comparing neighbours computes the consecutive-night scan |
| `Compliance.EvaluateComplianceWarnings` | src/work_schedule_ai/compliance.py:75-86 | The evaluation is the four scans in order |
| `ComplianceMeaning.RestScanIsAllPairs` | src/work_schedule_ai/compliance.py:121-151 | The neighbour scan is silent if and only if, of every two rows of an employee, the one that starts later (on a tie, the one listed second) rests the minimum after the other |
| `ComplianceMeaning.RestScanIsSymmetric` | src/work_schedule_ai/compliance.py:121-151 | It is silent if and only if every two rows of an employee are at least the minimum apart; at a minimum of zero, when no row that lasts no time starts together with one that lasts |
| `ComplianceMeaning.SolvedScheduleRests` | src/work_schedule_ai/solver/ortools_solver.py:260-267 | A legal schedule with a positive minimum rest on fully timed slots draws no rest warning at any threshold up to that minimum |
| `ComplianceMeaning.RestRulesAgree` | src/work_schedule_ai/solver/ortools_solver.py:260-267 | With every slot timed, a schedule legal in every other way meets the solver's rest rule if and only if its rows draw no rest warning at the request's own minimum |
| `ComplianceReviews.NightReviewedIff` | src/work_schedule_ai/compliance.py:154-172 | An evaluation lists a night review for an employee and a slot if and only if some row of the employee there is a night shift |
| `ComplianceReviews.WeekendReviewedIff` | src/work_schedule_ai/compliance.py:173-184 | And a weekend review if and only if some row of the employee there starts on a weekend |
| `ComplianceReviews.NightIsByLabelOrClock` | src/work_schedule_ai/compliance.py:222-224 | A night shift is one whose label says so or that starts from 22:00 to before 06:00 |
| `ComplianceReviews.WeekendIsSaturdayOrSunday` | src/work_schedule_ai/compliance.py:173 | A weekend shift is one that starts on the sixth or seventh day of a Monday-anchored week |
| `ComplianceReviews.RestWarnedIff` | src/work_schedule_ai/compliance.py:121-151 | With distinct starts, the rest warnings are exactly those for a shift that starts less than the minimum after the end of the employee's previous one; each names the later shift and reports the rest |
| `ComplianceReviews.ConsecutiveWarnedIff` | src/work_schedule_ai/compliance.py:187-219 | The consecutive-night warnings are exactly those for a night shift on the day after the employee's previous night shift; each names the later one |
| `ComplianceReviews.WeekWarnedIff` | src/work_schedule_ai/compliance.py:89-118 | An evaluation warns about an employee's Monday-to-Sunday week if and only if the shifts that start in it last more than 52 hours, and reports how long |
| `ComplianceReviews.OnlyWeeklyBlocks` | src/work_schedule_ai/compliance.py:105-219 | Only weekly warnings block publishing, only reviews are mere information, and every warning gives the name of a row of its employee |
| `ComplianceMeaning.ConsecutiveNightsAreCounted` | src/work_schedule_ai/compliance.py:187-219 | An employee's warnings number exactly the days on which a night shift starts and on the day after which another does |
| `ComplianceIdentity.WeeklyWarnedIff` | src/work_schedule_ai/compliance.py:89-118 | An employee is warned about a week if and only if its shifts add up to more than 52 hours; the warning reports that sum |
| `ComplianceIdentity.EvaluationIgnoresRowOrder` | src/work_schedule_ai/compliance.py:75-86 | With distinct starts, one name and one row per slot, rearranging the rows keeps the set of warnings and the snapshot |
| `ComplianceIdentity.SnapshotIsCanonical` | src/work_schedule_ai/compliance.py:236-255 | Two lists of rows have the same snapshot if and only if one is a rearrangement of the other |
| `ComplianceIdentity.SnapshotIsOrdered` | src/work_schedule_ai/compliance.py:236-250 | The rows of a snapshot come by employee, slot, start and end |
| `ComplianceIdentity.InstanceIsIdentityAndRows` | src/work_schedule_ai/compliance.py:258-274 | Two warnings are one instance if and only if they agree in code, employee, slot and week and were found in the same rows, in whatever order |
| `ComplianceIdentity.WarningsAreDistinct` | src/work_schedule_ai/compliance.py:258-274 | No two warnings of an evaluation agree on code, employee, slot and week |
| `ComplianceIdentity.InstancesSurviveRearranging` | src/work_schedule_ai/api/routes/compliance.py:96-107 | The by-instance table loses no warning, and finds the same warning again in any rearrangement of the rows |
| `ShiftSync.NormalizeShiftIds` | frontend/src/shiftProfile.ts:227-236 | The set loop keeps the chosen presets in catalogue order, each once |
| `ShiftSync.NormalizeShiftCoverage` | frontend/src/shiftProfile.ts:103-112 | Both groups normalized; the default coverage when nothing is picked |
| `ShiftSync.BuildShiftTypeRequests` | frontend/src/shiftProfile.ts:133-157 | The requests of the normalized coverage, weekdays first |
| `ShiftSync.DesiredMembers` | frontend/src/shiftProfile.ts:133-157 | A request is built if and only if it is the one for a picked preset and day group |
| `ShiftSync.NamesDiffer` | frontend/src/shiftProfile.ts:143 | Shift-type names determine day group and preset |
| `ShiftPresets.RequestsCrossMidnightIff` | frontend/src/shiftProfile.ts:62-97 | A built request crosses midnight if and only if its end reads earlier than its start, and asks for one senior and one junior |
| `ShiftPresets.ShiftsCoverTheDay` | frontend/src/shiftProfile.ts:62-97 | At any minute exactly one of the morning, afternoon and night shifts is on; the day shift is on from nine to six |
| `ShiftPresets.GroupsPartitionTheWeek` | frontend/src/shiftProfile.ts:99-102 | Each day of the week belongs to one group; Saturday and Sunday are the weekend |
| `ShiftPresets.WhatIsPicked` | frontend/src/shiftProfile.ts:103-112 | With nothing picked, weekdays get morning and afternoon and weekends day; otherwise exactly what is picked |
| `ShiftPresets.PresetsAreInOrder` | frontend/src/shiftProfile.ts:227-236 | Presets are kept in the order day, morning, afternoon, night |
| `ShiftPresets.NightIsNamed` | frontend/src/shiftProfile.ts:143 | The compliance scan takes a scenario shift for a night shift by its name if and only if it is the night preset |
| `ShiftPresets.ReconciledRowsSay` | frontend/src/shiftProfile.ts:133-157 | In a reconciled table each picked preset has an active row with its times, Seoul time, the days of its group, and one senior and one junior |
| `ShiftSync.PlanScenarioShiftTypeSync` | frontend/src/shiftProfile.ts:159-207 | The map lookups and the two loops compute the plan |
| `ShiftTable.ShiftTypes.CreateShiftType` | src/work_schedule_ai/api/routes/shift_templates.py:28-167 | Requests with a bad time, timezone, weekday, count or weight, a repeated or unknown role, or a taken name are refused; otherwise the row is stored, active as requested |
| `ShiftTable.ShiftTypes.UpdateShiftType` | src/work_schedule_ai/api/routes/shift_templates.py:238-317 | The same checks; otherwise every field and all requirements are replaced |
| `ShiftTableRuns.AcceptedIsStored` | src/work_schedule_ai/api/routes/shift_templates.py:133-167 | An accepted request's row says what the request said, its days in order, one requirement per role; no other row changes |
| `ShiftTableRuns.TableStaysSound` | src/work_schedule_ai/api/routes/shift_templates.py:33-60 | Over every sequence of requests, valid or not, names stay unique and every row meets the bounds that requests are checked for |
| `ShiftTable.CompatibleCallsOverlay` | src/work_schedule_ai/api/routes/shift_templates.py:292-316 | Calls for different rows leave each row as its call says and all others alone, in any order |
| `ShiftConvergence.PlanOnce` | frontend/src/shiftProfile.ts:177-204 | A plan updates each existing id at most once and creates each name at most once |
| `ShiftConvergence.SendingThePlanReconciles` | frontend/src/shiftProfile.ts:159-207 | Sent in any order, every request is accepted, the active scenario shift types become exactly the picked ones, and every other shift type stays as it was |
| `ShiftConvergence.ReplanningIsIdle` | frontend/src/shiftProfile.ts:159-207 | Planning again over the result creates nothing, deactivates nothing, and only sends back what is stored |
| `DraftText.SplitJoin` | frontend/src/scenarioDraft.ts:159-161 | Splitting undoes joining for parts free of the separator |
| `DraftText.LinesOfJoined` | frontend/src/scenarioDraft.ts:152-157 | Reading lines undoes joining them for non-empty trimmed lines |
| `DraftRows.JoinSplit` | frontend/src/scenarioDraft.ts:159-161 | Joining undoes splitting, for every text |
| `DraftRows.TrimTakesSpace` | frontend/src/scenarioDraft.ts:152-161 | Trimming takes white space, all of it and nothing else, off both ends |
| `DraftRows.AsciiSpaceIs` | frontend/src/scenarioDraft.ts:152-161 | Of the ASCII characters, trimming takes the blank, the tab and the line terminators |
| `DraftRows.BlankLinesAreIgnored` | frontend/src/scenarioDraft.ts:152-157 | A blank line anywhere changes nothing of what is read |
| `DraftRows.CaseIsIgnored` | frontend/src/scenarioDraft.ts:184-190 | Flag words are compared without regard to the case of ASCII letters |
| `DraftRows.LinesArePieces` | frontend/src/scenarioDraft.ts:152-157 | What is read is each piece between line feeds, trimmed, but for the blank ones; carriage returns do not matter |
| `DraftRows.DatesCompareAsNumbers` | frontend/src/scenarioDraft.ts:76-78 | Dates compare as text the way they compare as years, months and days |
| `DraftRows.CodesAre` | frontend/src/scenarioDraft.ts:167-169 | The employee codes are exactly E000 to E999 |
| `DraftRows.VacationLineIff` | frontend/src/scenarioDraft.ts:61-85 | A vacation row gives a vacation if and only if it says it: a range when its third field is a date, otherwise one day, whose kind and flag come one field earlier; missing ones have defaults |
| `DraftRows.VacationComplaintIff` | frontend/src/scenarioDraft.ts:61-85 | The complaint about a vacation row names its place and the first thing wrong |
| `DraftRows.PairLineIff` | frontend/src/scenarioDraft.ts:87-106 | A pair row gives a pair if and only if it says it: two different codes, a severity and a flag with their defaults |
| `DraftRows.PairComplaintIff` | frontend/src/scenarioDraft.ts:87-106 | The complaint about a pair row names its place and the first thing wrong |
| `DraftRows.EmployeeLineIff` | frontend/src/scenarioDraft.ts:31-59 | An employee row gives an employee if and only if it says it, with a code no earlier row has, under the row's number |
| `DraftRows.EmployeeComplaintIff` | frontend/src/scenarioDraft.ts:31-59 | The complaint about an employee row names its place, or the repeated code, and the first thing wrong |
| `DraftRows.FirstComplaintIsGiven` | frontend/src/scenarioDraft.ts:61-106 | A vacation or pair draft that does not parse gives the complaint about its first line that does not |
| `DraftRows.EmployeeFirstComplaint` | frontend/src/scenarioDraft.ts:31-59 | So does an employee draft, in which a line may also repeat an earlier code |
| `ScenarioDraft.VacationDraftRoundTrip` | frontend/src/scenarioDraft.ts:61-85 | Parsing printed vacations gives them back, with the default type filled in |
| `ScenarioDraft.VacationDraftIsStable` | frontend/src/scenarioDraft.ts:61-85 | Whatever text parses, printing what it gave and parsing again gives the same list |
| `ScenarioDraft.PairDraftRoundTrip` | frontend/src/scenarioDraft.ts:87-106 | Parsing printed pairs gives them back, with the default severity filled in |
| `ScenarioDraft.PairDraftIsStable` | frontend/src/scenarioDraft.ts:87-106 | Whatever text parses, printing what it gave and parsing again gives the same list |
| `EmployeeDraft.ParseEmployeeDraft` | frontend/src/scenarioDraft.ts:31-59 | The loop with its set of seen codes computes the parse, first error included |
| `EmployeeDraft.EmployeeDraftRoundTrip` | frontend/src/scenarioDraft.ts:108-119 | Parsing printed employees gives them back, numbered from 1 |
| `EmployeeDraft.EmployeeDraftIsStable` | frontend/src/scenarioDraft.ts:31-59 | Whatever text parses, printing what it gave and parsing again gives the same list |
| `EmployeeDraft.ParsedEmployeeIsWellFormed` | frontend/src/scenarioDraft.ts:31-59 | Every parsed row has a valid code, plain name and roles, and a positive number of shifts |
| `EmployeeDraft.DecimalIsLawful` | frontend/src/scenarioDraft.ts:175-182 | Plain decimal notation meets what the round trips ask of the language's numerals |
| `ShiftImport.RowIsAcceptedIff` | src/work_schedule_ai/api/routes/imports.py:626-698 | The row check reports nothing if and only if every value is one the import can apply |
| `ShiftImportErrors.RowErrorIff` | src/work_schedule_ai/api/routes/imports.py:626-698 | The row check reports an error for a field if and only if that field is wrong in that way, under the row's number |
| `ShiftImportContents.FlagIsReadIff` | src/work_schedule_ai/api/routes/imports.py:1058-1064 | A flag is read as true or false exactly for the words that say so, stripped and in any case |
| `ShiftImportContents.TimeIsValidIff` | src/work_schedule_ai/api/routes/imports.py:1031-1035 | With ASCII digits the valid times are exactly 00:00 to 23:59 |
| `ShiftImportContents.ImportTimesAreApiTimes` | src/work_schedule_ai/api/routes/shift_templates.py:28-39 | The API's pattern admits any two digits around the colon; the import admits those of these times that are times of day |
| `ShiftImport.ReadActiveWeekdays` | src/work_schedule_ai/api/routes/imports.py:1016-1024 | The loop computes the weekday list, or nothing for a bad or repeated part |
| `ShiftImport.WeekdaysRoundTrip` | src/work_schedule_ai/api/routes/imports.py:1016-1028 | Reading back a stored weekday text gives the stored days in increasing order |
| `ShiftImport.DelimitedDaysAreRead` | src/work_schedule_ai/api/routes/imports.py:1016-1024 | Different weekdays in any order, joined by any of the three delimiters, are read as those days in order |
| `ShiftImport.WeekdayOrderIsIgnored` | src/work_schedule_ai/api/routes/imports.py:1016-1024 | Texts that list the same days in other orders or with other delimiters are read alike |
| `ShiftBatch.ValidateShiftTypeBatch` | src/work_schedule_ai/api/routes/imports.py:701-736 | The one-pass loop with its dictionary and set reports exactly the conflicting and repeated rows |
| `ShiftBatch.BatchIsAcceptedIff` | src/work_schedule_ai/api/routes/imports.py:701-736 | It reports nothing if and only if every two rows agree |
| `ShiftImportErrors.BatchErrorIff` | src/work_schedule_ai/api/routes/imports.py:701-736 | The batch check reports exactly each row that contradicts its type's first row and each that repeats a type and role, under the row's number |
| `ShiftImportContents.ImportedTypeSaysRow` | src/work_schedule_ai/api/routes/imports.py:943-1008 | After an accepted import every row finds its shift type with the row's times, timezone, flags and days, and the row's requirement among its requirements |
| `ShiftImportContents.ImportedNeedHasRow` | src/work_schedule_ai/api/routes/imports.py:991-1007 | Every requirement of a named shift type is that of one of its rows |
| `ShiftApply.ShiftTypeStore.ApplyShiftTypeRows` | src/work_schedule_ai/api/routes/imports.py:943-1008 | Named shift types say what their rows say, all others stay; existing ids are kept and new ones are fresh |
| `ShiftImportOrder.RearrangedIsAccepted` | src/work_schedule_ai/api/routes/imports.py:626-736 | A rearrangement of an accepted batch is accepted |
| `ShiftImportOrder.ImportIgnoresOrderAndRepetition` | src/work_schedule_ai/api/routes/imports.py:943-1008 | Any rearrangement of an accepted batch, applied once or again on top, leaves the same shift types and requirements |
| `ShiftImportOrder.OneRequirementPerRole` | src/work_schedule_ai/api/routes/imports.py:943-1008 | After an accepted import a shift type it names has one requirement per role |

## Left out

- The search of the constraint engine, its time limit and random seed: only what its answers promise is used.
- Floating point: hours are compared and reported as integer seconds, and lease times are integers.
- SHA-256 and JSON text: a snapshot is the list of rows that is rendered, an instance key the tuple that is hashed, a queue payload its three fields.
- Payloads in the older text form and the second parsing of a job's run id in the worker: both only recover a run id.
- Redis and database failures, including an acknowledgement that raises; a blocking dequeue is one that finds nothing or something.
- Liveness of recovery: it runs when a worker starts and looks at a bounded prefix, so only safety is claimed.
- A worker loop without a job limit, which does not end.
- The recalculation and publication routes, which are not part of this model; recalculation commits before it enqueues.
- Requeue queries are given as the list they select; its limit and order do not matter to what is proved.
- QueueProtocol.NoStrandedRun: excludes a recovering worker that dies while it holds a payload, because such a crash loses it; that loss is proved beside it. It asks that no row is stored as running, which `RunSessions.OverlapKeepsComplete` proves of the run record.
- QueueProtocol.NoStrandedRunTimely: for a database that holds running rows it asks that resets be timely, because otherwise it is false; the exact condition is proved beside it.
- RunRecord.RecordStaysCoherent: takes each operation as one step; what overlapping sessions keep and can spoil is proved in `RunSessions`, which does not order the start and finish times.
- ComplianceReviews.RestWarnedIff: asks that an employee's rows start at different times, because on a tie the stable sort follows the list; ComplianceMeaning.RestScanIsAllPairs asks no such thing.
- ComplianceReviews.ConsecutiveWarnedIff: the same; ComplianceMeaning.ConsecutiveNightsAreCounted asks no such thing.
- ShiftImportContents.TimeIsValidIff: is said for the ten ASCII digits; other scripts' digits are read by the reader's digit values.
- ShiftTable.ShiftTypes.CreateShiftType: a time's digits are the ten ASCII ones, while the program's pattern also admits digits of other scripts; a failing authorization or an unknown organization is not modelled.
- ShiftTable.ShiftTypes.UpdateShiftType: the same.
- LeaseExclusion.LeasesExclude: besides one-step deliveries and executions within the lease, it asks that a payload be removed only while still recoverable, because without that it is false; the exact condition and a run are proved beside it.
- Mixed-offset timestamps, and labels beyond whether they contain the word for night.
- Overlapping slots when no minimum rest is set: the program promises nothing there.
- Solver slots whose texts parse to no date or time, which raise before anything is built.
- Custom or duplicate names of shift types: the table's unique names are taken from its database constraint.
- The toggling and summary helpers of the shift profile, and the draft summary: simple sets and strings.
- The empty-file and missing-column errors of the import, spreadsheet reading, and the four other import kinds.
- Employee-row import: it does not remove repeated role names before inserting unique links, so no such claim is made.
- HTTP routes, authentication, tenancy, notifications, retrieval, generated text and the user interface.

# Verification of the scheduling agent and the alert loop

This project models three parts of the system and proves what they guarantee.

**The agent.** Each GPU node runs a daemon that queues tasks, collects samples of its cards, attributes GPU processes
to tasks, and admits queued tasks against a ledger of declared and unmanaged memory. `TaskQueues`, `Attribution`,
`History`, `Scheduler` and `Daemon` hold the code that updates state in place; each method is tied to a function of
`QueueSpec`, `Attribution`, `Scheduling`, `Reclaim` or `Node`. `Node` makes the daemon a state machine whose steps are
the locked operations, with the collection cycle split into the snapshot and the locked rest, so that other operations
can run in between. `Runs` adds the history the guarantees speak about, and `RunSafety`, `CapacityLimit`,
`DualLedger`, `ExclusiveRuns`, `HistoryRuns` and `Reporting` prove them over whole runs: how much a card can be
declared, what admission leaves for unmanaged memory, what exclusive means, what the sample history holds, and how
often an ended task is reported. `BatchRefinement` and `BatchLimit` say when a batch decides as its tasks would singly
and gives no GPU twice; `Launches`, `CrowdNodes` and `HolderRuns` carry that to runs. `Records` adds what each record
says in each status.

Five modules say in plain numbers, without the functions the code is written with, what the steps decide: `Offers` and
`PickRuns` which GPUs a task is given, `SubmitMeaning` which submissions are accepted, `AttributionMeaning` whose
process is whose, and `OperationMeaning` what the operations do to a task. `Journals` proves over runs that every
field of every record tells what the run did to the task, and `ReclaimRuns` from that when an exclusive hold is
reclaimed.

**The server's alerts.** Detectors keep their state in a string-keyed store (`StateStore`, `Thresholds`, `GpuIdle`);
`AlertTables` reconciles the anomalies with a three-status table and a transition log; `AlertEngines` puts them
together, with what the shared store holds after the reports of several servers (`EngineRuns`). `AlertRuns` proves log
replay and mutual exclusion of offline and other alerts over runs, `AlertBroadcasts` when the broadcasts about an
alert alternate. `ReportMeaning` and `IdleMeaning` say of the reports and settings alone which anomalies are raised
and what they say.

**Two algorithms of the web page.** `Lcs` is the table behind the name suggestions, `Apportionment` and `OwnerGroups`
the largest-remainder split of a card's managed memory, of which `GroupMeaning` says in whole numbers who gets what.

Memory that the agent keeps as a float is a `real`, and so are the factors 0.98, 1.05, 1.1 and 0.7; declared sizes are
whole megabytes. Identifiers are strings, and the generated ones are assumed not to repeat; server ids hold no colon
because they are UUIDs (`server/core/src/db/servers.ts:47`). Process lists, card readings, exit codes, pids, clock
readings and the owners that the operating system reports are inputs, arbitrary on every step.

Some claims that look right fail for the code as it is, and the project says exactly when they hold:

- Capacity holds on a card over all runs if and only if the card is safe to reclaim on, whatever the other cards are
  (`CapacityLimit.CapacityExactly`); one comparison decides it (`Reclaim.ReclaimSafeExactly`). On any other card the
  reclaim itself sets the limit, and a run reaches it.
- A batch decides as its tasks would singly, on every node, if and only if no exclusive task is queued behind a shared
  one that reserves nothing (`BatchLimit.AgreesExactly`). Under that same condition, and no other, a batch gives every
  exclusive task GPUs of its own on every node (`BatchLimit.AloneExactly`), and the next cycle of a run leaves every
  exclusive holder without another live task on its GPU (`HolderRuns.AloneExactlyOverRuns`). From any reachable state
  with a queue out of order, two steps lead to a shared GPU (`HolderRuns.OutOfOrderShares`), and from the start on any
  single card (`SharedHolder.HolderIsNotAlone`); nothing but such a shared task can join a holder
  (`RunSafety.ExclusivityOverRuns`).
- An ended task is reported once, plus once for each cancel that finds it ended and already reported; so exactly once
  if and only if there was no such cancel, unless the cap dropped it (`Reporting.ReportedExactlyOnce`).
- The broadcasts about an alert alternate and keep alternating if and only if it was never silenced while it was
  active (`AlertBroadcasts.AlternatesExactly`).
- A comment in the tick says that a task may already be terminal when its observation is read; it never is
  (`TickMeaning.TerminalSkipUnreachable`).

`dafny verify dfyconfig.toml` checks the whole project.

## Model

| member | source | states |
|---|---|---|
| RunSafety.CapacityOverRuns | agent/pmeow/queue/scheduler.py:131-191 | in every state that any run reaches, the declared memory of all reserved and running tasks on a card that is safe to reclaim on is at most 0.98 of it, whatever the other cards are |
| RunSafety.LoadOverRuns | agent/pmeow/daemon/service.py:518-555 | on any card, safe or not, it is at most 0.98 of the card or the most a reclaim can leave there, whichever is more |
| CapacityLimit.CapacityExactly | agent/pmeow/daemon/service.py:545-555 | card by card: capacity holds on the card in every reachable state of every run if and only if the card is safe to reclaim on |
| CapacityLimit.UnsafeCardOverflows | agent/pmeow/daemon/service.py:484-560 | on a card that is not safe the limit lies above 0.98 of it, and a run (submit, sample, cycle, sample, cycle) ends with exactly that much declared |
| RunSafety.ExclusivityOverRuns | agent/pmeow/queue/scheduler.py:227-256 | while a task holds a GPU exclusively, any other live task there is a shared task of reservation 0, decided earlier in the very batch that decided the holder; on any node |
| ExclusiveRuns.ExclusiveMeansAlone | agent/pmeow/queue/scheduler.py:321-326 | if no cycle of the run finds an exclusive task queued behind a shared one that reserves nothing, a GPU held exclusively has no other live task |
| ExclusiveRuns.PositiveRunsAreInOrder | agent/pmeow/daemon/service.py:319-331 | runs whose shared submissions all reserve a positive amount are such runs |
| ExclusiveRuns.DecisionsInTurn | agent/pmeow/queue/scheduler.py:279-328 | on such a queue no decision of a batch gives a whole GPU behind one that gives GPUs to a shared task that reserves nothing |
| SharedHolder.HolderIsNotAlone | agent/pmeow/queue/scheduler.py:325-326 | the condition is needed: on any card a run from the start (two submissions, a snapshot, a cycle) ends with an exclusive holder and a shared task on one GPU |
| HolderRuns.AloneExactlyOverRuns | agent/pmeow/daemon/service.py:190-297 | the condition is exact over runs: from any state of a run in order, a snapshot and a cycle leave every exclusive holder alone, whatever further cards the node has and whatever they show, if and only if no exclusive task is queued behind a shared one that reserves nothing |
| HolderRuns.OutOfOrderShares | agent/pmeow/queue/scheduler.py:321-326 | from any state of any run whose queue is out of order, on a node with enough further idle cards, a snapshot and a cycle end with an exclusive holder and another live task on one GPU |
| Launches.LaunchReaches | agent/pmeow/daemon/service.py:256-297 | when every launch succeeds, each decision ends with its task live and holding exactly the GPUs the decision gives, whatever is launched before and after |
| CrowdNodes.CrowdSample | agent/pmeow/collector/snapshot.py:73-112 | idle cards that no live task uses show as empty cards in index order, whatever the live tasks hold elsewhere |
| RunSafety.NextKeepsInv | agent/pmeow/daemon/service.py:190-312 | every enabled step (submit, priority, cancel, confirm, finish, fail, observation, snapshot, cycle) keeps the invariant behind capacity and exclusivity |
| RunSafety.LifecycleOverRuns | agent/pmeow/state/task_queue.py:117-121 | in every reachable state the four maps are disjoint, hold only their own status under the task's own id, and the queued tasks stand in (priority, created_at) order |
| NodeSafety.LaunchIsSafe | agent/pmeow/daemon/service.py:256-297 | applying a batch's decisions, wherever a failed launch or a lost task cuts it short, leaves loads, exclusivity and admissions sound |
| Admitting.AdmitIsSafe | agent/pmeow/queue/scheduler.py:300-327 | admitting one task on what the ledger offers keeps every load within its card's limit and every exclusive hold compatible with the tasks around it, and the in-batch maps keep booking all that was granted |
| Admitting.CoveredIsBooked | agent/pmeow/queue/scheduler.py:131-191 | at the start of a batch, a sample that shows every live task makes the ledger book at least the real load and every exclusive hold |
| DualLedger.DualLedgerOverRuns | agent/pmeow/queue/scheduler.py:154-200 | in every reachable state with a snapshot in flight, the batch of a cycle raises the declared memory of a GPU only if it then fits 0.98 of the card together with 1.05 of the largest unmanaged memory seen in the window |
| DualLedger.LaunchFits | agent/pmeow/daemon/service.py:256-297 | the same of the launches of any batch on any booked state, however far they get |
| Safety.ReclaimIsSafe | agent/pmeow/daemon/service.py:484-560 | shrinking exclusive holds keeps all loads within the cards' limits and creates no new exclusive hold |
| Safety.WeakerIsSafe | agent/pmeow/state/task_queue.py:381-401 | tasks that leave or keep their claims cannot break the limits or exclusivity |
| NodeSafety.SampleOfOk | agent/pmeow/collector/snapshot.py:73-112 | a snapshot shows every live task with its declaration and its exclusive flag on every assigned GPU it lists, with the card's own total |
| Loads.ManagedCoversLoad | agent/pmeow/queue/scheduler.py:160-164 | the ledger's managed sum is at least the load of all live tasks that the summary lists |
| BatchRefinement.BatchEqualsOneByOne | agent/pmeow/queue/scheduler.py:265-328 | for distinct GPU indices, reservations that are not negative and no exclusive task behind a shared one that reserves nothing, one batch with its pending maps decides exactly what scheduling the tasks one at a time decides when each decision is first written into the sample as a real allocation; for any number of GPUs asked for |
| BatchLimit.AgreesExactly | agent/pmeow/queue/scheduler.py:279-328 | that condition on the queue is exact: the two agree on every node and history if and only if it holds (distinct task ids, GPU counts not negative) |
| BatchLimit.AloneExactly | agent/pmeow/queue/scheduler.py:300-328 | on every node and history the batch gives every exclusive task GPUs that no earlier decision of the batch gives, if and only if no exclusive task is queued behind a shared one that reserves nothing (distinct task ids, GPU counts not negative) |
| BatchRefinement.ZeroReservationWitness | agent/pmeow/queue/scheduler.py:325-326 | on every idle card the batch makes two decisions for a shared task that reserves nothing followed by an exclusive one, one at a time makes only the first |
| BatchRefinement.BatchFollowsOneByOne | agent/pmeow/queue/scheduler.py:279-328 | the same equality from any batch state whose pending maps stand for allocations already in the sample |
| SchedulingFacts.DiagnosisExact | agent/pmeow/queue/scheduler.py:300-369 | a task is 'scheduled' iff enough GPUs are eligible now, 'blocked by higher priority' iff it is not and would fit without the batch's reservations, otherwise 'insufficient GPU count'; the fourth reason is unreachable |
| SchedulingFacts.EveryEvaluationDiagnosed | agent/pmeow/queue/scheduler.py:279-371 | that diagnosis holds for every evaluation of every batch, in the batch state the task meets |
| SchedulingFacts.EligibilityShrinks | agent/pmeow/queue/scheduler.py:198-256 | more reservations, more exclusive GPUs or more history never make more GPUs eligible |
| SchedulingFacts.PickCorrect | agent/pmeow/queue/scheduler.py:373-401 | a pick needs enough eligible GPUs; the GPUs picked are eligible, distinct, as many as asked, and no eligible GPU left out has more free memory |
| Offers.GivenExactly | agent/pmeow/queue/scheduler.py:131-256 | in plain numbers, without the eligibility test: a GPU is offered to an exclusive task iff it is not withheld in the batch, shows no task, utilization below 3, used and unmanaged memory below 3% of the card, and no task and unmanaged memory below 3% in every sample of the window that lists it; to a shared task iff no exclusive task holds it and 0.98 of the card holds what is declared, booked and asked for and 1.05 of the unmanaged peak; a task is given GPUs iff so many are offered as it asks for, and then offered ones with the most room |
| Offers.EligibleAreOffered | agent/pmeow/queue/scheduler.py:300-369 | the GPUs that an evaluation names as eligible are exactly those offered |
| Offers.BlockersAreEarlier | agent/pmeow/queue/scheduler.py:279-369 | the blockers an evaluation names are the tasks decided before it in the batch, in order |
| PickRuns.WholeGivenOverRuns | agent/pmeow/queue/scheduler.py:227-256 | over runs: each GPU that a cycle gives an exclusive task shows, in the snapshot in flight, no task, utilization below 3, used memory and unmanaged memory below 3% of the card, and in every sample of the window that lists it no task and unmanaged memory below 3% |
| PickRuns.WholeGivenInLog | agent/pmeow/queue/scheduler.py:242-255 | with a clock that never goes back, the same of every snapshot of the run in the window, also those the history has pruned |
| PickRuns.SharedGivenOverRuns | agent/pmeow/queue/scheduler.py:154-200 | over runs: each GPU that a cycle gives a shared task shows no exclusive task in the snapshot in flight, and 0.98 of the card holds the declarations it shows, 1.05 of the largest unmanaged memory of the window and the reservation |
| PickRuns.HeadServedExactly | agent/pmeow/queue/scheduler.py:279-328 | over runs: the first queued task is live after a cycle iff the snapshot in flight offers as many GPUs as it asks for |
| SchedulingFacts.PeakIsMaximum | agent/pmeow/queue/scheduler.py:139-152 | the unmanaged peak bounds every sample of its GPU and is 0 or attained |
| SchedulingFacts.PeakOverFullLog | agent/pmeow/queue/history.py:16-36 | the peak taken from the pruned history is the maximum over everything ever recorded in the window and the current sample |
| HistoryRuns.SamplesAreRecorded | agent/pmeow/queue/history.py:16-21 | in every reachable state, whatever the clock did, the node's samples are what recording the snapshots of all cycles of the run leaves |
| HistoryRuns.EveryRunLogs | agent/pmeow/daemon/service.py:212-215 | every run has such a log of the snapshots its cycles recorded |
| HistoryRuns.PeakOverRun | agent/pmeow/queue/scheduler.py:139-152 | in every cycle of every run with a clock that never goes back, the peak in a GPU's ledger is the maximum of its unmanaged memory over all the run's own snapshots in the window |
| HistoryRuns.LastSampleOverRuns | agent/pmeow/daemon/service.py:190-215 | in every reachable state the sample that submissions are checked against is that of the last recorded snapshot, and there is none before the first cycle |
| SchedulingFacts.SubmitCheckExact | agent/pmeow/queue/scheduler.py:90-114 | for shared requests the submit check accepts iff the request is admitted on the same node when empty, and a refused one is admitted by no ledger over the same totals, whatever the history, tasks and reservations |
| SchedulingFacts.RefusedNeverAdmitted | agent/pmeow/queue/scheduler.py:99-113 | a refused request is picked on no sample with the same totals |
| SchedulingFacts.AcceptedAdmittedWhenEmpty | agent/pmeow/queue/scheduler.py:373-385 | an accepted request is picked on the empty node |
| Scheduler.BuildGpuLedgers | agent/pmeow/queue/scheduler.py:131-191 | the loops over history and sample build, GPU by GPU, the ledger defined from the maximum of the unmanaged memory |
| Scheduler.EvaluateTask | agent/pmeow/queue/scheduler.py:279-369 | one turn of the loop gives the task's evaluation in the batch state it meets |
| Scheduler.QueueScheduler.TrySchedule | agent/pmeow/queue/scheduler.py:265-371 | the loop with its pending maps evaluates and decides as `Scheduling.Schedule` does, task after task, on the history window; what that decides is said in plain numbers by `Offers` and `PickRuns` |
| QueueSpec.ReorderedCorrect | agent/pmeow/state/task_queue.py:408-413 | re-sorting keeps the tasks, orders them by (priority, created_at) and leaves equal keys in the order they had |
| Sorting.StableSortCorrect | agent/pmeow/queue/scheduler.py:384-385 | the sort's result is ordered, a permutation of its input, and stable |
| TickMeaning.TickCorrect | agent/pmeow/state/task_queue.py:143-196 | one tick ends exactly the running tasks with a buffered completion (the first one counts) and the other live tasks with a runtime observation (the first one counts), returns no id twice, touches no other live task, and keeps the newest 64 of the unreported and newly ended tasks in order |
| TickMeaning.TerminalSkipUnreachable | agent/pmeow/state/task_queue.py:176-178 | the task that a runtime observation finds is never terminal, so the skip is dead code |
| TaskQueues.TaskQueue.Tick | agent/pmeow/state/task_queue.py:143-196 | the in-place tick reaches the state and returns the ids of `QueueSpec.Tick` |
| TaskQueues.TaskQueue.ConsumeCompletions | agent/pmeow/state/task_queue.py:150-166 | the first loop ends the tasks that the completions, taken in order, end |
| TaskQueues.TaskQueue.ConsumeRuntimes | agent/pmeow/state/task_queue.py:168-183 | the second loop ends the tasks that the runtime observations, taken in order, end |
| TaskQueues.TaskQueue.ReclaimReported | agent/pmeow/state/task_queue.py:185-189 | removes exactly the reported terminal tasks and keeps the order of the rest |
| TaskQueues.TaskQueue.CapTerminal | agent/pmeow/state/task_queue.py:191-194 | drops the oldest terminal tasks beyond 64 |
| QueueSpec.CappedIsSuffix | agent/pmeow/state/task_queue.py:191-194 | what the cap leaves is the newest 64 entries, in order, unchanged |
| TaskQueues.TaskQueue.Submit | agent/pmeow/state/task_queue.py:202-230 | adds the new task in its place in the order and keeps the lifecycle invariant |
| TaskQueues.TaskQueue.Reserve | agent/pmeow/state/task_queue.py:236-254 | moves a queued task to reserved with its GPUs, deadline and declaration |
| TaskQueues.TaskQueue.Start | agent/pmeow/state/task_queue.py:256-268 | moves a reserved task to running with the pid and the start time given; over runs `Journals.RecordsTell` |
| TaskQueues.TaskQueue.Cancel | agent/pmeow/state/task_queue.py:274-282 | ends the task wherever it is, a finished one included, and says whether it was there |
| TaskQueues.TaskQueue.SetPriority | agent/pmeow/state/task_queue.py:300-307 | changes a queued task's priority and restores the order; other tasks are refused |
| TaskQueues.TaskQueue.Get | agent/pmeow/state/task_queue.py:313-320 | finds something exactly if one of the four maps has the id, and then the record with that id which that map holds, in the status of that map |
| TaskQueues.TaskQueue.ToSnapshot | agent/pmeow/state/task_queue.py:347-375 | lists queued then reserved, running and ended tasks as they were, and flags all ended ones as reported |
| TaskQueues.TaskQueue.TransitionToTerminal | agent/pmeow/state/task_queue.py:381-401 | takes the task out of every active map and files it among the ended ones, unreported: last, or in its old place if it was there |
| TaskQueues.TaskQueue.ReorderQueued | agent/pmeow/state/task_queue.py:408-413 | rebuilds the dictionary in the sorted order |
| Records.RecordsOverRuns | agent/pmeow/state/task_queue.py:236-268 | in every reachable state each record fits its status: GPUs, declaration, deadline (foreground only), pid and times are set from their transition on; succeeded iff the exit code is 0, failed iff it is another, no exit code when cancelled or abnormal |
| Records.ReportListsEachOnce | agent/pmeow/state/task_queue.py:347-375 | a report lists every task exactly once, queued and reserved ones as queued, running and ended ones under their own heading |
| Journals.RecordsTell | agent/pmeow/state/task_queue.py:202-282 | over runs: every record is exactly what the run did to the task. It keeps what the accepted spec asked for and the time of submission, the last priority set, the GPUs and deadline of the launching cycle, the pid and clock of the cycle or confirmation that started it, what each cycle since observed, and how, when and with which exit code it ended |
| Journals.EveryRunTells | agent/pmeow/daemon/service.py:190-461 | every run has such a journal of each of its tasks |
| OperationMeaning.PriorityExactly | agent/pmeow/state/task_queue.py:300-307 | a queued task gets the very priority given; any other task and every other record stay as they are |
| OperationMeaning.CancelExactly | agent/pmeow/state/task_queue.py:274-282 | a known task becomes cancelled by the user at that time and leaves every active map; an unknown one changes nothing, and no other record changes |
| OperationMeaning.ConfirmExactly | agent/pmeow/state/task_queue.py:256-268 | a reserved task becomes running with the pid and the time given; any other changes nothing, and no other record changes |
| OperationMeaning.FinishExactly | agent/pmeow/daemon/service.py:423-436 | a running foreground task without earlier news ends at that time with that exit code, succeeded iff it is 0; an unknown or background one changes nothing, and no other task without news changes |
| OperationMeaning.FailExactly | agent/pmeow/daemon/service.py:438-461 | a reserved foreground task without earlier news ends as abnormal at that time; any other changes nothing, and no other task without news changes |
| OperationMeaning.AtMostSixtyFour | agent/pmeow/state/task_queue.py:191-194 | a tick leaves at most 64 ended tasks, all of them if there are no more, else the newest 64 in order |
| Reporting.ReportsAddUp | agent/pmeow/state/task_queue.py:185-196 | the account of every run: an accepted task is reported as ended not at all while it is queued or live, and else once, plus once for each cancel that found it ended and reported, less one if its record waits for its report or was dropped by the cap |
| Reporting.ReportedExactlyOnce | agent/pmeow/state/task_queue.py:185-196 | over any run, a task that has ended, waits for no report and was not dropped by the cap was reported exactly once if and only if no cancel found it ended and reported |
| Reporting.ReportedAtMostOnce | agent/pmeow/state/task_queue.py:347-375 | without such a cancel of this task it is never reported twice, whatever happens to the others |
| Reporting.NextKeepsAccount | agent/pmeow/state/task_queue.py:347-375 | each step keeps each task's account, and only a cancel that finds the task ended and reported adds to it |
| Reporting.EveryRunCounts | agent/pmeow/state/task_queue.py:274-282 | every run has some number of such cancels of the task, so the account covers all runs |
| Reporting.TickPlaces | agent/pmeow/state/task_queue.py:185-196 | what a tick removes was already reported or is dropped by the cap; what it keeps waits unreported |
| Reporting.LateCancelExactly | agent/pmeow/state/task_queue.py:274-282 | let a cancel be followed by a cycle that completes and does not drop the task: then it has been reported twice if and only if the cancel found it ended and reported |
| Reporting.LateCancelWitness | agent/pmeow/state/task_queue.py:313-320 | a run from the start, with its steps, that reports one task twice |
| Daemon.DaemonService.SubmitTask | agent/pmeow/daemon/service.py:319-331 | normalises, refuses with the error of the rules, or queues; the node changes as the submit step says; when it refuses is said by `SubmitMeaning.SubmitExactly` |
| Node.OnlyTwoErrors | agent/pmeow/daemon/service.py:467-482 | after normalisation only two refusals are left: a request the cards can never hold, and a negative one |
| SubmitMeaning.SubmitExactly | agent/pmeow/daemon/service.py:319-331 | without naming the check: a submission is refused as impossible iff a last sample with cards is known and the task asks for more GPUs than it lists cards or, being shared, than it lists cards of which 0.98 holds the amount; a negative amount is refused otherwise; everything else is accepted, and a refusal changes nothing |
| SubmitMeaning.SharedAccepted | agent/pmeow/daemon/service.py:319-331 | with a known sample, a shared spec that asks for a non-negative amount is accepted iff it is picked on those cards when empty |
| SubmitMeaning.RefusedIsHopeless | agent/pmeow/queue/scheduler.py:99-113 | a shared spec refused as impossible is picked on no view with the same totals, whatever is booked |
| SubmitMeaning.ExclusiveAccepted | agent/pmeow/queue/scheduler.py:98-103 | an exclusive spec is accepted iff no sample with cards is known or it asks for no more GPUs than the sample lists |
| Daemon.DaemonService.CancelTask | agent/pmeow/daemon/service.py:354-364 | the locked cancel does the cancel step and says whether the task existed |
| Daemon.DaemonService.SetTaskPriority | agent/pmeow/daemon/service.py:403-411 | the locked priority change does the priority step |
| Daemon.DaemonService.ConfirmForegroundLaunch | agent/pmeow/daemon/service.py:413-421 | starts the task iff it is reserved |
| Daemon.DaemonService.FinishForegroundTask | agent/pmeow/daemon/service.py:423-436 | pushes the completion and ticks iff the task exists and is a foreground one |
| Daemon.DaemonService.FailForegroundLaunch | agent/pmeow/daemon/service.py:438-461 | pushes the failure and ticks iff the task is a reserved foreground one, and the flag says so |
| Daemon.DaemonService.CollectSnapshot | agent/pmeow/collector/snapshot.py:73-112 | the sample in flight is the attribution of running then reserved tasks, or empty without cards |
| Daemon.DaemonService.UpdateAutoVramReclaim | agent/pmeow/daemon/service.py:484-515 | the loop updates every running task exactly as the per-task rule says and nothing else |
| Daemon.FinishReclaim | agent/pmeow/daemon/service.py:517-555 | the loop over the assigned GPUs fills the reclaim map entry by entry from peaks and totals |
| Daemon.ObservePeaks | agent/pmeow/daemon/service.py:503-510 | the loop raises each stored peak to the rounded-up use when that is larger |
| Daemon.ReadSample | agent/pmeow/daemon/service.py:485-490 | the table of the sample holds the last listed use of each task on each GPU, and each card's total |
| Daemon.DaemonService.LaunchAll | agent/pmeow/daemon/service.py:256-297 | the loop over the decisions applies them in order and stops where a launch fails |
| Daemon.DaemonService.RunCycle | agent/pmeow/daemon/service.py:212-301 | the locked half of a cycle does the cycle step: history, exits, tick, reclaim, scheduling, launches and report |
| Reclaim.ReclaimBounds | agent/pmeow/daemon/service.py:551-553 | a peak is reclaimed iff it is below 0.7 of a card of known size, and then to the least whole number that is at least peak + 512 and at least 1.1 times the peak |
| Reclaim.ReclaimSafeExactly | agent/pmeow/daemon/service.py:542-553 | a card is safe to reclaim on iff it lets no positive peak through or its largest one fits: one comparison |
| Reclaim.LargestReclaimDecides | agent/pmeow/daemon/service.py:542-553 | the most a reclaim can leave on the card is the result of a reclaim, and comparing it with 0.98 of the card decides the card's safety |
| Reclaim.LargeCardsAreSafe | agent/pmeow/daemon/service.py:542-553 | every card of at least 1829 MB is safe |
| Reclaim.SmallCardWitness | agent/pmeow/daemon/service.py:542-553 | an 1800 MB card is not: peak 1259 is reclaimed to 1771 |
| Reclaim.ReclaimOverLife | agent/pmeow/daemon/service.py:484-560 | over a task's whole life each stored peak is the largest rounded-up positive use up to the end of the window, the reclaim happens once, in the first round at or after that end, and no later round changes it |
| ReclaimRuns.ReclaimOverRuns | agent/pmeow/daemon/service.py:484-560 | over runs: the hold of a running exclusive task is not reclaimed while no cycle since its start came at or after that start plus its window (300 s unless the spec says otherwise); the first such cycle reclaims it, from the largest rounded-up use that the cycles up to it observed on each GPU, for good |
| ReclaimRuns.RoundShows | agent/pmeow/daemon/service.py:485-490 | what a cycle observes of a task on a GPU is the memory of its last entry there in the sample, and the total is the card's |
| Reclaim.MaxCeilIsMaximum | agent/pmeow/daemon/service.py:507-510 | that largest use bounds every one seen, and is one of them and positive |
| Reclaim.NoSampleStaysExclusive | agent/pmeow/daemon/service.py:533-540 | a GPU without any positive sample stays exclusive for good |
| Attribution.AttributeGpuProcesses | agent/pmeow/collector/gpu_attribution.py:140-298 | the bucket-filling loops produce, for every GPU in increasing order, exactly the summary defined from the processes and tasks; what that summary says of whom is `AttributionMeaning.SummaryExactly` |
| Attribution.BuildPidOwners | agent/pmeow/collector/gpu_attribution.py:151-155 | the last task with a pid owns it, of whatever kind it is (`AttributionMeaning.OwnersMean`) |
| Attribution.SortProcesses | agent/pmeow/collector/gpu_attribution.py:175-224 | the loop files each process in the task, user or unknown bucket of its own GPU |
| Attribution.KeepReservationsVisible | agent/pmeow/collector/gpu_attribution.py:226-248 | the loop adds one entry for each claim that no process has shown, once |
| AttributionFacts.ReservationVisible | agent/pmeow/collector/gpu_attribution.py:226-248 | every input task appears with its declared memory and exclusive flag on each assigned GPU of the result, whether or not it has a process there |
| AttributionFacts.EachProcessOnce | agent/pmeow/collector/gpu_attribution.py:175-224 | on each GPU, task, user and unknown entries together are the GPU's processes, each exactly once |
| AttributionFacts.AttributionConserves | agent/pmeow/collector/gpu_attribution.py:250-287 | attributed memory over all GPUs adds up to the memory of all processes |
| AttributionFacts.SampleIndices | agent/pmeow/collector/gpu_attribution.py:250-258 | the result lists distinct GPUs: those of the cards, of the used-memory table and of the processes |
| AttributionMeaning.SummaryExactly | agent/pmeow/collector/gpu_attribution.py:151-224 | in terms of the tasks alone: the entries of a GPU begin with its processes whose pid some task has, each under the last listed task with that pid, with pid and memory; its user and unknown entries are exactly its other processes, split by whether an owner is known; and its unmanaged memory is theirs |
| AttributionMeaning.ProcessIsListed | agent/pmeow/collector/gpu_attribution.py:175-196 | where no two tasks have one pid, a process with a task's pid is listed on its GPU under that task with its pid and memory |
| AttributionMeaning.RestIsWaiting | agent/pmeow/collector/gpu_attribution.py:226-248 | every entry behind those of the processes stands for a task assigned to the GPU of which no process is shown there; it uses nothing and has no pid |
| AttributionMeaning.CardShown | agent/pmeow/collector/gpu_attribution.py:250-298 | a card is shown with its own total and utilization, and as memory used with its own figure or the memory of the processes on it, whichever is more |
| AttributionMeaning.ManagedIsLoad | agent/pmeow/queue/scheduler.py:160-164 | where a summary lists each live task of its GPU once and nothing else, the ledger's managed sum is exactly what the live tasks declare there |
| History.GpuHistoryTracker.Record | agent/pmeow/queue/history.py:16-21 | appends and prunes; the stored list is what recording the whole log leaves |
| History.GpuHistoryTracker.GetHistory | agent/pmeow/queue/history.py:23-29 | returns exactly the stored samples not older than the cutoff, as often and in the order they are stored |
| History.SinceMeans | agent/pmeow/queue/history.py:23-36 | what pruning and querying keep: all places of the list, in order, whose sample is not older than the cutoff |
| History.WindowEqualsFullLog | agent/pmeow/queue/history.py:16-36 | for record times that never go back and a window no longer than the tracker's, the pruned list answers like the full log |
| AlertTables.AlertDb.ReconcileAlerts | server/core/src/db/alerts.ts:64-117 | applies the six rules to one server's alerts, leaves every other row alone, returns exactly the keys whose status changed and logs one entry for each |
| AlertTables.AlertDb.ResolveLost | server/core/src/db/alerts.ts:78-88 | the first loop resolves the active alerts without a candidate |
| AlertTables.AlertDb.ApplyCandidates | server/core/src/db/alerts.ts:90-113 | the second loop creates, revives or refreshes one alert for each candidate key |
| AlertTables.BuildCandidateMap | server/core/src/db/alerts.ts:73-76 | a lookup by string key gives the last candidate of that type and fingerprint |
| AlertTables.AlertDb.GetActiveAlerts | server/core/src/db/alerts.ts:24-26 | the active rows of the server, each once, in an order left open |
| AlertTables.AlertDb.SilenceAlert | server/core/src/db/alerts.ts:123-132 | silences an active or resolved alert; an unknown or silenced one changes nothing |
| AlertTables.AlertDb.UnsilenceAlert | server/core/src/db/alerts.ts:134-142 | resolves a silenced alert; any other changes nothing |
| AlertTables.AlertDb.BatchSilenceAlerts | server/core/src/db/alerts.ts:144-151 | silences the ids one after the other and lists the changes |
| AlertTables.AlertDb.BatchUnsilenceAlerts | server/core/src/db/alerts.ts:153-160 | unsilences the ids one after the other and lists the changes |
| AlertTables.AlertDb.DeleteAlertsByServerId | server/core/src/db/alerts.ts:166-169 | removes the server's rows with their log entries, and the log of every other alert still replays |
| AlertFacts.SilenceExactly | server/core/src/db/alerts.ts:123-132 | exactly one row changes, to silenced at that time with all else kept, and one entry is logged, from its old status; an unknown or silenced alert changes nothing |
| AlertFacts.UnsilenceExactly | server/core/src/db/alerts.ts:134-142 | exactly one row changes, from silenced to resolved at that time, and one entry is logged; any other alert changes nothing |
| AlertFacts.SilenceAllExactly | server/core/src/db/alerts.ts:144-151 | after a batch the listed alerts are silenced and no other row differs |
| AlertFacts.UnsilenceAllExactly | server/core/src/db/alerts.ts:153-160 | after a batch none of the listed alerts is silenced, the silenced ones among them are resolved, and no other row differs |
| AlertFacts.DeleteExactly | server/core/src/db/alerts.ts:166-169 | no row of the server and no log entry of its alerts is left; every other row and its log entries are as before |
| AlertSpec.LastOneCounts | server/core/src/db/alerts.ts:73-76 | of several anomalies with one type and fingerprint the last one is the candidate |
| AlertSpec.AlertKeyInjective | server/core/src/db/alerts.ts:175-177 | two string keys are equal iff type and fingerprint are, whatever characters the fingerprints hold |
| AlertFacts.SixRules | server/core/src/db/alerts.ts:47-63 | the table of the six rules, row by row, for this server's keys; nothing for other servers; a key is returned iff its status changed |
| AlertFacts.SecondIsQuiet | server/core/src/db/alerts.ts:64-117 | a second reconciliation with the same candidates changes no status, logs nothing and returns nothing |
| AlertFacts.ReconcileKeepsInv | server/core/src/db/alerts.ts:204-212 | a reconciliation keeps every alert's log replaying to its status, with unique ids |
| AlertFacts.ReplayIsChain | server/core/src/db/alerts.ts:209-212 | replay succeeds iff the entries form a connected chain from 'resolved', and ends where the chain ends |
| AlertRuns.LogReplays | server/core/src/db/alerts.ts:204-212 | after any run of reconciliations, user actions, batches and deletions, each alert's log is a connected chain from 'resolved' that changes the status at every link and ends in the stored status |
| AlertRuns.OfflineExcludesTheRest | server/core/src/alert/engine.ts:21-52 | in every state that reports, sweeps and user actions reach, no server has an active offline alert together with an active alert of another type |
| AlertBroadcasts.AlternatesExactly | server/core/src/alert/engine.ts:7-12 | after any run the broadcasts about an alert alternate, and keep alternating however the run goes on without silencing it while it is active, if and only if it was never silenced while it was active |
| AlertBroadcasts.BroadcastsAlternate | server/core/src/alert/engine.ts:7-12 | over any run of reports, sweeps, user actions and deletions, the broadcasts about an alert that was not silenced while active alternate active, resolved, active |
| AlertBroadcasts.SilencingRepeatsActive | server/core/src/db/alerts.ts:134-142 | any run in which it was goes on, with at most an unsilence and a reconciliation, to a state where two broadcasts about it in a row have said 'active' |
| AlertBroadcasts.ReachedMirrors | server/core/src/db/alerts.ts:204-212 | after any run, what was sent about an alert that is there is entry by entry what its log says, deletions of other servers included |
| AlertBroadcasts.KnownCanBeReconciled | server/core/src/db/alerts.ts:64-117 | for candidates about known alerts a reconciliation with the rules' outcome exists |
| AlertRuns.ReconcileIsBroadcast | server/core/src/alert/engine.ts:29-30 | every change a reconciliation returns is broadcast |
| AlertEngines.AlertEngine.ProcessReport | server/core/src/alert/engine.ts:21-33 | a report is one reconciliation with exactly the anomalies its detectors raise, none of them offline |
| AlertEngines.AlertEngine.Detect | server/core/src/alert/engine.ts:23-26 | threshold and idle anomalies in order; the shared store stays what the reports so far make of it for every server; an orderly server's report raises exactly what is due on its own reports |
| AlertEngines.RaisesWhatIsDue | server/core/src/alert/detectors.ts:31-51 | whatever other servers sent in between, a server whose reports have a clock that never goes back, one threshold duration, distinct cards and mount points gets exactly the keys whose own breaching run lasts long enough and the idle processes of its own reports |
| ReportMeaning.RaisedExactly | server/core/src/alert/detectors.ts:54-172 | without naming the checks: a report of an orderly server raises an anomaly of type CPU, memory, disk or temperature iff its value, threshold, fingerprint and details are those of something the report measures (a disk only at a watched mount point, a temperature of each card) and that has been at or above its threshold in the server's unbroken run of reports that measure it, each against its own threshold, for at least the duration |
| ReportMeaning.SweepExactly | server/core/src/alert/detectors.ts:334-360 | a sweep reconciles exactly the sessions silent for longer than the limit, in order, each with one offline anomaly that says how long |
| IdleMeaning.IdleRaisedExactly | server/core/src/alert/detectors.ts:231-328 | without naming the detector's tables: a report raises the idle anomaly of a pid on a GPU iff the server's unbroken run of reports that list the pid on that card, with enough of its memory in use and little enough utilization, lasts at least the duration |
| IdleMeaning.RaisedTells | server/core/src/alert/detectors.ts:265-308 | what that anomaly says: the card's memory and utilization and the threshold of this report, an amount it lists for the pid, the seconds since the run began, and the user and task listed by the report that began it |
| IdleMeaning.ProcessesAre | server/core/src/alert/detectors.ts:199-229 | the detector looks at exactly the task processes with pid and user and the users' processes |
| Text.DecimalReads | server/core/src/alert/detectors.ts:191-197 | the numerals in store keys and fingerprints read back as the numbers they stand for |
| AlertEngines.TurnKnown | server/core/src/alert/detectors.ts:191-193 | one report through both detectors keeps, for every server, its idle index and what its own readings make of its threshold states |
| EngineRuns.NamesOneServer | server/core/src/alert/detectors.ts:15-21 | for ids without a colon no threshold key belongs to two servers |
| AlertEngines.AlertEngine.SweepOffline | server/core/src/alert/engine.ts:39-52 | a sweep is one reconciliation for each session whose last report is too old |
| StateStore.AlertStateStore.PruneByPrefix | server/core/src/alert/state-store.ts:21-28 | removes exactly the keys with the prefix |
| Thresholds.SameMachine | server/core/src/alert/detectors.ts:54-85 | the CPU detector and the general one take the same steps exactly from the states where active implies a recorded first breach, and every step leads to such a state |
| Thresholds.ActiveExactly | server/core/src/alert/detectors.ts:36-46 | for any clock, a key is active iff some reading of the unbroken breaching run came late enough after its start |
| Thresholds.ActiveIsRunLength | server/core/src/alert/detectors.ts:36-46 | for a clock that never goes back, active iff the last reading breaches and its run lasts at least the duration |
| Thresholds.ReportRaisesDue | server/core/src/alert/detectors.ts:100-172 | after any reports, the last one raises the anomalies of exactly those of its keys whose own run lasts at least the duration |
| Thresholds.StoredIsAfter | server/core/src/alert/detectors.ts:31-51 | the stored state of a key depends on its own readings only |
| Thresholds.ReportKeysDistinct | server/core/src/alert/detectors.ts:15-21 | distinct mount points and card indices give a report distinct store keys |
| Thresholds.UpdateThresholdState | server/core/src/alert/detectors.ts:23-52 | the stored state takes one step of the machine |
| Thresholds.DetectCpuThreshold | server/core/src/alert/detectors.ts:54-98 | the separately written detector takes the general machine's step on the CPU key |
| Thresholds.DetectThresholds | server/core/src/alert/detectors.ts:100-172 | CPU, memory, watched disks and card temperatures are checked in order against the store; which of them are raised is said of the reports themselves by `ReportMeaning.RaisedExactly` |
| GpuIdle.DetectGpuIdle | server/core/src/alert/detectors.ts:231-328 | what happens to the string-keyed store and its saved key set is what happens to a table of (gpu, pid) pairs; anomalies included, and no other key changes |
| GpuIdle.TrackCard | server/core/src/alert/detectors.ts:241-310 | a card that is not idle, or has no processes, loses its entries; otherwise its processes are tracked |
| GpuIdle.DropUnseen | server/core/src/alert/detectors.ts:317-325 | deletes exactly the saved keys that this report did not see |
| GpuIdle.CollectGpuProcesses | server/core/src/alert/detectors.ts:199-229 | task processes with pid and user, then the users' processes |
| GpuIdle.CardPrefixExact | server/core/src/alert/detectors.ts:249-250 | a card's prefix matches the keys of that card and of no other |
| GpuIdleFacts.IndexAgrees | server/core/src/alert/detectors.ts:312-325 | for distinct card indices and any duration, the entries and the saved set both become exactly the pairs that hold memory on an idle card, and a pair listed again keeps the time it was first seen |
| GpuIdleFacts.AnomalyExactly | server/core/src/alert/detectors.ts:265-293 | for a positive duration, a pair is raised iff it is listed and was first seen long enough ago |
| GpuIdleFacts.RaisedIsRunLength | server/core/src/alert/detectors.ts:231-328 | over any reports, a pair is raised in the last one, for a positive duration, iff the unbroken run of reports that list it lasts at least the duration |
| GpuIdleFacts.OtherServersKeepTheirIndex | server/core/src/alert/detectors.ts:191-193 | for ids without a colon, one server's report leaves every other server's entries and saved set as they were |
| Lcs.LongestCommonSubsequenceLength | apps/web/src/pages/PersonCreateWizard.tsx:736-752 | the table loops return the last entry of the recurrence |
| Lcs.LengthIsLongest | apps/web/src/pages/PersonCreateWizard.tsx:736-752 | a common subsequence of the returned length exists and none is longer |
| Lcs.GetSuggestionScore | apps/web/src/pages/PersonCreateWizard.tsx:754-769 | the score of the two normalised names |
| Lcs.ScoreSymmetric | apps/web/src/pages/PersonCreateWizard.tsx:754-769 | the two names can be swapped |
| Lcs.ScoreMeans | apps/web/src/pages/PersonCreateWizard.tsx:758-768 | what each of the four scores says: equal, containing, sharing a subsequence as long as the threshold, or none of these |
| OwnerGroups.DistributeManagedActual | apps/web/src/utils/gpuAllocation.ts:49-89 | in place, every group with a reservation gets its award and nothing else changes |
| OwnerGroups.SharingIsExact | apps/web/src/utils/gpuAllocation.ts:49-89 | the total is handed out exactly; each group gets the floor or, only for a fraction, the ceiling of its exact share and at most its reservation |
| Apportionment.SharesAddUp | apps/web/src/utils/gpuAllocation.ts:69-88 | the awards add up to the total |
| Apportionment.AwardsAreFair | apps/web/src/utils/gpuAllocation.ts:57-84 | each award is the floor or, only for a fraction, the ceiling of the exact share; the clamp changes nothing |
| Apportionment.LargestFractionsFirst | apps/web/src/utils/gpuAllocation.ts:70-75 | a group that is rounded up has at least the fraction, and on a tie at least the reservation, of one that is not |
| OwnerGroups.BuildGpuOwnerGroups | apps/web/src/utils/gpuAllocation.ts:111-158 | groups, displayed total and free memory follow from the allocations and processes, grouped by owner in the order met |
| OwnerGroups.GroupingConserves | apps/web/src/utils/gpuAllocation.ts:115-131 | the groups' reservations add up to all declarations, their unmanaged memory to all user processes, and every task and process is counted once |
| GroupMeaning.GroupExactly | apps/web/src/utils/gpuAllocation.ts:111-132 | a card has a group for exactly the owners of an allocation or a process, and it holds exactly what is the owner's: reservations, unmanaged memory, tasks and processes |
| GroupMeaning.AwardExactly | apps/web/src/utils/gpuAllocation.ts:57-88 | with total * reserved / all in whole numbers: a group gets that, or one more only if there is a rest, and at most its reservation |
| GroupMeaning.LargerRestFirst | apps/web/src/utils/gpuAllocation.ts:70-75 | whoever is rounded up has at least the rest, and on a tie at least the reservation, of whoever is not |
| OwnerGroups.CardIsShared | apps/web/src/utils/gpuAllocation.ts:136-141 | the managed memory shown adds up to the memory used beyond the processes, between nothing and all declarations |
| OwnerGroups.AggregateOwnerGroups | apps/web/src/utils/gpuAllocation.ts:161-178 | sums the groups by key into new objects and leaves the cards' own groups unchanged |
| OwnerGroups.AggregationConserves | apps/web/src/utils/gpuAllocation.ts:164-177 | aggregating loses and invents nothing, in any of the five sums |
| GroupMeaning.AggregateExactly | apps/web/src/utils/gpuAllocation.ts:161-178 | there is one group for exactly the keys that occur, and it adds up exactly the groups of its key |

## Left out

- Task records are values in ordered dictionaries; that the source's maps and lists share one mutable record per task is not captured.
- Daemon.DaemonService.CollectSnapshot: reads running and reserved tasks in one atomic step; the source reads them one after the other without the lock.
- NodeSafety.SampleOfOk: holds for that atomic step; a task that starts between the source's two reads is not covered.
- The clock is read once per cycle for all launches and the history query; the source reads it for each.
- If a background launch raises, the task stays reserved without a deadline; the model keeps this and claims no progress for reserved tasks.
- Attribution gets no child-process pids beyond the tasks' own, which is how the snapshot calls it; its by-user table, effective free memory, commands and user names are left out.
- Of an evaluation, the ledger snapshots, free-memory tables and pending copies for the log are left out.
- Task fields that drive no state (command, paths, environment, name, pid creation time, schedule history) are left out, and so is the legacy `remove`.
- Daemon.DaemonService.CancelTask: does not model the signal sent to a running process, which is an operating-system call.
- AlertTables.AlertDb.GetActiveAlerts: does not model the order by update time, because ties leave it open; only the order of changes depends on it.
- IdleMeaning.RaisedTells: does not say which of the commands listed in the run the anomaly carries, and of a pid that is listed twice on one card which amount; both only concern display.
- Batch silencing takes one clock reading for all ids, and a report one for its detectors and reconciliation.
- JSON columns are the values they encode; a row's server name is left out.
- The session registry is a list of sessions with their last report times.
- Trimming and lower-casing are a function parameter of the suggestion score, and strings are sequences of characters, not UTF-16 units.
- OwnerGroups.BuildGpuOwnerGroups: does not model group colours, the note for historical snapshots, and the final sort by size and locale-dependent label, which only concern display; the memory of a card and of its processes is whole megabytes, as the declared sizes are.
- BatchLimit.AgreesExactly: does not claim exactness for negative GPU counts, which the source does not refuse and which slice the picks from the end; that the condition suffices is proved for them too (`BatchRefinement.BatchEqualsOneByOne`).
- BatchLimit.AloneExactly: the same, for the same reason.
- HolderRuns.AloneExactlyOverRuns: the same; that the condition suffices over runs is proved for any GPU counts (`ExclusiveRuns.ExclusiveMeansAlone`).
- What is said about broadcasts is said of alerts that are still there: the log of a deleted alert is gone with it, and a later alert under the same key has a new id.
- OwnerGroups.AggregateOwnerGroups: does not model its final sort, for the same reason, and takes the cards' groups as one list.
- Floating-point rounding, message texts, log files, sockets, signals, report delivery and the database engine.
- The copy of the apportionment in the mobile app repeats the web file.

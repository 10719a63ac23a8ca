# The goldfish scheduler, modelled and verified

A Dafny model of the scheduler of an Android kernel (`Project2/goldfish/kernel/sched`, Linux 3.4 with a
weighted-round-robin class of its own) and of the worker threads of its sister tree
(`Project2/tergra/kernel/kthread.c`). The configuration is SMP, RT_GROUP_SCHED and NO_HZ; `unsigned long`
has 32 bits and `u64` has 64. `dafny verify dfyconfig.toml` checks all of it.

| file | what it models |
|---|---|
| `RtPrioArray`, `RtHierarchy`, `RtMeaning`, `RtRunQueue` | the real-time run queue: a tree of priority arrays in which a group has the best priority of the queue it owns, and what its counts and links say of the tasks in it; enqueue, dequeue, requeue, priority changes, throttling and the choice of the next task |
| `RtBandwidth`, `RtRelease`, `RtPayments`, `RtBandwidthRun` | runtime that CPUs lend each other, throttling, release by the period timer, hotplug; the amounts that come of it |
| `TaskGroupWalk`, `RtAdmission`, `RtAdmissionControl` | the walk of the group tree that needs no stack, and the admission control built on it |
| `LoadAverage`, `NoHzLoad` | the arithmetic of the load average and the accounts that feed it when CPUs stop ticking |
| `RqLocks` | the run-queue lock protocol, all parties interleaved |
| `WrrRound`, `WrrBooks`, `WrrSteps`, `WrrMeaning`, `WrrShares`, `WrrWaiting`, `WrrMachine` | weighted round robin: rounds, weights and counts, the steps of the whole machine field by field, shares and waiting times over its runs, the class and its hooks in the core scheduler |
| `Uninterruptible` | the per-CPU counters of uninterruptible sleepers |
| `SchedGroups` | the groups of a scheduling domain |
| `RtOverload` | the flags, mask and counter of CPUs with real-time tasks to spare |
| `KthreadWorker` | the FIFO worker thread and its flush |
| `Arithmetic`, `Sums`, `Sequences`, `Options`, `Errors` | shared helpers |

What the source updates in place is a class whose methods are proved against functions of the old state; the
theorems are lemmas about those functions and invariants the methods keep. Where steps of several CPUs
interleave (`NoHzLoad`, `RqLocks`, `Uninterruptible`, `RtOverload`, `KthreadWorker`) each method, or each case of
the step relation, is one atomic step, and a run is any sequence of them; memory is sequentially consistent.

## Where the code does not do what is promised

* A CPU that comes up is enabled by two notifiers (`rq_online_rt` and `update_runtime`). If it borrows between
  the two, the second destroys what it borrowed, and `BUG_ON(want)` becomes reachable:
  `RtBandwidth.SecondEnableLeaks`; enabling is safe exactly under the condition of `EnableConservesIff`.
* A throttled queue ought to have used all the runtime it holds. A CPU that goes down after borrowing, and a
  raised group runtime, can leave one throttled that has used less (`DisableForgives`, `RaiseForgives`); the
  exact conditions are `DisableOwesIff` and `SetBandwidthOwesIff`. The next firing of the timer releases it all
  the same (`TimerReleases`), and every throttled queue with any runtime is released in time
  (`ReleasedInEveryRun`).
* A throttled queue can lose all the runtime it holds to a CPU going down (`RtRelease.DisableDrains`). With sharing
  on and a group runtime of at least a nanosecond for each CPU (a user sets it in microseconds) the timer releases
  it all the same (`RtRelease.AllReleasedInEveryRun`); without sharing it never does (`NothingToPayWith`). The exact
  condition for a firing to get anywhere is `FiringPaysIff`.
* `tg_rt_schedulable` is to refuse a runtime of 0 to a group with real-time tasks. `tg_has_rt_tasks` compares the
  group with that of the queue embedded in the CPU's run queue, which is always the root group, so it answers for
  the root group alone, and there for the tasks of every group (`RtAdmission.NoneBusyIff`). Another group can be
  starved by its own setting (`RtAdmissionControl.StarvesGroup`) or by switching the limit on (`LimitStarves`), and
  the root group refused because of others (`RefusesRoot`); the exact conditions are in `TgSetRtBandwidth` and
  `SchedRtHandler` of `RtAdmissionControl.AdmissionControl`.
* `calc_load` overflows as soon as the weighted sum of load and active count leaves a 32-bit word
  (`LoadAverage.CalcLoadExactIff`): a steady load of 1024 tasks is reported as none (`SteadyLoadWraps`).
  `fixed_power_int` overflows likewise with a base of 1 from 16 fractional bits on (`FirstPowerIff`, `OneWraps`);
  the kernel uses 11.
* `calc_load_exit_idle` is documented to skip the window in which the CPU woke and to take the next. It does
  exactly if the CPU wakes between `calc_load_update` and 10 ticks later (`NoHzLoad.AfterIdleInStepIff`). If the
  update time has already been moved on, the CPU skips the next window as well (`SkipsASample`,
  `SkipsTwoWindows`); if it is overdue, the CPU does not skip at all but samples at once (`SamplesAtOnce`).
* The two idle counters are to keep the changes of one window apart from those of the next. A CPU that goes idle
  adds to the wrong one exactly if, at the addition, the counter is not the one `KeepsApart` names
  (`NoHzLoad.LoadBooks.AddIdle`, and `ChooseSlot` for the moment of the choice), and it can happen in three ways:
  `LateAddition`, `TimeBeforeIndex` and `IndexBeforeFlip`. No change is lost; it counts a period early or late.
* `flush_kthread_worker` waits for a completion on its stack, and so does the work that signals it. The worker
  writes `done_seq` and reads `flushing` of that work after the signal, when the flusher may have returned
  (`KthreadWorker.StackGone`); it does so exactly in the states named by `UsedAfterReturn`.
* The child of a SCHED_WRR task keeps the policy but gets another class, and asking for SCHED_WRR again changes
  nothing: `WrrMachine.Machine.SetScheduler`, `WrrMachine.ChildStaysOut`.
* SCHED_RESET_ON_FORK is to make sure that a child reverts to SCHED_NORMAL. It does only for the real-time policies
  (`WrrMachine.Machine.SchedFork`), and asking for it together with the present policy and priority is answered
  with success and not recorded (`SetScheduler`): `WrrMachine.ResetsNothing`.
* `select_task_rq_wrr` starts from the task's present CPU without asking whether the task may use it, and returns
  a CPU outside the mask exactly under the condition of `WrrMachine.Machine.SelectTaskRqWrr`
  (`WrrMachine.OutsideItsMask`); its caller corrects that (`SelectTaskRq`).
* A running task of the class that changes its group or priority goes to the tail and runs on with its slice,
  renewed if its weight changed: the head waits for it (`WrrMachine.MovedWhileRunning`), and the waiting bound
  counts it (`WrrWaiting.WaitBound`).

## Model

| member | source | states |
|---|---|---|
| `RtPrioArray.FindFirstBit` | Project2/goldfish/kernel/sched/rt.c:1336-1337 | the bit search returns the lowest bit set, and the length only if none is |
| `RtPrioArray.EmptyMeansDelimiter` | Project2/goldfish/kernel/sched/rt.c:60-85 | with the delimiter bit set, the search reaches MAX_RT_PRIO exactly when nothing is queued |
| `RtPrioArray.RemoveConsistent` | Project2/goldfish/kernel/sched/rt.c:1099-1111 | taking an entity off keeps bitmap, lists, best priority, count and boost count in agreement, and no WARN_ON on the way can fire |
| `RtPrioArray.InsertConsistent` | Project2/goldfish/kernel/sched/rt.c:1087-1096 | putting an entity on either end of its list keeps the same agreement |
| `RtPrioArray.RequeueConsistent` | Project2/goldfish/kernel/sched/rt.c:1187-1198 | so does moving it to an end of its list |
| `RtPrioArray.ConsistentCounts` | Project2/goldfish/kernel/sched/rt.c:968-1069 | in a queue that agrees with its members rt_nr_running is the total length of the lists and highest_prio.curr the least queued priority, or MAX_RT_PRIO |
| `RtHierarchy.EmptyIsConsistent` | Project2/goldfish/kernel/sched/rt.c:60-85 | an empty root queue satisfies the hierarchy invariant |
| `RtHierarchy.LinkedHasPrio` | Project2/goldfish/kernel/sched/rt.c:1059-1069 | a queued entity always has a real priority and its queue is not empty, so the WARN_ONs of dec_rt_tasks are silent |
| `RtHierarchy.UnlinkKeepsQueues` | Project2/goldfish/kernel/sched/rt.c:1099-1111 | unlinking keeps every queue of the hierarchy in order provided nothing above is linked: the reason for the top-down order |
| `RtHierarchy.LinkKeepsQueues` | Project2/goldfish/kernel/sched/rt.c:1071-1097 | linking keeps every queue in order provided nothing above is linked yet |
| `RtHierarchy.UnlinkNext` | Project2/goldfish/kernel/sched/rt.c:1113-1130 | each step of the way down finds the parent already unlinked and leaves everything outside the chain alone |
| `RtHierarchy.LinkNext` | Project2/goldfish/kernel/sched/rt.c:1132-1137 | each step of the way up links a group just when it has something to run, and keeps what was linked below |
| `RtHierarchy.SkipNext` | Project2/goldfish/kernel/sched/rt.c:1084-1085 | leaving out a group that is empty or throttled is right too |
| `RtHierarchy.OutsideStaysLinked` | Project2/goldfish/kernel/sched/rt.c:1132-1149 | a group outside the chain is still linked exactly when it should be |
| `RtHierarchy.ChainLinked` | Project2/goldfish/kernel/sched/rt.c:1132-1149 | once the whole chain is done the invariant holds everywhere, and every entity of the chain is at the end of its list it was put |
| `RtHierarchy.FirstEntity` | Project2/goldfish/kernel/sched/rt.c:1328-1343 | the first entity of the best busy list exists, is queued there with the best priority, and, if a group, has something to run: neither BUG_ON can fire |
| `RtHierarchy.RootBound` | Project2/goldfish/kernel/sched/rt.c:1345-1369 | the best priority at the root is at least as good as that of any queued entity with no throttled queue above it |
| `RtHierarchy.OpenStep` | Project2/goldfish/kernel/sched/rt.c:1359-1363 | one step of the descent stays among unthrottled, non-empty queues and gets strictly deeper |
| `RtHierarchy.PrioChangeKeeps` | Project2/goldfish/kernel/sched/core.c:4212-4228 | a task off its queue may change priority |
| `RtHierarchy.ThrottleFlag` | Project2/goldfish/kernel/sched/rt.c:869-886 | writing a throttle flag can put only the owner of that queue out of place |
| `RtHierarchy.BoostedStaysLinked` | Project2/goldfish/kernel/sched/rt.c:447-462 | throttling a boosted queue puts nothing out of place |
| `RtHierarchy.UnthrottleOwner` | Project2/goldfish/kernel/sched/rt.c:702-724 | clearing the flag without linking the owner never leaves a linked owner wrongly linked |
| `RtHierarchy.GrowGroup` | Project2/goldfish/kernel/sched/rt.c:131-156 | a new empty group disturbs nothing |
| `RtHierarchy.GrowTask` | Project2/goldfish/kernel/sched/rt.c:131-156 | neither does a new task |
| `RtHierarchy.RequeueNext` | Project2/goldfish/kernel/sched/rt.c:1200-1209 | a step of the requeue loop keeps the invariant and moves only that entity |
| `RtMeaning.BoostCount` | Project2/goldfish/kernel/sched/rt.c:1013-1031 | in every queue rt_nr_boosted is the number of queued entities that are tasks whose prio differs from their normal_prio, or groups with a positive count below them |
| `RtMeaning.BoostedIff` | Project2/goldfish/kernel/sched/rt.c:452-463 | so it is positive if and only if some task whose prio differs from its normal_prio is queued below, through queued groups |
| `RtMeaning.RunningIff` | Project2/goldfish/kernel/sched/rt.c:1048-1069 | a queue has something to run if and only if some task is queued below it, through queued groups |
| `RtMeaning.BestOfTasks` | Project2/goldfish/kernel/sched/rt.c:968-1010 | highest_prio.curr is the best prio of those tasks, or 100 if there are none |
| `RtMeaning.GroupQueuedIff` | Project2/goldfish/kernel/sched/rt.c:1071-1085 | a group is queued if and only if some task is queued below it and its queue is not throttled or a boosted task is among them |
| `RtMeaning.FlaggedOwnerIff` | Project2/goldfish/kernel/sched/rt.c:866-887 | so the owner of a throttled queue is queued if and only if a boosted task is queued below it, and that of any other if and only if any task is |
| `RtMeaning.RunnableIff` | Project2/goldfish/kernel/sched/rt.c:1345-1369 | a task may be picked if and only if it and every group above it are queued, and the root is not throttled or some boosted task is queued |
| `RtRunQueue.RtRq.constructor` | Project2/goldfish/kernel/sched/rt.c:60-85 | a new queue is empty with only the delimiter bit set |
| `RtRunQueue.RtRq.Unlink` | Project2/goldfish/kernel/sched/rt.c:1099-1111 | the queue becomes the one with that entity removed |
| `RtRunQueue.RtRq.Link` | Project2/goldfish/kernel/sched/rt.c:1087-1096 | the queue becomes the one with that entity inserted |
| `RtRunQueue.RtRq.Requeue` | Project2/goldfish/kernel/sched/rt.c:1187-1198 | the entity moves to the chosen end of its list |
| `RtRunQueue.RtCpu.constructor` | Project2/goldfish/kernel/sched/rt.c:60-85 | an empty hierarchy, its root queue empty and not throttled |
| `RtRunQueue.RtCpu.AddGroup` | Project2/goldfish/kernel/sched/rt.c:131-156 | a new group below another, with an empty queue that is not throttled and an entity that is off, keeps the hierarchy valid |
| `RtRunQueue.RtCpu.AddTask` | Project2/goldfish/kernel/sched/rt.c:131-156 | so does a new task, and nothing else changes |
| `RtRunQueue.RtCpu.JoinQueue` | Project2/goldfish/kernel/sched/rt.c:1087-1096 | an entity with something to run joins the list of its priority at the chosen end; if the entity above it is off every queue is in order afterwards |
| `RtRunQueue.RtCpu.LinkEntity` | Project2/goldfish/kernel/sched/rt.c:1071-1097 | an entity is linked unless it is a throttled or empty group |
| `RtRunQueue.RtCpu.LinkBack` | Project2/goldfish/kernel/sched/rt.c:1119-1124 | the first loop threads every ancestor back to the entity below it |
| `RtRunQueue.RtCpu.UnlinkDown` | Project2/goldfish/kernel/sched/rt.c:1126-1129 | the second loop unlinks the chain from the top |
| `RtRunQueue.RtCpu.DequeueRtStack` | Project2/goldfish/kernel/sched/rt.c:1117-1130 | afterwards nothing of the chain is linked, every queue is in order, and nothing else moved |
| `RtRunQueue.RtCpu.EnqueueRtEntity` | Project2/goldfish/kernel/sched/rt.c:1132-1137 | the invariant holds again; only the chain moved, to the chosen end |
| `RtRunQueue.RtCpu.DequeueRtEntity` | Project2/goldfish/kernel/sched/rt.c:1139-1149 | the same for taking off: groups that still have something to run are back |
| `RtRunQueue.RtCpu.EnqueueTask` | Project2/goldfish/kernel/sched/rt.c:1154-1168 | the task is queued, the invariant kept, no other task touched |
| `RtRunQueue.RtCpu.DequeueTask` | Project2/goldfish/kernel/sched/rt.c:1170-1180 | the task is off, the invariant kept, no other task touched |
| `RtRunQueue.RtCpu.RequeueTask` | Project2/goldfish/kernel/sched/rt.c:1200-1214 | the task and the groups above go to the end of their lists; nothing else changes |
| `RtRunQueue.RtCpu.SetPrio` | Project2/goldfish/kernel/sched/core.c:3987-4042 | a queued task changes priority through dequeue and enqueue; a lowered one goes to the head |
| `RtRunQueue.RtCpu.SchedRtRqDequeue` | Project2/goldfish/kernel/sched/rt.c:436-445 | the owner of a throttled queue is taken off |
| `RtRunQueue.RtCpu.SchedRtRqEnqueue` | Project2/goldfish/kernel/sched/rt.c:419-434 | the owner of a queue that may run is put on, also one that enabling left out |
| `RtRunQueue.RtCpu.Throttle` | Project2/goldfish/kernel/sched/rt.c:866-887 | throttling sets one flag, keeps the invariant and changes no task; the owner of the queue is queued afterwards if and only if a boosted task is queued below it |
| `RtRunQueue.RtCpu.Unthrottle` | Project2/goldfish/kernel/sched/rt.c:799-822 | releasing clears it; the owner is queued afterwards if and only if any task is queued below it |
| `RtRunQueue.RtCpu.PickNextTask` | Project2/goldfish/kernel/sched/rt.c:1345-1369 | the descent ends, hits neither BUG_ON, and returns a runnable task at least as good as every other, first in its list as is every group above it; NULL only if there is none |
| `RtBandwidth.LentFacts` | Project2/goldfish/kernel/sched/rt.c:591-603 | one loan loses nothing, leaves the lender what it has used, and stops at the period |
| `RtBandwidth.BalancedFacts` | Project2/goldfish/kernel/sched/rt.c:560-610 | the same of a whole round of borrowing; a borrower that starts within the period stays within it |
| `RtBandwidth.ReclaimWanted` | Project2/goldfish/kernel/sched/rt.c:648-674 | lent runtime is recovered in full exactly when the others still hold that much |
| `RtBandwidth.ReclaimSurplus` | Project2/goldfish/kernel/sched/rt.c:666-669 | borrowed runtime is returned exactly when another enabled queue is there to take it |
| `RtBandwidth.ReclaimFacts` | Project2/goldfish/kernel/sched/rt.c:651-674 | the reclaim accounts for every unit and touches only runtimes of enabled queues |
| `RtBandwidth.DisableSettles` | Project2/goldfish/kernel/sched/rt.c:615-691 | BUG_ON(want) is silent if and only if the going CPU can settle |
| `RtBandwidth.SettlesWhenConserved` | Project2/goldfish/kernel/sched/rt.c:677-681 | where no runtime has leaked it always can |
| `RtBandwidth.DisableConserves` | Project2/goldfish/kernel/sched/rt.c:615-691 | and the remaining enabled queues again hold one group runtime each on average |
| `RtBandwidth.EnableConservesIff` | Project2/goldfish/kernel/sched/rt.c:702-724 | enabling keeps that if and only if the queue was disabled or held exactly the group runtime |
| `RtBandwidth.ExceededGood` | Project2/goldfish/kernel/sched/rt.c:844-891 | the throttling decision keeps the books, that throttled queues have used time and that they owe; a queue is reported over if and only if it is throttled then and not boosted |
| `RtBandwidth.ChargedGood` | Project2/goldfish/kernel/sched/rt.c:925-935 | so does charging time; the report is the same for an enabled queue, and false for a disabled one |
| `RtBandwidth.TimerAtGood` | Project2/goldfish/kernel/sched/rt.c:785-824 | so does one CPU in the period timer, which leaves a throttled queue of another CPU as it is, or still able to pay |
| `RtBandwidth.TimerReleases` | Project2/goldfish/kernel/sched/rt.c:785-811 | a throttled queue that holds what it has to pay is released by the firing, even if earlier CPUs borrow from it first |
| `RtBandwidth.TimerFires` | Project2/goldfish/kernel/sched/rt.c:779-830 | each firing releases a throttled queue that holds runtime, or takes at least one runtime off what it owes, whatever the other queues look like |
| `RtBandwidth.ReleasedInTime` | Project2/goldfish/kernel/sched/rt.c:779-811 | a sequence of such firings releases it within max(1, time / min(runtime, period)) of them |
| `RtBandwidth.ThrottledIsReleased` | Project2/goldfish/kernel/sched/rt.c:779-830 | with no time charged, the timer releases a throttled queue with positive runtime within that many firings, in any state in which throttled queues have used time |
| `RtBandwidth.ReleasedInEveryRun` | Project2/goldfish/kernel/sched/rt.c:779-830 | so in every state of every run of charges, firings, hotplug and reconfiguration |
| `RtBandwidth.LateInEveryRun` | Project2/goldfish/kernel/sched/rt.c:844-891 | in every such state a throttled queue has used time |
| `RtBandwidth.OverflowPaysNothing` | Project2/goldfish/kernel/sched/rt.c:797-798 | an overrun whose product with the runtime wraps a u64 can pay off nothing |
| `RtBandwidth.DisableOwesIff` | Project2/goldfish/kernel/sched/rt.c:615-691 | a CPU going down leaves every throttled queue with no more runtime than it has used, if and only if it had not borrowed, or the first other enabled queue, which gets what it borrowed, is not throttled or has used that much more |
| `RtBandwidth.SetBandwidthOwesIff` | Project2/goldfish/kernel/sched/core.c:7727-7733 | a new group runtime does if and only if it is none or every throttled queue has used that much |
| `RtBandwidth.RefilledConserved` | Project2/goldfish/kernel/sched/core.c:7727-7733 | a new group runtime given to every queue keeps the books |
| `RtBandwidth.StepConserves` | Project2/goldfish/kernel/sched/rt.c:560-891 | each kind of step keeps the books and that throttled queues have used time; that they have used all they hold it keeps exactly under the conditions above |
| `RtBandwidth.RunConserves` | Project2/goldfish/kernel/sched/rt.c:560-891 | over every run of charges, firings, hotplug and reconfiguration the enabled queues hold (number enabled) * rt_runtime, and BUG_ON(want) is unreachable |
| `RtBandwidth.RaiseForgives` | Project2/goldfish/kernel/sched/core.c:7727-7733 | a run in which raising the group runtime leaves a queue throttled that has used less than it holds |
| `RtBandwidth.DisableForgives` | Project2/goldfish/kernel/sched/rt.c:651-674 | a run in which a CPU going down returns what it borrowed to a throttled queue, with the same outcome |
| `RtBandwidth.SecondEnableLeaks` | Project2/goldfish/kernel/sched/rt.c:735-755 | a run in which a CPU is enabled a second time, after borrowing, and a later one is left wanting |
| `RtPayments.BalancedExact` | Project2/goldfish/kernel/sched/rt.c:560-610 | a queue that borrows ends with what it held and the n-th part of what each other enabled queue has not used, together but cut off at the period, and each of those gives up exactly what the borrower gained from it in its turn |
| `RtPayments.RebalancedExact` | Project2/goldfish/kernel/sched/rt.c:757-771 | the same of borrowing that is done only with sharing on, by a queue that has used more than it holds |
| `RtPayments.ExceededExact` | Project2/goldfish/kernel/sched/rt.c:844-891 | the flag is set exactly if the queue, with less than a period and not throttled, has used more than it holds after borrowing and the group has runtime; in a group without, its time is forgiven instead; over is reported if and only if the queue is throttled then and not boosted |
| `RtPayments.ChargedExact` | Project2/goldfish/kernel/sched/rt.c:925-935 | charging adds to the time of an enabled queue before that, and leaves a disabled one alone |
| `RtPayments.TurnExact` | Project2/goldfish/kernel/sched/rt.c:791-811 | one turn of the timer pays off exactly min(time, overrun * runtime), the product taken in 64 bits, after borrowing if the queue was throttled; it releases the queue exactly if what is left is below its runtime |
| `RtPayments.TurnPays` | Project2/goldfish/kernel/sched/rt.c:797-798 | where the product cannot leave 64 bits, time before is time after and min(time, overrun * runtime) |
| `RtPayments.TimerTurns` | Project2/goldfish/kernel/sched/rt.c:779-830 | a firing is one such turn of every CPU, in order |
| `RtPayments.FiredPays` | Project2/goldfish/kernel/sched/rt.c:779-830 | without sharing, over any number of firings exactly the overruns together times the runtime is paid off, as far as there is time, and the queue is released once what is left is below its runtime and not before |
| `RtPayments.DisabledExact` | Project2/goldfish/kernel/sched/rt.c:615-691 | a CPU going down that holds less than the group runtime takes the difference from the others in order, all that each holds until it is made up; one that holds more leaves the surplus to the first of them |
| `RtRelease.BorrowsIff` | Project2/goldfish/kernel/sched/rt.c:560-610 | a queue that holds nothing gets something by borrowing if and only if some other CPU has at least one unit for each CPU to spare |
| `RtRelease.TurnDebt` | Project2/goldfish/kernel/sched/rt.c:785-811 | one turn of the timer pays off time exactly if it is the turn of a queue that holds or can borrow runtime, and changes no enabled queue otherwise |
| `RtRelease.FiringPaysIff` | Project2/goldfish/kernel/sched/rt.c:779-830 | with sharing on, a firing reduces the time the enabled queues owe together if and only if some queue pays; otherwise it leaves every one of them as it is |
| `RtRelease.RoomyNeverStuck` | Project2/goldfish/kernel/sched/rt.c:779-830 | with a group runtime of at least one unit for each CPU some queue pays as long as one is throttled |
| `RtRelease.AllAreReleased` | Project2/goldfish/kernel/sched/rt.c:779-830 | so with sharing on every throttled queue, even one that holds no runtime itself, is released within as many firings as the queues together owe units |
| `RtRelease.AllReleasedInEveryRun` | Project2/goldfish/kernel/sched/rt.c:779-830 | in every state of every run of charges, firings, hotplug and reconfiguration |
| `RtRelease.NothingToPayWith` | Project2/goldfish/kernel/sched/rt.c:785-811 | without sharing a throttled queue that holds nothing is never released |
| `RtRelease.StuckForEver` | Project2/goldfish/kernel/sched/rt.c:779-830 | nor is any, with sharing, in a group in which no queue pays |
| `RtRelease.TooLittleToShare` | Project2/goldfish/kernel/sched/rt.c:582-601 | such a group: two units for each of four CPUs |
| `RtRelease.DisableDrains` | Project2/goldfish/kernel/sched/rt.c:651-674 | a CPU going down takes back all that a throttled queue holds |
| `RtBandwidthRun.Bandwidth.constructor` | Project2/goldfish/kernel/sched/rt.c:35-45 | every queue starts with the group runtime |
| `RtBandwidthRun.Bandwidth.DoBalanceRuntime` | Project2/goldfish/kernel/sched/rt.c:560-610 | the loop over CPUs leaves every queue with the amounts of BalancedExact, and reports more exactly when some queue had runtime to spare |
| `RtBandwidthRun.Bandwidth.BalanceRuntime` | Project2/goldfish/kernel/sched/rt.c:757-771 | borrows only when sharing is on and the queue has used more than it holds; the amounts as above |
| `RtBandwidthRun.Bandwidth.DisableRuntime` | Project2/goldfish/kernel/sched/rt.c:615-691 | reclaims and disables, the amounts being those of DisabledExact; with no leak before, none after and want is 0 |
| `RtBandwidthRun.Bandwidth.EnableRuntime` | Project2/goldfish/kernel/sched/rt.c:702-724 | the queue holds the group runtime, has no time and is not throttled; safe if and only if it was disabled or held the group runtime |
| `RtBandwidthRun.Bandwidth.RuntimeExceeded` | Project2/goldfish/kernel/sched/rt.c:844-891 | the flag is set exactly if the queue, with less than a period and not throttled, has used more than it holds after borrowing and the group has runtime; in a group without, the time is forgiven instead; the caller is told to reschedule if and only if the queue is throttled then and not boosted |
| `RtBandwidthRun.Bandwidth.ChargeRuntime` | Project2/goldfish/kernel/sched/rt.c:925-935 | the time of an enabled queue grows by what is charged, and the rest is as above; a disabled one is left alone; keeps the books |
| `RtBandwidthRun.Bandwidth.TimerTurn` | Project2/goldfish/kernel/sched/rt.c:791-811 | one CPU's turn pays off exactly min(time, overrun * runtime), the product taken in 64 bits, after borrowing if it was throttled, and releases the queue exactly if what is left is below its runtime |
| `RtBandwidthRun.Bandwidth.PeriodTimer` | Project2/goldfish/kernel/sched/rt.c:779-830 | a firing is such a turn of every CPU in order; keeps the books and that throttled queues owe; reports idle exactly if no queue has time or tasks, or none is throttled and no limit applies, and so never with a queue throttled |
| `RtBandwidthRun.Bandwidth.SchedRtPeriodTimer` | Project2/goldfish/kernel/sched/rt.c:14-33 | fires once for every period passed, and restarts the timer as long as any queue is throttled |
| `RtBandwidthRun.Bandwidth.SetRtBandwidth` | Project2/goldfish/kernel/sched/core.c:7722-7733 | every queue gets the new runtime and keeps its time and flag; keeps the books |
| `TaskGroupWalk.TaskGroups.WalkTgTreeFrom` | Project2/goldfish/kernel/sched/core.c:658-687 | the goto walk ends and makes exactly the calls of the recursive pre- and post-order walk, cut at the first verdict that is not 0, which it returns |
| `TaskGroupWalk.EnterStep` | Project2/goldfish/kernel/sched/core.c:666-672 | after entering: the first child, or out again |
| `TaskGroupWalk.NextStep` | Project2/goldfish/kernel/sched/core.c:674-676 | back from a child: its next sibling, or out |
| `TaskGroupWalk.LeaveStep` | Project2/goldfish/kernel/sched/core.c:677-684 | after leaving: back into the parent, or done exactly at the starting group |
| `TaskGroupWalk.GrownBelow` | Project2/goldfish/kernel/sched/core.c:7516-7524 | linking a new group first among its siblings gives the links of the grown tree |
| `TaskGroupWalk.TaskGroups.AddChild` | Project2/goldfish/kernel/sched/core.c:7516-7524 | the three links of a new group |
| `RtAdmission.RatioBound` | Project2/goldfish/kernel/sched/core.c:7604-7610 | a runtime within its period has a ratio of at most 1, in 20-bit fixed point, whatever the 64-bit shift drops |
| `RtAdmission.AntichainBound` | Project2/goldfish/kernel/sched/core.c:7638-7692 | the local checks bound the whole: groups of which none is below another are together promised at most the global limit |
| `RtAdmission.RatioIsShare` | Project2/goldfish/kernel/sched/core.c:7604-7610 | within 64 bits the ratio is the share runtime / period in units of 2^-20, cut off |
| `RtAdmission.SharesWithin` | Project2/goldfish/kernel/sched/core.c:7638-7692 | so the shares themselves of n such groups together exceed the share of the limit by at most n * 2^-20 |
| `RtAdmission.NoneBusyIff` | Project2/goldfish/kernel/sched/core.c:7620-7630 | tg_has_rt_tasks finds every real-time task in the root group, whatever its own: all its test asks is that the root group have runtime if there is any |
| `RtAdmission.ChangeDecided` | Project2/goldfish/kernel/sched/core.c:7638-7709 | the check of a change passes if and only if the new settings are in order and the root group is left runtime should there be any real-time task, although its sums are machine words |
| `RtAdmission.LimitDecided` | Project2/goldfish/kernel/sched/core.c:7787-7811 | a new global limit passes if and only if every group still fits under it, on the same condition |
| `RtAdmission.WalkDecides` | Project2/goldfish/kernel/sched/core.c:7694-7709 | the walk returns 0 exactly when every group passes |
| `RtAdmission.CreateAdmissible` | Project2/goldfish/kernel/sched/core.c:7498-7526 | a new group with no runtime keeps the settings in order |
| `RtAdmission.RefusalCode` | Project2/goldfish/kernel/sched/core.c:7638-7692 | the walk refuses with EBUSY if and only if the root group is to have no runtime while there are real-time tasks and a limit, and with EINVAL for everything else |
| `RtAdmissionControl.AdmissionControl.constructor` | Project2/goldfish/kernel/sched/core.c:7498-7526 | the root group alone, with the global setting, is in order |
| `RtAdmissionControl.AdmissionControl.Bound` | Project2/goldfish/kernel/sched/core.c:7638-7692 | in every state pairwise non-nested groups are promised at most the global share, and that at most 1 |
| `RtAdmissionControl.AdmissionControl.SharesBound` | Project2/goldfish/kernel/sched/core.c:7638-7692 | in every state reached with 32-bit settings the shares of n pairwise non-nested groups add up to at most the global share, which is at most 1, and n * 2^-20 |
| `RtAdmissionControl.AdmissionControl.RtSchedulable` | Project2/goldfish/kernel/sched/core.c:7694-7709 | 0 exactly when every group passes; otherwise the first verdict of the walk, which is EBUSY if the root group is to have no runtime while there are real-time tasks and a limit, and EINVAL in every other case |
| `RtAdmissionControl.AdmissionControl.TgSetRtBandwidth` | Project2/goldfish/kernel/sched/core.c:7711-7739 | admitted if and only if in order and the root group is left runtime should there be any real-time task; refused with the first verdict of the walk; a refusal leaves everything untouched; an accepted change starves a group with real-time tasks exactly if it gives that group 0 under a limit, which the root group never gets |
| `RtAdmissionControl.AdmissionControl.SetRtRuntime` | Project2/goldfish/kernel/sched/core.c:7741-7751 | a negative value sets the group's runtime to RUNTIME_INF, any other long to that many microseconds; the rest as above |
| `RtAdmissionControl.AdmissionControl.SetRtPeriod` | Project2/goldfish/kernel/sched/core.c:7765-7776 | a period of 0 is refused, any other exactly if the settings with it are not in order; the runtime stays |
| `RtAdmissionControl.AdmissionControl.GlobalConstraints` | Project2/goldfish/kernel/sched/core.c:7787-7811 | a new global setting is refused unless it is sane and every group fits |
| `RtAdmissionControl.AdmissionControl.SchedRtHandler` | Project2/goldfish/kernel/sched/core.c:7852-7880 | accepted if and only if every group fits under the new setting and the root group has runtime should there be any real-time task; otherwise rolled back completely; accepted, it starves a group exactly if it switches a limit on while some group with real-time tasks has no runtime |
| `RtAdmissionControl.AdmissionControl.CreateGroup` | Project2/goldfish/kernel/sched/core.c:7498-7526 | creation keeps the invariant and starts with no runtime |
| `RtAdmissionControl.AdmissionControl.AttachRtTask` | Project2/goldfish/kernel/sched/core.c:7813-7820 | a group without runtime takes no real-time task, so that attaching starves none |
| `RtAdmissionControl.AdmissionControl.BecomesRealTime` | Project2/goldfish/kernel/sched/core.c:4372-4385 | a user's request is refused exactly where it would starve a task while there is a limit; others starve it exactly there |
| `RtAdmissionControl.NotWhileBusy` | Project2/goldfish/kernel/sched/core.c:7659-7663 | a run in which the runtime of the root group, with a real-time task, cannot be set to 0: EBUSY |
| `RtAdmissionControl.StarvesGroup` | Project2/goldfish/kernel/sched/core.c:7620-7663 | a run in which that of another group with a real-time task can |
| `RtAdmissionControl.RefusesRoot` | Project2/goldfish/kernel/sched/core.c:7620-7663 | a run in which the root group has no real-time task and is refused as busy |
| `RtAdmissionControl.LimitStarves` | Project2/goldfish/kernel/sched/core.c:7852-7880 | a run in which switching the limit on starves a group |
| `RtAdmissionControl.AsksForNoLimit` | Project2/goldfish/kernel/sched/core.c:7741-7751 | a run in which the root group asks for no limit with -1: refused while there is a global limit, RUNTIME_INF once there is none |
| `LoadAverage.FixedPowerInt` | Project2/goldfish/kernel/sched/core.c:2427-2447 | the loop ends for every exponent and computes the power function of 32-bit words |
| `LoadAverage.FixedPowerClose` | Project2/goldfish/kernel/sched/core.c:2411-2447 | for a base of at most 1 the power is at most 1 and within (n - 1) / 2 units of the exact value, whenever 1 times the base can be rounded within a word |
| `LoadAverage.RoomInWord` | Project2/goldfish/kernel/sched/core.c:2427-2447 | which up to 15 fractional bits is so for every such base |
| `LoadAverage.FirstPowerIff` | Project2/goldfish/kernel/sched/core.c:2427-2447 | and otherwise not even the first power is right: it is the base if and only if there is that room |
| `LoadAverage.OneWraps` | Project2/goldfish/kernel/sched/core.c:2427-2447 | with 16 fractional bits the first power of 1 is 0 |
| `LoadAverage.ScaledFits` | Project2/goldfish/kernel/sched/core.c:2433-2443 | no product of the loop overflows a word then |
| `LoadAverage.SquareRoom` | Project2/goldfish/kernel/sched/core.c:2440-2443 | and the room stays as the base is squared |
| `LoadAverage.ProductOff` | Project2/goldfish/kernel/sched/core.c:2433-2443 | errors add under multiplication, and rounding adds one half |
| `LoadAverage.CalcLoadBetween` | Project2/goldfish/kernel/sched/core.c:2285-2292 | a step whose weighted sum fits a word, rounding included, stays between the old load and the active count |
| `LoadAverage.CalcLoadExactIff` | Project2/goldfish/kernel/sched/core.c:2285-2292 | the step is exact if and only if the weighted sum fits a 32-bit word |
| `LoadAverage.CalcLoadFits` | Project2/goldfish/kernel/sched/core.c:2285-2292 | which it does while load and count are below 1024 tasks, as the new load then is |
| `LoadAverage.SteadyLoadWraps` | Project2/goldfish/kernel/sched/core.c:2285-2292 | a steady load of 1024 tasks is reported as 0 |
| `LoadAverage.StepsClose` | Project2/goldfish/kernel/sched/core.c:2449-2471 | n single steps are within n / 2 of exact exponential decay |
| `LoadAverage.CalcLoadNClose` | Project2/goldfish/kernel/sched/core.c:2449-2478 | the closed form is within n/2 + 1/2 + abs(load - active) (n - 1) / (2 FIXED_1) of n single steps |
| `LoadAverage.CalcLoadNBetween` | Project2/goldfish/kernel/sched/core.c:2472-2478 | and between the old load and the active count |
| `LoadAverage.StepsBetween` | Project2/goldfish/kernel/sched/core.c:2285-2292 | as are n single steps |
| `NoHzLoad.CatchUpTime` | Project2/goldfish/kernel/sched/core.c:2493-2508 | the bulk catch-up leaves calc_load_update where repeating the single update would, the first time not yet due |
| `NoHzLoad.CatchUpSteps` | Project2/goldfish/kernel/sched/core.c:2493-2508 | repeating it takes exactly that many single steps of the average |
| `NoHzLoad.CatchUpLoad` | Project2/goldfish/kernel/sched/core.c:2493-2508 | so the bulk average is within the known distance of the repeated one |
| `NoHzLoad.AfterIdleInStepIff` | Project2/goldfish/kernel/sched/core.c:2381-2399 | a CPU waking past its sample takes the first window to open after that, if and only if it wakes between calc_load_update and 10 ticks later; before that it takes the one after, later it takes none and samples at once |
| `NoHzLoad.SkipsASample` | Project2/goldfish/kernel/sched/core.c:2391-2398 | a wakeup between windows, with a LOAD_FREQ of 501, after which a sample is missed |
| `NoHzLoad.StepsTowards` | Project2/goldfish/kernel/sched/core.c:2545-2552 | one step with n active tasks: the amount, and that it goes towards n * 2048 and not past it |
| `NoHzLoad.BulkTowards` | Project2/goldfish/kernel/sched/core.c:2493-2508 | so does a bulk step |
| `NoHzLoad.LoadBooks.constructor` | Project2/goldfish/kernel/sched/core.c:7217-7220 | all counters, the index and the averages start at zero, and every sample is due one period on |
| `NoHzLoad.LoadBooks.Balanced` | Project2/goldfish/kernel/sched/core.c:2267-2280 | with nothing in flight calc_load_tasks + calc_load_idle[0] + calc_load_idle[1] is the sum of calc_load_active |
| `NoHzLoad.LoadBooks.FoldActive` | Project2/goldfish/kernel/sched/core.c:2267-2280 | a fold returns exactly what it adds to the sum |
| `NoHzLoad.LoadBooks.AccountActive` | Project2/goldfish/kernel/sched/core.c:2564-2573 | a tick folds only when its sample is due; the books balance with the change in hand |
| `NoHzLoad.LoadBooks.AccountAdd` | Project2/goldfish/kernel/sched/core.c:2572-2575 | and after it is added |
| `NoHzLoad.LoadBooks.EnterIdle` | Project2/goldfish/kernel/sched/core.c:2365-2374 | a CPU going idle takes its change in hand |
| `NoHzLoad.LoadBooks.ReadIdx` | Project2/goldfish/kernel/sched/core.c:2340-2343 | reading the index, another CPU may act before the time is read |
| `NoHzLoad.LoadBooks.ChooseSlot` | Project2/goldfish/kernel/sched/core.c:2350-2357 | for every index that was read and every point of a fold: the counter chosen is the right one for now if and only if the window is open just if that index is the one in use, or no fold is on and the window is open or the index is in use |
| `NoHzLoad.LoadBooks.AddIdle` | Project2/goldfish/kernel/sched/core.c:2375-2378 | the books balance whichever counter it was; the counters stay apart if and only if it is the right one at the addition |
| `NoHzLoad.LoadBooks.ExitIdle` | Project2/goldfish/kernel/sched/core.c:2381-2399 | a sample time not yet reached is kept; else the next is that of the global update, or one period after it if its window is not over |
| `NoHzLoad.LoadBooks.FoldIdle` | Project2/goldfish/kernel/sched/core.c:2401-2410 | the old idle counter is emptied and its value carried |
| `NoHzLoad.LoadBooks.FoldAdd` | Project2/goldfish/kernel/sched/core.c:2538-2543 | and added |
| `NoHzLoad.LoadBooks.Sample` | Project2/goldfish/kernel/sched/core.c:2545-2552 | with n active tasks, below 1024, each average moves to (load * exp + n * 2048 * (2048 - exp) + 1024) / 2048, exp being 1884, 2014 and 2037: it stays at n * 2048, else ends between; with none it decays |
| `NoHzLoad.LoadBooks.CatchUp` | Project2/goldfish/kernel/sched/core.c:2489-2508 | missed steps are made up at once: exactly in time, nearly in value, and with n active tasks between the old average and n * 2048 |
| `NoHzLoad.LoadBooks.Flip` | Project2/goldfish/kernel/sched/core.c:2510-2519 | the index moves on and the counters stay apart |
| `NoHzLoad.LoadBooks.GlobalLoadRemove` | Project2/goldfish/kernel/sched/core.c:5358-5362 | a CPU going down withdraws what it reported |
| `NoHzLoad.LateAddition` | Project2/goldfish/kernel/sched/core.c:2340-2378 | a run in which the counter was right when chosen and is being folded when added to |
| `NoHzLoad.TimeBeforeIndex` | Project2/goldfish/kernel/sched/core.c:2350-2357 | a run in which the new time is set, the index has not moved, and the counter just emptied is chosen |
| `NoHzLoad.IndexBeforeFlip` | Project2/goldfish/kernel/sched/core.c:2340-2357 | a run in which the index was read before it moved and the time after it was set: the change goes, outside any window, to the counter not in use |
| `NoHzLoad.SamplesAtOnce` | Project2/goldfish/kernel/sched/core.c:2381-2399 | a run in which a CPU wakes after the window, before the update time is moved, and samples at once |
| `NoHzLoad.SkipsTwoWindows` | Project2/goldfish/kernel/sched/core.c:2381-2399 | a run in which a CPU wakes after the update time has been moved and misses the next sample too |
| `RqLocks.HeldFollows` | Project2/goldfish/kernel/sched/sched.h:1042-1129 | every step of every party takes or drops exactly the lock by which the next point differs |
| `RqLocks.WaitsUpwards` | Project2/goldfish/kernel/sched/sched.h:1042-1109 | a thread spins only on a lock that ranks above all it holds: pi_lock first, then run queues by address |
| `RqLocks.NoCycle` | Project2/goldfish/kernel/sched/sched.h:1042-1109 | in every reachable state the waits-for graph has no cycle |
| `RqLocks.Progress` | Project2/goldfish/kernel/sched/sched.h:1042-1129 | whenever some thread waits for a lock, some thread inside the protocol can move |
| `RqLocks.StepJustified` | Project2/goldfish/kernel/sched/core.c:1085-1119 | every change of a task is made under the locks that set_task_cpu asks for |
| `RqLocks.MoversHoldTheLock` | Project2/goldfish/kernel/sched/core.c:1085-1119 | a queued task changes CPU only under both run-queue locks, any other only under its pi_lock, always within its mask; it is queued only under its own queue's lock |
| `RqLocks.ClaimSurvives` | Project2/goldfish/kernel/sched/core.c:295-344 | what a thread relies on survives every step of the others |
| `RqLocks.StepKeeps` | Project2/goldfish/kernel/sched/core.c:1580-1690 | every step of lockers, wakers, migrators and balancers keeps the invariant |
| `RqLocks.RunKeeps` | Project2/goldfish/kernel/sched/core.c:5266-5302 | so every run does |
| `RqLocks.LockedRqIsTaskRq` | Project2/goldfish/kernel/sched/core.c:295-344 | in every reachable state between the return of task_rq_lock or __task_rq_lock and the unlock, the returned queue is the task's and both locks are held |
| `RqLocks.LockedInEveryRun` | Project2/goldfish/kernel/sched/core.c:295-344 | so over every run of lockers, wakers, migrators and balancers: from the return of task_rq_lock or __task_rq_lock until unlock, the returned queue is the task's and both locks are held, over all interleavings |
| `WrrRound.QuotaWeighs` | Project2/goldfish/include/linux/sched.h:1274-1275 | with HZ a positive multiple of 100 both slices are at least one tick and the foreground one is exactly ten times the other |
| `WrrRound.TickKeepsGood` | Project2/goldfish/kernel/sched/wrr.c:290-326 | a tick keeps every slice between 1 and its quota |
| `WrrRound.Turn` | Project2/goldfish/kernel/sched/wrr.c:310-325 | the task at the head runs out its slice and goes to the tail with a new one |
| `WrrRound.Round` | Project2/goldfish/kernel/sched/wrr.c:290-326 | as many ticks as the slices add up to bring everybody back in order with full slices, each having run exactly the slice it had |
| `WrrRound.RoundFills` | Project2/goldfish/kernel/sched/wrr.c:310-318 | after one round from anywhere all slices are full |
| `WrrRound.Rounds` | Project2/goldfish/kernel/sched/wrr.c:290-326 | k rounds of full slices change nothing and give each task exactly k quotas |
| `WrrRound.SharesByWeight` | Project2/goldfish/kernel/sched/wrr.c:290-326 | in any number of rounds a foreground task runs exactly ten times as long as a background one |
| `WrrBooks.EnqueueKeeps` | Project2/goldfish/kernel/sched/wrr.c:175-217 | enqueueing gives the task its group's weight and keeps every CPU's count and total weight right |
| `WrrBooks.DequeueKeeps` | Project2/goldfish/kernel/sched/wrr.c:219-227 | dequeueing takes exactly the weight off that was added |
| `WrrBooks.SliceKeeps` | Project2/goldfish/kernel/sched/wrr.c:310-318 | a slice in range keeps the accounts |
| `WrrBooks.MoveKeeps` | Project2/goldfish/kernel/sched/wrr.c:263-273 | so does moving a task within its list |
| `WrrBooks.AloneIff` | Project2/goldfish/kernel/sched/wrr.c:320 | the test prev != next holds exactly when the task is not alone |
| `WrrBooks.TickedView` | Project2/goldfish/kernel/sched/wrr.c:310-325 | a tick of the task at the head is the round-robin step, so its rounds are those of the machine |
| `WrrBooks.ViewGood` | Project2/goldfish/kernel/sched/wrr.c:175-217 | a queue whose accounts are right is one the round theorems apply to |
| `WrrBooks.PullConserves` | Project2/goldfish/kernel/sched/wrr.c:82-91 | a pull leaves the machine-wide weight and count unchanged |
| `WrrSteps.ReplacedKeeps` | Project2/goldfish/kernel/sched/core.c:4392-4411 | taking a task off, changing it in any way and putting it on again keeps every account; wakeups, sleeps, moves, class and group changes are all of this form |
| `WrrSteps.TickedKeeps` | Project2/goldfish/kernel/sched/wrr.c:290-326 | so does a tick of the running task, wherever in the list it stands |
| `WrrSteps.AfterKeeps` | Project2/goldfish/kernel/sched/wrr.c:175-326 | so does every step of the machine |
| `WrrSteps.RunKeeps` | Project2/goldfish/kernel/sched/wrr.c:175-326 | so in every state of every run |
| `WrrShares.TickIsRound` | Project2/goldfish/kernel/sched/wrr.c:310-325 | a tick of a CPU that runs its first task is the round-robin step of its whole list, and it runs its first task again |
| `WrrShares.ElsewhereStays` | Project2/goldfish/kernel/sched/wrr.c:175-326 | no step on other CPUs or of tasks outside the list shows in it |
| `WrrShares.RunIsTicks` | Project2/goldfish/kernel/sched/wrr.c:290-326 | over every run whose steps tick a CPU, with rescheduling, or leave it alone, its list and who ran are those of the round-robin rules |
| `WrrShares.RoundOnCpu` | Project2/goldfish/kernel/sched/wrr.c:290-326 | so once as many ticks are charged as the slices add up to, each task has run the slice it had, the list is as before and all slices are full |
| `WrrShares.RoundsOnCpu` | Project2/goldfish/kernel/sched/wrr.c:290-326 | in k rounds each task runs exactly k quotas |
| `WrrShares.SharesOnCpu` | Project2/goldfish/kernel/sched/wrr.c:290-326 | and a foreground task exactly ten times as long as a background one |
| `WrrWaiting.TickWaits` | Project2/goldfish/kernel/sched/wrr.c:310-325 | a tick charged to another task takes one off the wait: the slices ahead, and what is left of the running one if that stands behind |
| `WrrWaiting.ReplaceWaits` | Project2/goldfish/kernel/sched/core.c:4392-4411 | no other task coming, going, moving or changing class or group adds to a wait, but one put at the head, and a running one whose slice is renewed |
| `WrrWaiting.StepWaits` | Project2/goldfish/kernel/sched/wrr.c:175-326 | each step of the machine: the wait left and the tick charged are at most the wait before and the gain of the step |
| `WrrWaiting.WaitBound` | Project2/goldfish/kernel/sched/wrr.c:160-173 | over every run, while a task is left alone and does not run, the ticks its CPU spends on others of the class and the wait then left are at most its first wait and the gains |
| `WrrWaiting.ServedInTime` | Project2/goldfish/kernel/sched/wrr.c:160-173 | so it runs before its CPU has spent more ticks than that on others |
| `WrrWaiting.WaitWithin` | Project2/goldfish/include/linux/sched.h:1274-1275 | the wait itself is at most a foreground slice for each other task of the list |
| `WrrMeaning.WeighedMeans` | Project2/goldfish/kernel/sched/wrr.c:190-206 | what an enqueue leaves of a task: weight 1 or 10 by its group, and the slice of that weight if it is new, else the old slice |
| `WrrMeaning.ReplaceMeans` | Project2/goldfish/kernel/sched/core.c:4392-4411 | off, changed and on again: the task is as asked for, weighed if queued in the class, at the chosen end of its own CPU's list and in no other; every other task and list keeps its order |
| `WrrMeaning.TickMeans` | Project2/goldfish/kernel/sched/wrr.c:290-326 | a tick takes one off the slice of the running task; after the last the slice is that of its weight and the task is at the tail; nothing else changes |
| `WrrMeaning.StepMeans` | Project2/goldfish/kernel/sched/wrr.c:175-326 | so each step of the machine, field by field |
| `WrrMachine.Machine.constructor` | Project2/goldfish/include/linux/init_task.h:160-176 | the boot task, unweighed and queued nowhere, and empty accounts |
| `WrrMachine.Machine.EnqueueWrrEntity` | Project2/goldfish/kernel/sched/wrr.c:175-217 | the weight becomes 1 for a background group and 10 for another; if it changed the slice becomes 10 ms or 100 ms in ticks, else it stays; then the task joins an end of the list and the account |
| `WrrMachine.Machine.DequeueWrrEntity` | Project2/goldfish/kernel/sched/wrr.c:219-227 | the task leaves the list and the account |
| `WrrMachine.Machine.RequeueTaskWrr` | Project2/goldfish/kernel/sched/wrr.c:263-273 | the task moves to an end of its list |
| `WrrMachine.Machine.YieldTaskWrr` | Project2/goldfish/kernel/sched/wrr.c:275-278 | the running task goes to the tail |
| `WrrMachine.Machine.TaskTickWrr` | Project2/goldfish/kernel/sched/wrr.c:290-326 | a tick takes one off the slice; after the last the slice is the weight's again and the task goes to the tail; keeps all accounts; at the head it is the round-robin step; reschedules exactly when another task waits |
| `WrrMachine.Machine.PickNextTaskWrr` | Project2/goldfish/kernel/sched/wrr.c:160-173 | the first task of the list, a queued task of the class; NULL only if there is none |
| `WrrMachine.Machine.Schedule` | Project2/goldfish/kernel/sched/core.c:3336-3360 | a task of the class is chosen exactly if there is one and no higher class has any, and then the first |
| `WrrMachine.Machine.SchedulerTick` | Project2/goldfish/kernel/sched/core.c:3190-3228 | charges the running task if it is of the class; a CPU with none pulls one |
| `WrrMachine.Machine.SelectTaskRqWrr` | Project2/goldfish/kernel/sched/wrr.c:12-41 | the lightest online CPU the task may use, its own unless another is lighter, the first of equals; outside the mask if and only if its own CPU is, and the mask is a single CPU or has no lighter one online |
| `WrrMachine.Machine.SelectFallbackRq` | Project2/goldfish/kernel/sched/core.c:1266-1324 | the first CPU that is online and allowed, in the node of the task's CPU or else anywhere, by the task's mask, else by its cpuset's, else by none; the BUG is unreachable |
| `WrrMachine.Machine.SelectTaskRq` | Project2/goldfish/kernel/sched/core.c:1330-1349 | so the CPU finally chosen is always online and allowed |
| `WrrMachine.Machine.DoSetCpusAllowed` | Project2/goldfish/kernel/sched/core.c:5178-5186 | a new mask, and nothing else |
| `WrrMachine.Machine.SwitchedToWrr` | Project2/goldfish/kernel/sched/wrr.c:340-369 | never changes a queued weight |
| `WrrMachine.Machine.Wakeup` | Project2/goldfish/kernel/sched/core.c:1398-1445 | a woken task joins its CPU's account with its group's weight: a step |
| `WrrMachine.Machine.Deactivate` | Project2/goldfish/kernel/sched/core.c:3386-3391 | a sleeping one leaves it: a step |
| `WrrMachine.Machine.SchedFork` | Project2/goldfish/kernel/sched/core.c:1737-1781 | a child is a copy of its parent off every queue and outside this class; with SCHED_RESET_ON_FORK it loses the flag, and a real-time policy with its priority, but keeps any other policy |
| `WrrMachine.Machine.WakeUpNewTask` | Project2/goldfish/kernel/sched/core.c:1818-1863 | a new task starts with weight 10 and 100 ms, or in a background group 1 and 10 ms |
| `WrrMachine.Machine.SchedMoveTask` | Project2/goldfish/kernel/sched/core.c:7564-7597 | a group move swaps the old weight for the new group's in the account, with a new slice if the weight changed and only then, and puts even a running task at the tail |
| `WrrMachine.Machine.ChangeClass` | Project2/goldfish/kernel/sched/core.c:4392-4411 | a class change keeps all accounts |
| `WrrMachine.Machine.SetScheduler` | Project2/goldfish/kernel/sched/core.c:4264-4411 | every request, also for the present policy or with SCHED_RESET_ON_FORK: refused, without effect, or one step; SCHED_WRR puts a task into the class if and only if it had another policy or was already in it: not the child of a WRR task; the flag is set if and only if something else changes too or it was set |
| `WrrMachine.Machine.RtMutexSetPrio` | Project2/goldfish/kernel/sched/core.c:3987-4042 | the class follows the policy first, and the accounts follow the class; the idle thread is left alone |
| `WrrMachine.Machine.MoveQueuedTask` | Project2/goldfish/kernel/sched/wrr.c:82-87 | moving a queued task keeps its weight and slice, all accounts, and both machine totals |
| `WrrMachine.Machine.FindEligible` | Project2/goldfish/kernel/sched/wrr.c:71-93 | the first task of a queue that may move, none only if there is none |
| `WrrMachine.Machine.PullWrrTask` | Project2/goldfish/kernel/sched/wrr.c:46-97 | takes the first task that is queued, of this policy, not running and allowed here from the first other CPU that has one; none only if there is none; totals conserved |
| `WrrMachine.OutsideItsMask` | Project2/goldfish/kernel/sched/wrr.c:12-41 | a run after which a sleeping task of the class, barred from its CPU, is sent back there by the class |
| `WrrMachine.ChildStaysOut` | Project2/goldfish/kernel/sched/core.c:4360-4370 | a run in which the child of a task of the class asks for the class, is told yes, and stays outside |
| `WrrMachine.ResetsNothing` | Project2/goldfish/include/linux/sched.h:43-44 | a run in which the child of a task of the class with SCHED_RESET_ON_FORK keeps the policy, and asks for the flag in vain |
| `WrrMachine.MovedWhileRunning` | Project2/goldfish/kernel/sched/core.c:7564-7597 | a run in which the running task is moved to the tail and runs on, the head waiting for its whole new slice |
| `WrrMachine.RequestMeans` | Project2/goldfish/kernel/sched/core.c:4264-4370 | a request is refused if and only if its policy, without the flag, is none of 0, 1, 2, 3, 5 and 6, its priority is outside 0 to 99, or the priority is not zero exactly for the two real-time policies |
| `Uninterruptible.LoadCounts.ActivateTask` | Project2/goldfish/kernel/sched/core.c:729-735 | counts down if the task still contributes |
| `Uninterruptible.LoadCounts.DeactivateTask` | Project2/goldfish/kernel/sched/core.c:737-743 | counts up if the task contributes |
| `Uninterruptible.LoadCounts.Schedule` | Project2/goldfish/kernel/sched/core.c:3380-3410 | a sleep counts once, on the CPU of the sleeper, and only if uninterruptible, not frozen, not preempted and no signal is pending |
| `Uninterruptible.LoadCounts.TryToWakeUp` | Project2/goldfish/kernel/sched/core.c:1580-1643 | a wakeup changes no counter and a task off its queue stays counted until activated, but for one whose CPU is still in the switch: it is activated at once and counts down once on that CPU |
| `Uninterruptible.LoadCounts.Activate` | Project2/goldfish/kernel/sched/core.c:1523-1538 | which is what activate_task does for a task that still has its sleeping state |
| `Uninterruptible.LoadCounts.TtwuDoActivate` | Project2/goldfish/kernel/sched/core.c:1435-1445 | activation counts down exactly once, on the CPU where it wakes |
| `Uninterruptible.LoadCounts.TryToWakeUpLocal` | Project2/goldfish/kernel/sched/core.c:1652-1678 | so does the local path, through activate_task |
| `Uninterruptible.LoadCounts.MoveQueuedTask` | Project2/goldfish/kernel/sched/rt.c:1674-1676 | a push or pull counts up on one CPU and down on the other, or not at all |
| `Uninterruptible.LoadCounts.WakeUpNewTask` | Project2/goldfish/kernel/sched/core.c:1818-1863 | a new task is never counted |
| `Uninterruptible.LoadCounts.MigrateNrUninterruptible` | Project2/goldfish/kernel/sched/core.c:5347-5353 | a CPU going down hands its counter on |
| `Uninterruptible.LoadCounts.NrUninterruptible` | Project2/goldfish/kernel/sched/core.c:2148-2165 | the sum over CPUs, modulo the word size, is exactly the number of blocked, non-frozen uninterruptible tasks and of those waking but not yet activated |
| `Uninterruptible.SleepHereWakeThere` | Project2/goldfish/kernel/sched/core.c:2234-2240 | no single counter says so: a run that leaves one at 1 and another at -1 with nobody asleep |
| `Uninterruptible.CountIsBlocked` | Project2/goldfish/kernel/sched/core.c:2148-2165 | what is counted is the tasks off their queues that are uninterruptible and not frozen, or waking from that |
| `SchedGroups.GroupsPartition` | Project2/goldfish/kernel/sched/core.c:6309-6381 | groups are pairwise disjoint, non-empty, cover the span, and each CPU is in its own |
| `SchedGroups.GroupsAreChildren` | Project2/goldfish/kernel/sched/core.c:6309-6325 | where the child domains partition the span, the groups are exactly those |
| `SchedGroups.SizesOfSpan` | Project2/goldfish/kernel/sched/core.c:6393-6402 | the groups' sizes add up to the span's |
| `SchedGroups.FillGroup` | Project2/goldfish/kernel/sched/core.c:6364-6370 | the inner loop collects exactly the CPUs of one representative |
| `SchedGroups.AppendGroup` | Project2/goldfish/kernel/sched/core.c:6358-6377 | a new group joins the chain behind the last |
| `SchedGroups.BuildSchedGroups` | Project2/goldfish/kernel/sched/core.c:6333-6381 | the first CPU of a span builds a ring of all groups, each with its members; the others only look up theirs |
| `SchedGroups.InitGroupWeights` | Project2/goldfish/kernel/sched/core.c:6393-6402 | going round the ring from any group visits each once |
| `RtOverload.RootDomain.SummaryAgrees` | Project2/goldfish/kernel/sched/rt.c:230-301 | with no update in progress a CPU is flagged exactly when two tasks are queued there of which one may run elsewhere, rto_mask is the online flagged CPUs and rto_count its size |
| `RtOverload.RootDomain.CountShowsInMask` | Project2/goldfish/kernel/sched/rt.c:240-249 | at any time between the steps of an update, a reader that finds the counter positive finds the mask not empty |
| `RtOverload.RootDomain.UpdateRtMigration` | Project2/goldfish/kernel/sched/rt.c:262-273 | the flag follows the counts |
| `RtOverload.RootDomain.Finish` | Project2/goldfish/kernel/sched/rt.c:235-260 | mask before counter on the way up, counter before mask on the way down |
| `RtOverload.RootDomain.AddTask` | Project2/goldfish/include/linux/init_task.h:167-171 | a new task on no queue |
| `RtOverload.RootDomain.IncRtMigration` | Project2/goldfish/kernel/sched/rt.c:275-287 | queueing a task |
| `RtOverload.RootDomain.DecRtMigration` | Project2/goldfish/kernel/sched/rt.c:289-301 | taking one off |
| `RtOverload.RootDomain.SetCpusAllowedRt` | Project2/goldfish/kernel/sched/rt.c:1803-1844 | a new mask adjusts the migratory count; the BUG_ON never fires |
| `RtOverload.RootDomain.SetRqOnline` | Project2/goldfish/kernel/sched/core.c:5584-5597 | a CPU coming online shows if flagged |
| `RtOverload.RootDomain.SetRqOffline` | Project2/goldfish/kernel/sched/core.c:5599-5612 | one going offline no longer does |
| `RtOverload.OneTooMany` | Project2/goldfish/kernel/sched/rt.c:262-287 | a run in which two tasks on one CPU, one of them movable, make it the one in the mask |
| `RtOverload.OverloadedIff` | Project2/goldfish/kernel/sched/rt.c:262-273 | the counts say overloaded if and only if there are two queued tasks of which one may run elsewhere |
| `KthreadWorker.Worker.constructor` | Project2/tergra/kernel/kthread.c:287-295 | an unattached worker with an empty list |
| `KthreadWorker.Worker.QueueKthreadWork` | Project2/tergra/kernel/kthread.c:365-381 | queued at the tail and only if not waiting already; the thread is woken |
| `KthreadWorker.Worker.FlushKthreadWorker` | Project2/tergra/kernel/kthread.c:433-441 | the flusher's own work goes behind every work that is queued or executing |
| `KthreadWorker.Worker.FlushReturns` | Project2/tergra/kernel/kthread.c:419-442 | a flush returns only once its completion is signalled |
| `KthreadWorker.Worker.FlushedAllBefore` | Project2/tergra/kernel/kthread.c:426-442 | when a flush has returned every work queued before its own has finished its function |
| `KthreadWorker.Worker.UsedAfterReturn` | Project2/tergra/kernel/kthread.c:340-347 | once a flush has returned, the worker still has to do with its work, which lay on the flusher's stack, if and only if it has signalled the completion and not yet gone on |
| `KthreadWorker.Worker.FlushWaitsFor` | Project2/tergra/kernel/kthread.c:433-442 | while it waits its work stands in line behind exactly the unfinished earlier ones, and an attached thread is not asleep |
| `KthreadWorker.Worker.Attach` | Project2/tergra/kernel/kthread.c:318-319 | one thread at a time, a new one that nobody has told to stop |
| `KthreadWorker.Worker.SetState` | Project2/tergra/kernel/kthread.c:320-321 | the state is set before the tests |
| `KthreadWorker.Worker.TestStop` | Project2/tergra/kernel/kthread.c:323-329 | a thread told to stop detaches |
| `KthreadWorker.Worker.TakeFirst` | Project2/tergra/kernel/kthread.c:331-338 | works are taken in order, or none is there |
| `KthreadWorker.Worker.Execute` | Project2/tergra/kernel/kthread.c:340-342 | the works finish in the order in which they were queued |
| `KthreadWorker.Worker.Complete` | Project2/tergra/kernel/kthread.c:419-424 | a flusher's work signals only its own completion |
| `KthreadWorker.Worker.CompleteReturns` | Project2/tergra/kernel/kthread.c:342-347 | and then finishes in its turn |
| `KthreadWorker.Worker.Schedule` | Project2/tergra/kernel/kthread.c:348-352 | the thread sleeps only with nothing queued: no wakeup is lost |
| `KthreadWorker.Worker.Stop` | Project2/tergra/kernel/kthread.c:323-329 | a stop wakes the thread |
| `KthreadWorker.StackGone` | Project2/tergra/kernel/kthread.c:340-347 | a run in which it has |

## Left out

- The fair, stop and idle classes, cpupri, the pushable-task list and `push_rt_task`/`pull_rt_task` beyond their locking and counting.
- Context switches, time statistics, RCU, allocation failures, credentials, sysfs, printk.
- Memory ordering: all interleaved models are sequentially consistent.
- Root domains: there is one, and its span does not change.
- Removal of task groups, and exit of tasks: members are only added.
- `dequeue_task_rt` charges the running task before it takes one off; charging is a step of its own (`RtBandwidth`), not part of `RtRunQueue.RtCpu.DequeueTask`.
- The queues of `RtBandwidth` and the hierarchy of `RtRunQueue` are separate models: which queue is boosted is a parameter of the former, and that a throttled or released queue is taken off or put on is proved in the latter.
- RtBandwidth.EnableConservesIff: a run may enable only under its condition; what happens otherwise is the witness `SecondEnableLeaks`.
- RtPayments.FiredPays: with sharing on the amounts depend on what the other queues hold at each turn; there a firing is the sequence of turns of `TimerTurns`, each with its exact payment.
- RtBandwidth.ThrottledIsReleased: assumes that `overrun` times the runtime of all CPUs together stays below 64 bits; where it does not a firing may pay off nothing (`OverflowPaysNothing`). A queue that holds no runtime is the subject of `RtRelease`.
- RtAdmissionControl.AdmissionControl.SchedRtHandler: microsecond values are not bounded, as the sysctl's int range keeps the products below 64 bits.
- RtAdmissionControl.AdmissionControl.TgSetRtBandwidth: which groups have real-time tasks does not change during a call, as the source holds tasklist_lock.
- RtAdmissionControl.AdmissionControl.BecomesRealTime: tasks of autogroups, which the source lets pass, run in the root group.
- RtAdmissionControl.AdmissionControl.AttachRtTask: the test and the attachment are one step.
- LoadAverage.FixedPowerClose: bases above 1, which the load average does not use, are computed by `FixedPowerInt` but not bounded.
- `NoHzLoad`: jiffies and update times do not wrap.
- `RqLocks`: the spin on `on_cpu` in `try_to_wake_up`, `yield_to`, `wake_up_new_task` and changes of affinity are not parties of the protocol; a task's mask is constant.
- `WrrRound`, `WrrMachine`: a group counts as background by a fixed flag in place of the second character of its path; HZ is a positive multiple of 100.
- WrrWaiting.WaitBound: is about a task that is itself left alone; one that is moved, changed or put to sleep starts a new wait.
- `get_rr_interval_wrr` classifies groups by another test than the rest of the class and takes no part.
- WrrMachine.Machine.SchedFork: nice values, which `sched_reset_on_fork` also touches.
- WrrMachine.Machine.SetScheduler: permission checks and the recheck of a policy that changes meanwhile.
- WrrMachine.Machine.PullWrrTask: other CPUs do not act between the visits to two source queues.
- WrrMachine.Machine.Schedule: the choices of the other classes are parameters.
- WrrMachine.Machine.SelectFallbackRq: every online CPU is taken to be active; cpuset.c is not part of this model, and the mask it would give and the CPUs of the node are parameters.
- WrrMachine.Machine.DoSetCpusAllowed: `set_cpus_allowed_ptr` then has a queued task moved, which is `MoveQueuedTask`.
- `Uninterruptible`: a task is frozen or thawed only while it is not asleep.
- `SchedGroups`: reference counts, group power and overlapping domains.
- RtOverload.RootDomain.UpdateRtMigration: the half of an update that other CPUs see first; `Finish` is the rest.
- `KthreadWorker`: `flush_kthread_work` and its sequence numbers, and freezing.

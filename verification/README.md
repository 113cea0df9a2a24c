# CMRX kernel model

A model, in Dafny, of the parts of the CMRX real-time kernel whose correctness spans several functions or whole runs:
transactions, the futex, notifications and their pending table, timers, the scheduler, stack allocation, remote
procedure calls with their exception frames, the MPU registers, the byte queue of the queue server, and the linker tool
that lays out MPU regions. The proofs are for all inputs and, for the protocols, for all runs.

`dafny verify dfyconfig.toml` checks everything.

## Layout

| file | part of the system |
|---|---|
| `PowerOfTwo.dfy`, `Algo.dfy` | powers of two and triangular numbers; the search, insertion and deletion templates of `include/cmrx/algo.h` |
| `Txn.dfy` | optimistic transactions |
| `PendingTable.dfy`, `Notify.dfy`, `NotifyRuns.dfy` | the table of pending notifications, wait and notify, and their runs |
| `Futex.dfy`, `FutexWitness.dfy` | the RISC-V futex over the kernel's notifications, and a run that forgets a thread |
| `Threads.dfy`, `Sched.dfy`, `RoundRobin.dfy`, `KernelRuns.dfy` | the scheduling choice, thread states, bounded waiting, one running thread |
| `WaiterRuns.dfy`, `WaiterOverflow.dfy` | the waiter list across the thread life cycle, and a run that overflows it |
| `SleepRuns.dfy` | sleeping threads and the end of a sleep |
| `TimedWaits.dfy`, `TimedWitness.dfy` | notifications and timers together: waits with a timeout, and runs that leave a timeout behind |
| `Stacks.dfy`, `StackRuns.dfy` | stack allocation and ownership |
| `Timer.dfy`, `TimerRuns.dfy`, `TimerTable.dfy`, `TimerDeadlines.dfy`, `TimerTick.dfy`, `TimerService.dfy` | timers: operations, one-shot runs, single timers, periodic deadlines, what a tick leaves behind, the tables in place |
| `Queue.dfy`, `QueuePreemption.dfy` | the byte queue, and a receive preempted by sends |
| `Protection.dfy` | MPU registers across remote calls and thread switches |
| `Frames.dfy`, `FrameRuns.dfy`, `FrameService.dfy` | exception frames of remote calls, nested calls, the frames in place |
| `Regions.dfy` | linker alignment and MPU region registers |
| `Lexer.dfy`, `TokenShapes.dfy`, `Merger.dfy`, `MergedNames.dfy`, `ScriptText.dfy` | the linker tool's lexer and token mergers: text kept, tokens made, scripts that survive |

Where the source changes globals, arrays or fields in place, a class or a method with loops does the same and its
contract equates the new state with a function of the old one; the theorems are about those functions and about runs of
them.

## How the source is read

- The hash function is a parameter: the results hold for every hash. `x & (2^m - 1)` is the remainder by 2^m.
- A system call or interrupt handler is one step, so a transaction started and committed inside it succeeds at once.
  Finer steps are taken where the interleaving is the point: `Txn` interleaves loads, stores and commits of any number
  of agents, `Futex` interleaves load-reserved and store-conditional, `QueuePreemption` interleaves single memory
  accesses, and `Stacks` takes the bitmaps found after aborted commits as input.
- Integers are unbounded and every width that matters is written out: 8-bit transaction versions, 32-bit pending counts,
  32-bit times, 32-bit addresses.
- Clocks, the vtable asked for, the bytes sent and the registers stacked by the processor are parameters.
- Exception entry and return follow section B1.5.7 of the ARMv7-M architecture manual. MPU registers are decoded as the
  ARMv7-M and ARMv8-M manuals define them.
- A word on the stack is its bit 9 and its other bits, since the source tests and changes bit 9 only; `Frames.SplitSet`,
  `Frames.SplitClear` and `Frames.SplitMerge` tie this to the bit operations on 32-bit words.

## What turned out not to hold

Each of these has a lemma with a concrete input, state or run, named first, and a lemma that says exactly when the
property does hold.

- A commit overtaken by 256 read-write commits is granted on changed data (`Txn.WrappedVersionCommits`;
  `Txn.CommitSeesStart`).
- Removing an entry of the pending table can hide another object's count (`PendingTable.CutHidesPending`;
  `PendingTable.RemoveKeepsReachableIff`, `PendingTable.MapIffReachable`), and the 32-bit count wraps
  (`PendingTable.CountWraps`; `PendingTable.QueueCounts`).
- `HASH_SEARCH` never ends on a full table that lacks the key (`Algo.FullTableNeverEnds`; `Algo.SearchEndsIff`).
- A waiter of priority 255 is never woken, so that an unlock can lose the wake-up of a futex
  (`FutexWitness.LowestPriorityIsForgotten`, a run from an unlocked futex; `Futex.StepLosesIff`, for whole runs
  `Futex.AlwaysKeptIff`, and `NotifyRuns.NotifyWakesBest`).
- A waiting thread that is killed stays on the waiter list and lets the list outgrow its array
  (`WaiterOverflow.WaitOverflows`, a run without a notification; `WaiterRuns.KillKeepsListIff`, and for whole runs
  `WaiterRuns.AlwaysRightIff`). The scan of the next notification asserts that every listed thread waits and stops there
  in builds with assertions; without them the notification makes the finished thread ready, without a stack
  (`WaiterRuns.KilledWaiterRevives`).
- A wait with a timeout that returns at once leaves its timeout armed, and the timeout then ends a later wait that has
  none (`TimedWitness.StaleTimeoutEndsLaterWait`); a notification does not find the timeout of the thread it wakes when
  an earlier one has freed a slot before it (`TimedWitness.WokenKeepsTimeout`). `TimedWaits.StepExactIff` says which
  steps leave a timeout behind.
- The end of a sleep makes its thread ready in whatever state it is, also when it has been killed
  (`SleepRuns.KilledSleeperRevives`; `SleepRuns.RouseKeepsListIff`, `SleepRuns.RouseKeepsSettledIff`,
  `SleepRuns.StepAsleepIff`).
- `os_stack_create` keeps its mask when an aborted commit makes it start over (`Stacks.WrongBitMarked`;
  `Stacks.MarksItsStackIff`).
- A receive that is preempted by sends both before and after it sets the empty flag can lose a whole queue
  (`QueuePreemption.HazardIsReachable`, a run; `QueuePreemption.HazardLosesItems`,
  `QueuePreemption.HazardNeedsBothPoints`, `QueuePreemption.OnePointIsFifo`).
- A tick does not fire every timer that is due (`TimerTick.DueTimerIsPassedOver`; `TimerTick.AllDueFireIff`), the lookup
  of a periodic timer goes by its first deadline (`TimerDeadlines.RescheduledIsNotFound`;
  `TimerDeadlines.LookupFindsIff`), an insertion before the cursor moves the cursor the wrong way
  (`TimerTable.CursorSlipsBack`; `TimerTable.EnqueueKeepsCursorIff`), a removal under the cursor can leave it behind the
  queue (`TimerTable.CursorFallsOff`; `TimerTable.DequeueKeepsCursorInsideIff`), and a tick shortly before the 32-bit
  wrap fires a periodic timer ahead of its time (`Timer.FiresAheadOfTime`; `Timer.DueAheadOfTimeIff`).
- The RPC stack has room for seven calls and its guard admits eight (`Protection.EighthCallLandsOutside`;
  `Protection.PushStaysInsideIff`).
- `mpu_configure_region` for ARMv7-M tests the base against half the size and takes one and a half powers of two for a
  power (`Regions.HalfAlignedIsAccepted`, `Regions.OneAndAHalfIsAccepted`; `Regions.AcceptedIff`, `Regions.ExactIff`),
  accepts regions below the 32 bytes the architecture starts at (`Regions.SixteenBytesAreAccepted`;
  `Regions.LegalSizeIff`), and never accepts a size for which it would need subregions (`Regions.OddSizesRefused`).
- The docstring of the comment merger says that a newline ends a line comment. The code compares a token with a token
  type there, so nothing ends it (`ScriptText.LineCommentIsLost`); and a quote inside a block comment hides the end of
  the comment (`ScriptText.QuotedCommentIsLost`; `ScriptText.SurvivesIff`).

## Model

| member | source | states |
|---|---|---|
| `Algo.ProbesDistinct` | include/cmrx/algo.h:233-245 | the first 2^m probes of the growing stride hit pairwise different slots of a table of 2^m |
| `Algo.ProbesCoverTable` | include/cmrx/algo.h:233-245 | every slot is hit by one of the first 2^m probes |
| `Algo.SearchEndsIff` | include/cmrx/algo.h:233-245 | the search ever stops, and stops within the table's size in probes, exactly when the table holds the key or a free slot |
| `Algo.FullTableNeverEnds` | include/cmrx/algo.h:233-245 | in a full table of two without the key no probe ever stops the search |
| `Algo.HashSearch` | include/cmrx/algo.h:233-245 | the loop ends at the first probed slot that holds the key or is free |
| `Algo.LowerBoundIsBound` | include/cmrx/algo.h:55-71 | in a sorted array there is one position with everything smaller before it and nothing smaller after it |
| `Algo.BinarySearch` | include/cmrx/algo.h:55-71 | halving down to eight entries and then scanning gives that lower bound |
| `Algo.ArrayInsert` | include/cmrx/algo.h:82-87 | the entries from the position on move up by one, all others stay |
| `Algo.ArrayDelete` | include/cmrx/algo.h:97-102 | the array without the entry at the position, and nothing beyond its size touched |
| `Algo.SameSearch` | include/cmrx/algo.h:233-245 | a search is not disturbed by changes to slots it does not visit before its end |
| `Txn.TransactionManager.Start` | src/os/kernel/txn.c:44-53 | returns the current version and changes nothing |
| `Txn.TransactionManager.Commit` | src/os/kernel/txn.c:55-80 | granted exactly for the current version; a read-write grant takes the lock and moves the version on, a read-only one and a refusal change nothing |
| `Txn.TransactionManager.StartCommit` | src/os/kernel/txn.c:82-89 | takes the lock and moves the version on |
| `Txn.TransactionManager.Done` | src/os/kernel/txn.c:91-97 | gives the lock back and keeps the version |
| `Txn.StepKeepsInv` | src/os/kernel/txn.c:44-97 | every step of every agent keeps: one writer exactly while locked, version equal to the number of read-write commits modulo 256, snapshots valid for transactions nobody overtook |
| `Txn.CommitSeesStart` | src/os/kernel/txn.c:55-80 | in every interleaving a commit is granted exactly when the number of read-write commits since its start is a multiple of 256, and granted with fewer than 256 it finds the memory as it was at its start |
| `Txn.ReadOnlyAbortsNobody` | src/os/kernel/txn.c:55-80 | whatever the other agents could do without a read-only commit they can do after it, and every commit of theirs, now or later, is then granted in the one case exactly when it is in the other, over the same memory |
| `Txn.ReadWriteAbortsOthers` | src/os/kernel/txn.c:55-80 | a granted read-write commit aborts every other open transaction that commits before 255 further ones |
| `Txn.RunsAreSerial` | src/os/kernel/txn.c:44-97 | every run without a commit that 256 others overtook equals the serial execution of its finished transactions in commit order: same values read, same final memory |
| `Txn.WrappedVersionCommits` | src/os/kernel/txn.c:55-80 | a run in which exactly 256 read-write commits overtake a transaction whose commit is then granted on changed memory |
| `PendingTable.QueueCounts` | src/os/kernel/notify.c:24-44 | refused exactly when no slot is free; keeps the size counter and both assertions exactly when the 32-bit count does not wrap; then adds one to that object's count and nothing to any other |
| `PendingTable.DequeueCounts` | src/os/kernel/notify.c:46-64 | keeps the size counter and both assertions and takes exactly one from the object it reports |
| `PendingTable.InsertKeepsReachable` | src/os/kernel/notify.c:24-44 | storing an object in the slot its search found keeps every stored object findable |
| `PendingTable.RemoveKeepsReachableIff` | src/os/kernel/notify.c:57-61 | freeing a slot keeps every other stored object findable exactly when the slot lies on no other key's probe prefix |
| `PendingTable.LookupIsPending` | src/os/kernel/notify.c:19-22 | while stored objects are findable, the lookup gives the object's whole pending count |
| `PendingTable.MapIffReachable` | src/os/kernel/notify.c:19-64 | the table acts as a map from object to count exactly when every stored object is findable |
| `PendingTable.QueueKeepsReachable` | src/os/kernel/notify.c:24-44 | queueing a notification keeps the table a map |
| `PendingTable.DequeueKeepsReachableIff` | src/os/kernel/notify.c:46-64 | taking a notification keeps the table a map exactly when it does not free a slot on another key's probe prefix |
| `PendingTable.CutHidesPending` | src/os/kernel/notify.c:46-64 | two objects with equal hashes: using up the first one's count makes the second one's pending count unfindable |
| `PendingTable.CountWraps` | src/os/kernel/notify.c:38-39 | one notification more than the count can hold leaves a taken slot with nothing pending |
| `Notify.Notifications.Init` | src/os/kernel/notify.c:66-76 | an empty waiter list and a table of free slots |
| `Notify.Notifications.FindQueueEntry` | src/os/kernel/notify.c:19-22 | the slot of the object, or a free one |
| `Notify.Notifications.QueueEvent` | src/os/kernel/notify.c:24-44 | the table and counter in place become those of the queueing function |
| `Notify.Notifications.DequeueEvent` | src/os/kernel/notify.c:46-64 | the table and counter in place become those of the dequeueing function |
| `Notify.Notifications.FindNotifiedThreadWaiter` | src/os/kernel/notify.c:158-177 | the first of the best-priority waiters on the object below priority 255, or none |
| `Notify.Notifications.RemoveWaiter` | src/os/kernel/notify.c:288-295 | the waiter list without the thread's first entry |
| `Notify.Notifications.NotifyThread` | src/os/kernel/notify.c:137-156 | refused without a wait object; otherwise the thread is running if current and ready if not, waits for nothing, and a timeout takes it off the list |
| `Notify.Notifications.ExpireWait` | src/os/kernel/notify.c:286-299 | the state after the timeout of a wait |
| `Notify.Notifications.WakeCandidate` | src/os/kernel/notify.c:198-216 | wakes the chosen waiter, drops the caller's priority when asked, and unlists the waiter; or changes nothing |
| `Notify.Notifications.Notify` | src/os/kernel/notify.c:179-232 | the whole notification: waking, queueing or refusing, and the yield it may need |
| `Notify.Notifications.Wait` | src/os/kernel/notify.c:349-405 | busy, an immediate return on a pending count, or a blocked caller at the end of the list and a yield |
| `NotifyRuns.StepKeepsInv` | src/os/kernel/notify.c:137-232 | waits, notifications, timeouts, preemptions and switches keep: list = waiting threads, in order of arrival, counters right, a requested switch goes to a runnable thread |
| `NotifyRuns.WaitersAreWaiting` | src/os/kernel/notify.c:349-405 | in every run the list holds exactly the waiting threads, once each, in order of arrival, and never outgrows its array |
| `NotifyRuns.NotifyWakesBest` | src/os/kernel/notify.c:158-232 | in every run a notification wakes the waiter of best priority below 255, the longest waiting among equals, and changes no other thread's waiting; it wakes nobody exactly when none of them is below 255 |
| `NotifyRuns.NotificationsConserved` | src/os/kernel/notify.c:24-232 | in every run, cut probe paths or not: accepted notifications of an object = wake-ups + immediate waits + counts in the table, and the size counter and the assertions hold |
| `NotifyRuns.WaitReturnsAtOnceIff` | src/os/kernel/notify.c:349-405 | while the table is a map, a wait returns at once exactly when a count is pending |
| `NotifyRuns.NeverPendingAndWaitedFor` | src/os/kernel/notify.c:179-405 | in every run that cuts no probe path the table stays a map and no object has both a pending count and a waiter below priority 255 |
| `Futex.DoKeeps` | src/lib/arch/riscv/mutex.c:28-128 | every step of any thread, and any preemption, timeout and other kernel activity, keeps exclusion and reservations |
| `Futex.NotifyForgetsIff` | src/lib/arch/riscv/mutex.c:116-128 | a notification loses the wake-up exactly when the futex is free, threads are blocked, all of them at priority 255, no other thread is about to notify and none has been woken; who has only just come to the futex makes no difference |
| `Futex.StepLosesIff` | src/lib/arch/riscv/mutex.c:28-128 | any step, also a timeout that ends a wait for the futex, loses a wake-up exactly when it is such a notification |
| `Futex.AlwaysKeptIff` | src/lib/arch/riscv/mutex.c:28-128 | a run never loses a wake-up exactly when it has no such notification |
| `Futex.MutualExclusion` | src/lib/arch/riscv/mutex.c:28-84 | in every run, preempted between any two steps and at any priorities, at most one thread holds the futex, the state byte is 1 exactly while one does, and the owner byte names it |
| `Futex.NobodyIsForgotten` | src/lib/arch/riscv/mutex.c:94-128 | in every run in which threads block below priority 255, for every blocked thread the futex is held, or another thread is about to notify, or another thread has been woken by a notification and is trying for it again |
| `FutexWitness.LowestPriorityIsForgotten` | src/lib/arch/riscv/mutex.c:116-128 | a run from an unlocked futex with two threads of priority 255 that ends with it free and one of them blocked for good |
| `Threads.ChoiceUnique` | src/os/kernel/sched.c:73-115 | at most one thread is runnable, of best priority and first in cyclic order |
| `Threads.ChoiceIsBest` | src/os/kernel/sched.c:73-115 | that thread is the one the scan keeps |
| `Sched.Scheduler.GetNextThread` | src/os/kernel/sched.c:73-115 | the loop of one turn more than there are threads finds that thread, and reports it exactly when it is not the current one |
| `Sched.Scheduler.SchedYield` | src/os/kernel/sched.c:117-141 | a switch to the chosen thread is requested, or the request is cleared |
| `Sched.Scheduler.ContextSwitch` | src/os/arch/riscv/context_switch_core.c:14-48 | a requested switch makes the old thread ready if it was running and the next one current and running |
| `Sched.Scheduler.ThreadKill` | src/os/kernel/sched.c:288-315 | a thread in use is finished with its status and gives its stack back; others are refused |
| `Sched.Scheduler.ThreadStop` | src/os/kernel/sched.c:317-348 | a ready or running thread is stopped, yielding when it is the caller; others are refused |
| `Sched.Scheduler.ThreadContinue` | src/os/kernel/sched.c:366-390 | a stopped thread becomes ready and the scheduler is asked; others are refused |
| `Sched.Scheduler.SetThreadPriority` | src/os/kernel/sched.c:392-403 | the base priority changes, a numerically smaller effective one is lifted to it, and the scheduler is asked |
| `Sched.Scheduler.ThreadJoin` | src/os/kernel/sched.c:419-440 | joining a finished thread returns its status and empties its slot; a thread that does not exist is refused |
| `Sched.KillWakesNobody` | src/os/kernel/sched.c:288-315 | the end of a thread touches no other thread |
| `Sched.Scheduler.ThreadConstruct` | src/os/kernel/sched.c:463-491 | a created thread gets the lowest free stack and becomes ready; without a stack it stays as it was |
| `Sched.Scheduler.ThreadAlloc` | src/os/kernel/sched.c:501-532 | the first empty slot becomes a created thread of the given priority |
| `RoundRobin.RoundTakesChoice` | src/os/kernel/sched.c:117-141 | a yield followed by the switch point runs the chosen thread |
| `RoundRobin.EveryTopThreadInTurn` | src/os/kernel/sched.c:73-141 | with nothing else changing, every m consecutive rounds run each of the m best-priority threads exactly once and no other |
| `KernelRuns.EntryThenSwitch` | src/os/arch/riscv/context_switch_core.c:25-48 | every kernel entry from a settled state, also a wait without room in the waiter array, leaves at most the current thread running, and the switch point settles it again |
| `KernelRuns.OneRunningThread` | src/os/kernel/sched.c:117-141 | in every run of yield, stop, continue, kill, create, join, priority, wait and notify whose waits find room in the waiter array, after each switch point exactly the current thread is running |
| `WaiterRuns.KillKeepsListIff` | src/os/kernel/sched.c:288-315 | a kill leaves the waiter list right exactly when the thread was not waiting |
| `WaiterRuns.KillKeepsWaitersIff` | src/os/kernel/sched.c:288-315 | the same with the order of arrival |
| `WaiterRuns.RoundKeepsListIff` | src/os/kernel/sched.c:117-390 | any kernel entry with its switch point leaves the list right exactly when it does not kill a waiting thread |
| `WaiterRuns.AlwaysRightIff` | src/os/kernel/notify.c:158-405 | the list is right throughout a run exactly when the run kills no waiting thread |
| `WaiterRuns.ListNeverOverflows` | src/os/kernel/notify.c:388-391 | in every run that kills no waiting thread the list is right and the waiter array has room for the next wait |
| `WaiterRuns.OneRunningInCalmRuns` | src/os/kernel/sched.c:117-141 | so in every such run, nothing asked of the array, exactly the current thread is running after each switch point |
| `WaiterRuns.KilledWaiterRevives` | src/os/kernel/sched.c:288-315 | a killed waiter stays listed, which the assertion of the scan at src/os/kernel/notify.c:165 does not allow; without assertions the next notification makes the finished thread ready, without a stack |
| `WaiterOverflow.WaitOverflows` | src/os/kernel/notify.c:388-391 | a run of two threads, one killed twice while it waits, after which the list fills its array and the next wait is written behind it |
| `SleepRuns.RouseKeepsSettledIff` | src/os/kernel/timer.c:327-333 | the end of a sleep leaves the current thread the running one exactly when it is not its own |
| `SleepRuns.RouseKeepsListIff` | src/os/kernel/timer.c:327-333 | the end of a sleep leaves the waiter list right exactly when its thread does not wait |
| `SleepRuns.KilledSleeperRevives` | src/os/kernel/timer.c:327-333 | a thread killed in its sleep is made ready when the sleep ends, without a stack |
| `SleepRuns.StepAsleepIff` | src/os/kernel/timer.c:103-145 | any kernel entry, a sleep and the end of one keep every sleeping thread stopped exactly when they continue or kill none of them |
| `SleepRuns.SleepersWakeSafely` | src/os/kernel/timer.c:297-370 | in every run that continues and kills no sleeping thread every end of a sleep finds its thread stopped, and leaves one running thread and the waiter list right |
| `Stacks.UndisturbedSearch` | src/os/kernel/sched.c:235-262 | without aborts the lowest free stack is returned and exactly its bit marked |
| `Stacks.MarksItsStackIff` | src/os/kernel/sched.c:235-262 | with aborts the marked bit is that of the returned stack exactly when every aborted attempt was made on stack 0 |
| `Stacks.WrongBitMarked` | src/os/kernel/sched.c:235-262 | with stack 0 in use, an abort on stack 1 makes the search return stack 0 and mark stack 1 |
| `Stacks.StackPool.Create` | src/os/kernel/sched.c:235-262 | the search loop with its restarts marks and returns what the search function does |
| `Stacks.StackPool.DisposeStack` | src/os/kernel/sched.c:272-280 | clears the bit of a stack that exists and nothing else |
| `StackRuns.KillOwned` | src/os/kernel/sched.c:288-315 | killing a thread frees exactly its stack |
| `StackRuns.ApplyOwned` | src/os/kernel/sched.c:235-532 | alloc, construct, kill, join, stop, continue, yield and switch each keep the bitmap equal to the stacks held |
| `StackRuns.StacksNeverLeak` | src/os/kernel/sched.c:235-532 | in every run from an empty table no two threads share a stack and the bitmap is exactly the set of stacks held |
| `Timer.DebtFalls` | src/os/kernel/timer.c:283-370 | firing a due timer strictly lessens the time by which queued entries are overdue, also in a tick across the 32-bit wrap |
| `Timer.FireDecreases` | src/os/kernel/timer.c:309-369 | each turn of the tick loop keeps the cursor in range and lessens its measure, so the loop ends |
| `Timer.DueAheadOfTimeIff` | src/os/kernel/timer.c:283-318 | in a tick that does not go across the wrap a rescheduled timer is taken for due ahead of its time exactly when its time lies behind the wrap and is, counted from there, no more than the end of the tick |
| `Timer.FiresAheadOfTime` | src/os/kernel/timer.c:283-318 | a timer every 256, due 32 before the wrap, is due again at once in a tick that ends 16 before the wrap |
| `Timer.WrapIsMod` | src/os/kernel/timer.c:354 | the recursive remainder used for times and the cursor is the remainder |
| `TimerRuns.QueueFits` | src/os/kernel/timer.c:80-91 | a queue that agrees with the table never outgrows it and has room while a slot is free |
| `TimerRuns.LookupFinds` | src/os/kernel/timer.c:44-68 | in an agreeing queue the lookup of a used slot ends at the slot's only entry |
| `TimerRuns.ArmAgrees` | src/os/kernel/timer.c:103-145 | arming and re-arming a slot keep the agreement |
| `TimerRuns.RemoveAgrees` | src/os/kernel/timer.c:199-217 | cancelling keeps the agreement |
| `TimerRuns.ApplyKeeps` | src/os/kernel/timer.c:44-370 | arm, re-arm, cancel by entry, cancel by owner and a whole tick each keep the agreement |
| `TimerRuns.TickKeeps` | src/os/kernel/timer.c:297-370 | a whole tick, however many timers it fires, keeps the agreement |
| `TimerRuns.InitKeeps` | src/os/kernel/timer.c:252-261 | the tables as initialised agree |
| `TimerRuns.OneShotRuns` | src/os/kernel/timer.c:44-370 | in every run of arming, cancelling and whole ticks of one-shot timers with distinct resume times the queue is sorted, names exactly the used slots once each with sleep_from + interval modulo 2^32, finds each at its entry, and insertion never overflows |
| `TimerTable.ArmThenFind` | src/os/kernel/timer.c:36-42 | the slot a timer was armed in is the slot a later search finds, and holds what it was armed with |
| `TimerTable.ArmThenCancel` | src/os/kernel/timer.c:103-217 | cancelling a timer just armed in a free slot restores the queue and frees the slot |
| `TimerTable.DequeueKeepsCursor` | src/os/kernel/timer.c:70-78 | taking out another entry leaves the cursor on its entry |
| `TimerTable.EnqueueKeepsCursorIff` | src/os/kernel/timer.c:80-91 | putting in an entry leaves the cursor on its entry exactly when it goes in behind the cursor |
| `TimerTable.CursorSlipsBack` | src/os/kernel/timer.c:80-91 | three entries, the cursor on the last, one put in before it: the cursor is on the new one |
| `TimerTable.DequeueKeepsCursorInsideIff` | src/os/kernel/timer.c:70-78 | taking out an entry leaves the cursor inside the queue exactly when it is not on the last of several entries and that one goes |
| `TimerTable.CursorFallsOff` | src/os/kernel/timer.c:70-78 | two entries, the cursor on the last, which is taken out: the cursor is behind the queue |
| `TimerTable.EnqueueKeepsCursorInside` | src/os/kernel/timer.c:80-91 | putting in an entry keeps the cursor inside the queue |
| `TimerDeadlines.TickIsSound` | src/os/kernel/timer.c:297-370 | a tick fires nothing before its time, leaves the cursor in range, and stops at an entry that is not due |
| `TimerDeadlines.TickOnTime` | src/os/kernel/timer.c:283-370 | within one tick, also across the wrap, a periodic timer fires some number of times, each one interval after the last on the 32-bit clock, and stays queued for the next |
| `TimerDeadlines.KthDeadline` | src/os/kernel/timer.c:283-370 | in every run in which other timers come and go, the k-th firing of an undisturbed periodic timer is for arm time + k * interval modulo 2^32 |
| `TimerDeadlines.LookupFindsIff` | src/os/kernel/timer.c:44-68 | the lookup of a rescheduled timer finds its entry exactly when every entry before it is earlier than the first deadline |
| `TimerDeadlines.RescheduledIsNotFound` | src/os/kernel/timer.c:44-68 | a periodic timer every 10 and a sleep until 15: after the first firing the lookup does not find the periodic one |
| `TimerTick.ClearsIff` | src/os/kernel/timer.c:343-355 | for n entries, d due and the cursor at c, the skipping cursor leaves none of the due ones exactly when d = 0, d = n, d = 1 with c = 0, or d = n - 1 with n + c a power of two |
| `TimerTick.AllDueFireIff` | src/os/kernel/timer.c:309-369 | a tick over one-shot timers fires all that are due exactly under that condition on the queue and the cursor |
| `TimerTick.DueTimerIsPassedOver` | src/os/kernel/timer.c:343-355 | three timers, two due, cursor at the front: one of the two stays queued past its time |
| `TimerService.SleeperTable.Init` | src/os/kernel/timer.c:252-261 | all slots free, empty queue, cursor at the front, so that queue and table agree |
| `TimerService.SleeperTable.FindTimerSlot` | src/os/kernel/timer.c:36-42 | the slot of the key, or a free one |
| `TimerService.SleeperTable.FindTimerQueue` | src/os/kernel/timer.c:44-68 | the lower bound of the slot's time if the entry there is the slot's; the invalid number for a free slot, a slot out of range or another entry; also when the entry read is the one behind the last in use |
| `TimerService.SleeperTable.DequeueTimedEvent` | src/os/kernel/timer.c:70-78 | the queue without the entry, still sorted, and the cursor adjusted |
| `TimerService.SleeperTable.EnqueueTimedEvent` | src/os/kernel/timer.c:80-91 | the queue with the entry at its lower bound, still sorted, and the cursor adjusted |
| `TimerService.SleeperTable.DoSetTimedEvent` | src/os/kernel/timer.c:103-145 | the slot holds the new timer and its entry is kept, moved or put in |
| `TimerService.SleeperTable.SetTimedEvent` | src/os/kernel/timer.c:147-167 | the same for the slot that the search finds |
| `TimerService.SleeperTable.CancelTimedEvent` | src/os/kernel/timer.c:175-197 | found exactly when the lookup finds an entry in use, then exactly that entry is cancelled; otherwise nothing changes |
| `TimerService.SleeperTable.CancelSleeper` | src/os/kernel/timer.c:199-217 | refused beyond the queue; otherwise the entry is gone and its slot free |
| `TimerService.SleeperTable.SleeperReschedule` | src/os/kernel/timer.c:283-295 | the entry moves to one interval after its last deadline |
| `TimerService.SleeperTable.FireTimer` | src/os/kernel/timer.c:322-360 | a periodic timer is rescheduled, a one-shot one cancelled, and the cursor moves on |
| `TimerService.SleeperTable.RunTimer` | src/os/kernel/timer.c:297-370 | the tick loop fires what the tick function fires, in that order, and leaves the state it leaves |
| `TimedWaits.StepExactIff` | src/os/kernel/notify.c:179-311 | a wait, notification, tick, yield or switch keeps a timeout outstanding for exactly the threads that wait with one, exactly when it is neither a wait with a timeout that returns at once nor a notification whose search misses the timeout of the thread it wakes |
| `TimedWaits.TickExact` | src/os/kernel/timer.c:326-350 | every expired timeout wakes a waiting thread and is gone, for all that a tick fires |
| `TimedWaits.WokenHasNoTimeout` | src/os/kernel/notify.c:179-311 | in every run without such a step a thread that is awake, or waits without a timeout, has none outstanding, and one that waits with a timeout has one that is queued |
| `TimedWitness.StaleTimeoutEndsLaterWait` | src/os/kernel/notify.c:304-311 | a run in which the timeout of a wait that returned at once ends a later wait that has none |
| `TimedWitness.WokenKeepsTimeout` | src/os/kernel/timer.c:169-217 | a run in which a woken thread's timeout is not found, because cancelling another one freed a slot before it |
| `Queue.SendIsFifo` | src/extra/queue_server/queue.c:7-26 | a send on the ring is a send on a bounded FIFO of the same items |
| `Queue.ReceiveIsFifo` | src/extra/queue_server/queue.c:38-70 | a receive on the ring is a receive on that FIFO |
| `Queue.PutBytes` | src/extra/queue_server/queue.c:16-20 | the bytes of an item go to its slot, the cursor wraps at the end, no other byte changes |
| `Queue.GetBytes` | src/extra/queue_server/queue.c:55-59 | the bytes of the slot are copied out and the cursor wraps at the end |
| `Queue.Queue.Init` | src/extra/queue_server/queue.c:83-97 | an empty queue for every depth and item size of at least 1 |
| `Queue.Queue.QueueEmpty` | src/extra/queue_server/queue.c:72-75 | true exactly when there is no item |
| `Queue.Queue.QueueFull` | src/extra/queue_server/queue.c:77-80 | true exactly when there are as many items as the depth |
| `Queue.Queue.SendSilent` | src/extra/queue_server/queue.c:7-26 | the byte buffer afterwards holds the FIFO with the item appended, or the same FIFO when it was full |
| `Queue.Queue.ReceiveTimeout` | src/extra/queue_server/queue.c:38-70 | hands out the oldest item and removes it, or fails on an empty queue or a timeout and changes nothing |
| `QueuePreemption.PutKeepsInv` | src/extra/queue_server/queue.c:7-26 | a send at any point of a receive acts as a FIFO send on what is still to be received |
| `QueuePreemption.AdvanceKeepsInv` | src/extra/queue_server/queue.c:38-70 | every memory access of the receive keeps: accepted = delivered + in flight + queued |
| `QueuePreemption.PreemptedQueueIsFifo` | src/extra/queue_server/queue.c:38-70 | in every run of receives preempted at any access by any number of sends, outside the hazard, no item is lost, duplicated, reordered or overwritten |
| `QueuePreemption.AloneIsReceive` | src/extra/queue_server/queue.c:38-70 | without preemption the accesses add up to the whole receive |
| `QueuePreemption.HazardNeedsBothPoints` | src/extra/queue_server/queue.c:63-67 | the hazard needs a send before and a send after the flag is set, both within one receive |
| `QueuePreemption.OnePointIsFifo` | src/extra/queue_server/queue.c:38-70 | in every run whose receives are each interrupted at one of the two points only there is no hazard, and the queue is a FIFO |
| `QueuePreemption.HazardLosesItems` | src/extra/queue_server/queue.c:63-67 | a send in the hazard is let into a full queue, and a whole depth of items is lost |
| `QueuePreemption.HazardIsReachable` | src/extra/queue_server/queue.c:63-67 | a run that reaches it |
| `Protection.FindProcess` | src/os/kernel/rpc.c:18-33 | the first defined process whose interface holds the vtable, or unknown exactly when there is none |
| `Protection.Load` | src/os/arch/arm/mpu.c:168-180 | exactly the regions from base on take the saved registers |
| `Protection.Restore` | src/os/arch/arm/mpu.c:142-150 | regions 0 to 3 from the host, 4 and 5 from the parent, the others untouched |
| `Protection.ApplyKeeps` | src/os/arch/arm/rpc.c:52-63 | call, return, request, withdrawal of a request and switch each keep the registers in agreement with the current thread |
| `Protection.SwitchKeeps` | src/os/arch/arm/cortex.c:182-209 | skipping the reload when neither process changes is sound |
| `Protection.BootAgrees` | src/os/kernel/sched.c:602-617 | the start of the first thread establishes the agreement |
| `Protection.RegistersAgree` | src/os/arch/arm/cortex.c:162-228 | in every run from boot, regions 0 to 3 are the host process's, 4 the parent's, 5 the thread's stack, and regions 6 and 7 are never touched |
| `Protection.CallThenReturn` | src/os/arch/arm/rpc.c:147-171 | a return undoes a granted call: registers, depth and the calls below |
| `Protection.PushStaysInsideIff` | src/os/kernel/rpc.c:35-47 | a push that is not refused stays inside the eight cells exactly when the depth is not 7 |
| `Protection.EighthCallLandsOutside` | src/os/kernel/rpc.c:35-47 | seven calls deep, one more is granted and written behind the stack |
| `Protection.Core.MpuLoad` | src/os/arch/arm/mpu.c:168-180 | the loop loads exactly the given regions |
| `Protection.Core.MpuRestore` | src/os/arch/arm/mpu.c:142-150 | host regions and parent regions loaded |
| `Protection.Core.GetVtableProcess` | src/os/kernel/rpc.c:18-33 | the scan finds the first process that provides the vtable |
| `Protection.Core.RpcStackPush` | src/os/kernel/rpc.c:35-47 | process on top and depth one more, or refused; no other thread changes |
| `Protection.Core.RpcStackPop` | src/os/kernel/rpc.c:49-61 | depth one less and returned; no other thread changes |
| `Protection.Core.RpcCall` | src/os/arch/arm/rpc.c:52-63 | unknown vtable and full stack are refused without effect; otherwise pushed and the host's regions loaded |
| `Protection.Core.RpcReturn` | src/os/arch/arm/rpc.c:147-171 | popped and the regions of the process returned to loaded |
| `Protection.Core.ScheduleContextSwitch` | src/os/kernel/context.c:33-75 | the context names the parents and hosts of both threads |
| `Protection.Core.PerformThreadSwitch` | src/os/arch/arm/cortex.c:162-228 | registers reloaded if a process changes, stack region always, and the next thread current |
| `Frames.PushAligns` | src/os/arch/arm/cortex.c:303-334 | for every word-aligned frame and argument count the pushed frame is 8-byte aligned and below the arguments |
| `Frames.PopFindsFrame` | src/os/arch/arm/cortex.c:358-371 | popping finds the frame pushed from whatever the callee did as long as it kept the alignment bit; the caller's bit is kept, the other flags are the callee's, nothing else changes |
| `Frames.PopUndoesPush` | src/os/arch/arm/cortex.c:303-371 | pop after push gives back the frame and all memory but the pushed xPSR |
| `Frames.ArgsBetweenFrames` | src/os/arch/arm/cortex.c:64-95 | stack arguments of the pushed frame are the words right below the caller's frame, padded or not |
| `Frames.SystemCallArgs` | src/os/arch/arm/cortex.c:64-95 | stack arguments of a system call lie at the stack pointer it was made with |
| `Frames.ReturnUndoesEntry` | src/os/arch/arm/cortex.c:255-279 | an exception return restores the stack pointer of the entry as long as the alignment bit is kept |
| `Frames.SplitSet` | src/os/arch/arm/cortex.c:324 | setting bit 9 of a 32-bit word, seen on the split word |
| `Frames.SplitClear` | src/os/arch/arm/cortex.c:330 | clearing bit 9 of a 32-bit word, seen on the split word |
| `Frames.SplitInjective` | src/os/arch/arm/cortex.c:362-368 | nothing of a word is lost by splitting it |
| `Frames.SplitMerge` | src/os/arch/arm/cortex.c:367-368 | the masking of the source is bit 9 of one word with the other bits of the other |
| `FrameRuns.CalleeSees` | src/os/arch/arm/rpc.c:65-92 | the called method starts with an aligned stack right below the caller's frame, the service and three arguments in registers, the fifth on top, and the caller's memory as it was |
| `FrameRuns.ReturnsToCaller` | src/os/arch/arm/rpc.c:122-130 | the return lands on the caller's frame, restores its stack pointer, hands over the value and keeps its other registers |
| `FrameRuns.RpcRestores` | src/os/arch/arm/rpc.c:35-193 | one call around a balanced method restores stack pointer and memory above it |
| `FrameRuns.NestedCallsRestore` | src/os/arch/arm/rpc.c:35-193 | properly nested calls of every depth and shape give every caller its stack pointer back and leave the memory above it alone |
| `FrameService.ThreadStack.GetExceptionArgAddr` | src/os/arch/arm/cortex.c:64-95 | the address of the argument, by the alignment bit |
| `FrameService.ThreadStack.PushExceptionFrame` | src/os/arch/arm/cortex.c:303-334 | the stack in place becomes that of the push, only the new xPSR written |
| `FrameService.ThreadStack.ShimExceptionFrame` | src/os/arch/arm/cortex.c:336-356 | a copy of the frame with its own alignment bit, nothing else written |
| `FrameService.ThreadStack.PopExceptionFrame` | src/os/arch/arm/cortex.c:358-371 | the stack in place becomes that of the pop |
| `FrameService.ThreadStack.RpcCall` | src/os/arch/arm/rpc.c:65-92 | the stack in place becomes that of the call frame, and PSP its address |
| `FrameService.ThreadStack.RpcReturn` | src/os/arch/arm/rpc.c:122-189 | the stack in place becomes that of the return, and PSP the caller's frame |
| `Regions.AlignmentIsPower` | ld/genlink-cmsis.py:649-656 | the alignment of a non-empty section is a power of two of at least 256, larger than the section |
| `Regions.OneBlock` | ld/genlink-cmsis.py:608-618 | an empty section gets an empty range, any other exactly one naturally aligned block that contains it |
| `Regions.AcceptedIff` | src/os/arch/arm/mpu.c:221-357 | for every size whose shifts are defined, accepted exactly: valid class, and empty or a power of two or one and a half of it with the base a multiple of half that power |
| `Regions.OddSizesRefused` | src/os/arch/arm/mpu.c:247-330 | the branch for other sizes never accepts |
| `Regions.DecodesToBlock` | src/os/arch/arm/mpu.c:341-355 | the registers decode to the block of the power of two around the base, with the class's access |
| `Regions.ExactIff` | src/os/arch/arm/mpu.c:221-357 | the decoded range is the one asked for exactly when the size is a power of two and divides the base |
| `Regions.HalfAlignedIsAccepted` | src/os/arch/arm/mpu.c:333-338 | base 32, size 64 is accepted and opens addresses 0 to 63 |
| `Regions.OneAndAHalfIsAccepted` | src/os/arch/arm/mpu.c:247-355 | base 0, size 96 is accepted and opens addresses 0 to 63 |
| `Regions.LegalSizeIff` | src/os/arch/arm/mpu.c:341-355 | the size field of an accepted region is one the architecture defines exactly when the region has at least 32 bytes |
| `Regions.SixteenBytesAreAccepted` | src/os/arch/arm/mpu.c:333-355 | base 0, size 16 is accepted with size field 3, which the architecture reserves |
| `Regions.LaidOutIsExact` | ld/genlink-cmsis.py:608-656 | what the linker tool lays out is accepted and decodes to exactly its start and end, for every section in the address space |
| `Regions.ConfigureRegion` | src/os/arch/arm/mpu.c:221-357 | the code with its locals computes that outcome |
| `Regions.LimitIsExact` | src/os/arch/arm/mpu.c:362-405 | ARMv8-M accepts exactly whole 32-byte units inside the address space and decodes them exactly, with the class's access and attributes |
| `Regions.LaidOutIsExactLimit` | src/os/arch/arm/mpu.c:362-405 | the same for what the linker tool lays out |
| `Lexer.LexingIsLossless` | ld/genlink-cmsis.py:791-983 | for every text the joined token values are the text, and no token is empty |
| `TokenShapes.FirstIsToken` | ld/genlink-cmsis.py:791-983 | every token has exactly the characters of its kind (names, numbers, strings, operators, text) and goes on as long as they do |
| `TokenShapes.NumberStep` | ld/genlink-cmsis.py:915-930 | a character after a number goes on with it, turns it into text, or ends it before |
| `TokenShapes.TokensHaveShape` | ld/genlink-cmsis.py:1092-1100 | so for every token of every text |
| `Lexer.Stream.Read` | ld/genlink-cmsis.py:90-94 | the first character still to be read, put-back ones first |
| `Lexer.Stream.UndoRead` | ld/genlink-cmsis.py:96-97 | the character is the next to be read |
| `Lexer.NextToken` | ld/genlink-cmsis.py:791-983 | the loop with its put-back returns the first token and leaves exactly the rest |
| `Lexer.Parse` | ld/genlink-cmsis.py:1092-1100 | all tokens of the text, which joined give the text |
| `Merger.NameStepKeeps` | ld/genlink-cmsis.py:999-1083 | whichever branch a token takes, output plus pending text grow by exactly its value |
| `Merger.MergeNamesKeeps` | ld/genlink-cmsis.py:985-1090 | the merge keeps the text but for one pending suffix |
| `Merger.MergeCommentsKeeps` | ld/genlink-cmsis.py:1110-1157 | the comment merge keeps the text but for one pending suffix |
| `Merger.ScriptAndPending` | ld/genlink-cmsis.py:1106-1157 | the joined script, the pending comment and the pending name are the text |
| `Merger.ScriptIsTextIff` | ld/genlink-cmsis.py:1106-1157 | parse and join is the identity on a text exactly when neither merge is in the middle of something at its end |
| `Merger.MergeSymbols` | ld/genlink-cmsis.py:985-1090 | the loop computes the name merge |
| `Merger.MergeScript` | ld/genlink-cmsis.py:1110-1157 | both loops compute the script's tokens |
| `MergedNames.SectionIsMerged` | ld/genlink-cmsis.py:1022-1047 | a dot followed by names, numbers, stars and single dots becomes one section name before the token that ends it |
| `MergedNames.FileIsMerged` | ld/genlink-cmsis.py:1048-1069 | a slash, or a name and a dot, slash or dash, with what follows becomes one file name, and /DISCARD/ a section name |
| `MergedNames.PhrasesAreMerged` | ld/genlink-cmsis.py:985-1090 | every run of complete section names, file names, words, lone dots, stars, fill markers and other tokens, in any order and number, is merged phrase by phrase with nothing carried over |
| `MergedNames.BlockCommentIsMerged` | ld/genlink-cmsis.py:1126-1145 | a block comment becomes one comment token, whatever is inside |
| `ScriptText.TokenMarks` | ld/genlink-cmsis.py:955-965 | a token carries exactly the comment marks of its characters |
| `ScriptText.CommentStatus` | ld/genlink-cmsis.py:1110-1157 | lexer and both mergers leave a comment open exactly when one left-to-right scan of the characters does |
| `ScriptText.NewlineLeavesNoName` | ld/genlink-cmsis.py:999-1083 | no name is pending after a text that ends in a newline |
| `ScriptText.SurvivesIff` | ld/genlink-cmsis.py:1092-1157 | a text that ends in a newline is given back exactly when that scan leaves no comment open |
| `ScriptText.NoCommentSurvives` | ld/genlink-cmsis.py:1092-1157 | a text that ends in a newline and has no comment opening is given back |
| `ScriptText.LineCommentIsLost` | ld/genlink-cmsis.py:1146-1152 | a two-line text whose first line is a comment is not given back |
| `ScriptText.QuotedCommentIsLost` | ld/genlink-cmsis.py:878-880 | a closed comment with one quote in it is not given back |

## Left out

- os_thread_migrate and inter-processor synchronisation: unfinished by the source's own comments.
- isr_kill, which overrides the current thread outside the switch protocol.
- The waking loop of os_initialize_waitable_object.
- Sched.Scheduler.ThreadJoin: requires that a thread which exists has finished; the other branch blocks the caller on an object of its own, and no kernel operation of the model ends that wait (`Sched.KillWakesNobody`).
- Priority inheritance (the flag of os_wait_for_object); the futex is modelled with its waits and notifications only.
- The verification asserts of txn.c, which watch the protocol that `Txn` proves.
- Sleeps and periodic timers in runs of waits with a timeout: `TimedWaits` has timeouts only, and `SleepRuns` takes the sleeping threads as a set.
- TimerService.SleeperTable.RunTimer: requires a cursor inside the queue and a tick whose loop is known to end: one-shot timers only; or no deadline beyond the wrap; or a tick across the wrap with intervals no longer than the time it leaves out. For a tick before the wrap and a deadline behind it `Timer.DueAheadOfTimeIff` says what goes wrong.
- TimerRuns.OneShotRuns: assumes pairwise distinct resume times, because os_find_timer_queue never moves past an entry with an equal time and then does not end.
- TimerRuns.ApplyKeeps: assumes that a tick finds its cursor inside the queue, which the source asserts; `TimerTable.DequeueKeepsCursorInsideIff` says which removals break it.
- TimerService.SleeperTable.FindTimerQueue: requires that the entry read is in the array and that the lookup ends, for the same reason; the loop of the source then makes one turn, which is what the method does.
- TimerService.SleeperTable.DoSetTimedEvent: requires that a used slot has an entry at its time, which `TimerRuns.OneShotRuns` proves of one-shot runs, and room in the queue for a new one; otherwise the source takes out an entry behind the last.
- TimerService.SleeperTable.SetTimedEvent: requires the same of the slot found, and that the search for it ends.
- TimerService.SleeperTable.CancelTimedEvent: requires that the search for the slot and the lookup of its entry end.
- Notify.Notifications.Wait: requires room in the waiter array when the caller blocks, which `WaiterRuns.ListNeverOverflows` proves of every run that kills no waiting thread and `WaiterOverflow.WaitOverflows` shows to fail otherwise.
- Notify.Notifications.NotifyThread: does not cancel the timer of the woken thread; `TimedWaits` does, on the tables of both.
- NotifyRuns.StepKeepsInv: assumes that no 32-bit count of pending notifications wraps; `PendingTable.CountWraps` shows what happens when one does, and `PendingTable.QueueCounts` that nothing else breaks the counters.
- KernelRuns.OneRunningThread: assumes the same.
- WaiterRuns.KilledWaiterRevives: its last step is that of a build without assertions, as the row says.
- Notifications of a futex's address by anybody but the thread that unlocks it.
- Notify.Notifications.Notify: requires that the search in the pending table ends when a notification is queued, by `Algo.SearchEndsIff` the exact condition.
- TimedWaits.WokenHasNoTimeout: assumes pairwise distinct resume times, as `TimerRuns.OneShotRuns` does.
- NotifyRuns.NeverPendingAndWaitedFor: assumes that no probe path is cut, which is exactly what removal can do.
- StackRuns.StacksNeverLeak: assumes no aborted commit inside the stack search, for the reason `Stacks.MarksItsStackIff` gives.
- Protection.RegistersAgree: assumes at most seven nested calls, for the reason `Protection.PushStaysInsideIff` gives, and that no system call comes between a requested switch and the switch, which the processor's exception priorities see to.
- FPU frames, the RPC canary, signal delivery and PSP sanitising in the frame code.
- Stack overflow: addresses on a thread's stack are not bounded below in `Frames` and `FrameRuns`.
- Regions.Configure: excludes sizes of 1, 5 and 7 bytes, for which a shift of the source is by a negative amount.
- Regions.ConfigureRegion: excludes the same three sizes.
- Regions.AcceptedIff: excludes the same three sizes.
- Access classes beyond the bits that a region's registers carry, memory attributes, and the MPU enable sequence.
- The rest of the linker tool: section placement, map file evaluation, and the sharing of token objects between lists.
- Assembly, CSR, NVIC and SysTick access, the Linux port, timing providers, tracing, static tables, system call stubs.

# CREST kernel: a verified model

CREST is a small preemptive real-time kernel for Cortex-M4. This project models, in Dafny, its scheduler, its
SVC-to-worker pipeline, its semaphores, mutexes and queues, its heap, its handle table, its stack placement and its
formatter, and proves what they promise: for single operations against the C code's branches, and for whole runs.

## How the model is built

**The kernel core has two layers.** `Kernel.Kernel` is a class with the statics and TCB columns of the C code: lists are
head pointers and links, `wait_next` is one column shared by all wait lists, the work ring is an array with two indices,
a queue is a ring of bytes.
Each method is one C function or critical section and is proved equal to a function of module `CoreState` on the value
`Abs()`, where lists are sequences. `Transitions` builds the transition system from the same functions: every critical
section and every whole exception handler is one step, every task has a program counter, and ticks, context switches,
interrupt gives and traps may come between any two steps. `Runs`, `Timers`, `Fairness`, `Outcomes`, `Results` (what calls
return), `Handover` (who waits and who is released) and `Limits` (how long waits and sleeps last) state theorems about every run from boot, `Witnesses` gives concrete runs, and `Startup` creates the tasks of `src/main.c` with class `Kernel` and
arrives at the state in which these runs start. The run theorems have one task per created TCB; `Spare` shows that the kernel
with its whole pool of TCBs has the same runs.

**What an observer may conclude** is kept apart from what the kernel stores. Each step emits observations (a call was
issued, a unit was taken or given, a result was stored, ...). `Ledgers` reads them, and only them, into a ledger: the
protocol phase of each task's call, semaphore balances, the tasks told that they hold a mutex, the items pushed and popped.
The theorems relate the kernel's data to that ledger.

**One inductive invariant** (`Structure`, `Places`, `Books`, combined as `Serving.Inv`) carries all of it. Its centre is one place
per task: awake, in the ring, at the worker, on one wait list, popped and being handed over, asleep, or asleep for ever.

**The heap** is a sequence of blocks in `Blocks`, where a heap without adjacent free blocks is shown to be determined by its live
blocks, and an array of 32-bit words with in-band headers in `HeapMemory`, `HeapSteps`, `HeapWalk` and `Allocator`. The methods `Malloc` and `Free`
of class `Allocator.Heap` walk and rewrite the links as `kernel/alloc.c` does and are proved to perform `Allocate` and `Release`.

**Integers.** Pointers, sizes, results and stored R0 are 32 bits wide and wrap explicitly wherever the C code computes
with them: `AlignUp`, `Need`, `Header`, `BufferSize`, `NextIndex`, `Offset`, `tickCount`, `RoundUp`. Generations wrap at 16 bits.

## Assumptions of the run theorems

- Handlers do not nest: no code in the repository sets exception priorities.
- A pending PendSV is taken before thread code resumes, so a task that made itself WAITING executes nothing until it is
  READY and chosen again.
- The worker is alone at priority 0, an idle task that makes no calls exists, and both are there from the start
  (`src/main.c:201-205`; `Runs.MainSystemBoots` shows that this system satisfies `Boot`, `Startup.BootDemo` that the code builds it).
- The set of tasks is fixed and no task is deleted while blocked or while it owns a mutex.
- The semaphore count does not overflow its `int`.
- A queue is created only with positive sizes whose buffer of size + 1 items takes at most 2^32 - 16 bytes: with these, and no
  others, malloc returns a whole buffer (`Transitions.Allowed`, `ByteQueue.BuildableMeans`). The code also accepts sizes above
  that; pushes then run past the buffer, and nothing is claimed of such a system (`ByteQueue.UndersizedBuffer`).
- The data of a push stand for the item-size bytes at the caller's pointer. They are fixed when the call is issued, while the code
  copies them when the call is served (`kernel/kwork.c:116`, `kernel/queue.c:79`): nobody else writes to that buffer in between.
- A primitive is named by its handle. The lookup is merged with the critical section that follows it: no code
  calls `k_obj_free`, so a handle that was found stays valid. `Transitions.Event.Continue` says which handle a creation issues;
  it may be any that is not in use.
- On a tick with several expired waiters the observations are listed by task index; the kernel's result does not
  depend on the order.

## Where the code differs from its comments and documentation

- `rr_current` holds the next candidate, not the task that ran last (`kernel/sched.c:14-19` and `docs/SCHEDULER.md:32` against
  `kernel/sched.c:150`).
- `g_priority_mask` has a bit for every non-empty list, not for lists with READY tasks (`kernel/sched.c:28`, `kernel/sched.c:88`,
  `kernel/sched.c:114-116`).
- Mutex and semaphore waiters are served last in, first out; queue waiters first in, first out.
- A mutex that its owner locks again is free after one unlock.
- Push and pop do not block a user-mode caller (`kernel/include/queue.h:10-18` against `kernel/kwork.c:113-127`, which passes timeout 0):
  such a call is settled when it is dispatched (`Outcomes.UserQueueCallsNeverWait`, `Outcomes.UserQueueCallsAreSettled`).
- A handle is not a table index (`kernel/kobject.c:8`): it carries a generation in its upper half.

## Where a natural property fails, and exactly when it holds

- `malloc(n)` returns a block of at least n usable bytes if and only if n <= 2^32 - 16; above that the size wraps and a
  minimal block is returned (`Allocator.RequestFitsIff`, `Allocator.RequestWrapsAt`, `Allocator.PayloadContract`).
- A user-mode `task_delay(n)` can end if and only if n > 0 (`Timers.DelayReturnsIff`); a privileged one returns at once for n = 0.
  `Witnesses.ZeroDelayIsReached` is a run of the demo system in which a task sleeps for ever.
- A context switch resumes a blocked task if and only if no task is READY (`Runs.SwitchResumesBlockedIffNothingReady`); with an
  idle task it never does (`Runs.SwitchRunsTopPriority`). `Witnesses.WaitingTaskRunsWithoutIdle` is a system without one where it does.
- A queue call that had to wait fails if and only if it times out, which takes a time limit, or the queue is full (empty, for a
  pop) again in the state in which it makes its one further attempt (`Outcomes.WaitedQueueCallFailsIff`).
  `Witnesses.WaitForeverPopFails` is a run of the demo system in which a pop with WAIT_FOREVER is woken and returns -1.
- The first frame of a task lies inside its stack if and only if more than 32 bytes were asked for (`TaskStack.PlaceStack`).
- `next_power_of_two(v)` is at least v if and only if v <= 2^31 (`TaskStack.RoundUpIsLeast`).
- The buffer of a created queue holds its size + 1 items if and only if they are at most 2^32 - 16 bytes (`ByteQueue.CreateQueue`),
  and exactly then every push and pop stays inside it (`ByteQueue.SlotsFitIff`). `ByteQueue.UndersizedBuffer` creates a queue for
  0xFFFFFFF0 items of one byte on a heap of 64 bytes.
- A freed handle is accepted again if and only if its slot was allocated a positive multiple of 65535 times since and is in
  use by an object of the kind asked for (`KObject.FreedHandleIsAccepted`, `KObject.FreedHandleRecurs`).

## Model

| member | source | states |
|---|---|---|
| Runs.CallsCompleteExactlyOnce | kernel/kwork.c:92-206 | in every run each call is settled once, by a transfer, refusal, time-out, creation or by being carried out, and gets one result, equal to that; the saved R0 is the last result stored; a task back in its own code has been answered |
| Runs.BlockedTasksAreInOnePlace | kernel/kwork.c:49-80 | in every reachable state each task but the worker is in exactly one place, read off the kernel's data |
| Runs.WaitListsAreDisjoint | kernel/sched.c:194-245 | wait lists share no member and repeat none; a member with a time limit is WAITING and marked with its own list, one without is unmarked; a task marked with a list is on it, with a time limit |
| Runs.WorkRingNeverOverflows | kernel/include/kwork.h:22-25 | in every run the ring stays below its capacity, no trap fails, and items leave the ring in the order they were posted |
| Runs.NoLostWakeup | kernel/kwork.c:217-232 | in every reachable state a WAITING worker has an empty ring, and no other task runs unless the worker is WAITING |
| Runs.SemaphoresConserveUnits | kernel/semaphore.c:89-131 | in every run count = initial + gives - takes, transfers included; it is never negative and positive only without waiters |
| Runs.MutexesExclude | kernel/mutex.c:86-166 | in every run the tasks told that they hold a mutex and that have not unlocked are at most its owner; waiters imply an owner, who does not wait |
| Runs.QueuesAreFifo | kernel/queue.c:72-184 | in every run the popped items are a prefix of the pushed ones and the rest is queued, never more items than the capacity, each of the item size, in a buffer that malloc can grant |
| Outcomes.RefusalsAreExact | kernel/kwork.c:113-165 | in every reachable state a step refuses a call exactly when it serves one that cannot be satisfied now and has an invalid handle, a timeout of 0, or is a queue call at the worker; it expires a call exactly when it is a tick and the waiter has one tick left |
| Outcomes.AnswersAreTraced | kernel/kwork.c:92-206 | in every run each answer goes back to the issue of its call and to the one observation in between that settled it with that result |
| Results.PlainAnswersAreExact | kernel/kwork.c:92-206 | in every run each answer to a creation is the handle of the object that the one serving event made, which is as asked for, and -1 exactly when it made none; a give or unlock at the worker answers -1 exactly when the handle was invalid when it was served, a delay and a write 0, an unknown call -1 |
| Results.CallsAreCarriedOut | kernel/kwork.c:92-206 | in every reachable state a step carries out, or makes an object for, exactly the call that the running thread serves |
| Outcomes.FailuresAreJustified | kernel/kwork.c:113-165 | in every run each -1 that reaches a caller goes back to one event that let the call expire or served it when it had to fail |
| Outcomes.WaitedQueueCallFailsIff | kernel/queue.c:118-123 | in every run a queue call that waited, with any timeout, returns -1 exactly when its task goes on TIMED_OUT, which takes a time limit, or the queue is full (empty) in the state of its one second attempt |
| Outcomes.WaitedAcquireReturns | kernel/semaphore.c:67-72 | in every run a semaphore or mutex call that waited returns -1 exactly when its task is TIMED_OUT, which takes a time limit, and the mark is cleared |
| Handover.AttemptsAreExact | kernel/mutex.c:86-115 | in every reachable state an attempt succeeds exactly when it can be satisfied, fails exactly when it cannot and may not wait, and otherwise puts its caller on the list of what it asked for, with its time limit |
| Handover.ListsChangeExactly | kernel/queue.c:72-184 | in every reachable state, between ticks, a wait list loses its head exactly when what it waits for is freed, gains exactly the caller that has to wait, in front for semaphores and mutexes, behind for queues, and is else unchanged |
| Handover.TheFirstIsReleased | kernel/queue.c:141-150 | in every run a pop releases the first sender, a push the first receiver, a give the first taker, which gets the unit, an unlock the first locker, which becomes the owner; no other list changes and the next step of the same thread makes the released task READY |
| Limits.WaitsStartWithTheirLimit | kernel/semaphore.c:103-111 | in every run a task that a step puts on a wait list has issued a call that waits there, and has as many ticks to go as that call allows |
| Limits.WaitsLastTheirLimit | kernel/sched.c:194-222 | in every run a task that nobody pops waits from the step that puts it on a list through fewer ticks than its call allows and is READY and TIMED_OUT after exactly as many; without a time limit it waits |
| Limits.UserDelayLasts | kernel/kwork.c:98-111 | in every run a user-mode delay of n ticks ends in a sleep that lasts exactly n ticks, or for ever if n is 0 |
| Limits.PrivilegedDelayLasts | kernel/task.c:174-182 | in every run a privileged delay of n ticks is a sleep of exactly n ticks, or none if n is 0 |
| Outcomes.UserQueueCallsNeverWait | kernel/kwork.c:113-127 | in every reachable state no task blocked by SVC is on a queue's list: those on it made a privileged call |
| Outcomes.UserQueueCallsAreSettled | kernel/kwork.c:113-127 | the step that dispatches a user-mode queue call settles it, with -1 exactly when the queue is full (empty) or its handle invalid |
| Witnesses.WaitForeverPopFails | kernel/queue.c:172-182 | from boot of the demo system a pop with WAIT_FOREVER blocks, is woken by a push and returns -1 |
| Witnesses.ZeroDelayIsReached | kernel/kwork.c:98-111 | from boot of the demo system the worker is about to put a task to sleep for 0 ticks, and no continuation makes that task READY |
| Witnesses.WaitingTaskRunsWithoutIdle | arch/arm/cortex-m4/context_switch.c:28-32 | without an idle task a switch makes the WAITING worker RUNNING |
| Runs.SwitchRunsTopPriority | arch/arm/cortex-m4/context_switch.c:13-49 | in every run a switch leaves exactly the current task RUNNING, a READY or preempted task of the smallest priority number |
| Runs.SwitchResumesBlockedIffNothingReady | arch/arm/cortex-m4/context_switch.c:28-32 | a switch turns a WAITING current task into the RUNNING one exactly when no listed task is READY |
| Runs.EveryStepIsDefined | kernel/kwork.c:92-232 | in every run all task indices, lists and cursors that a step follows are in range |
| Runs.CallersAreOnNoList | kernel/mutex.c:103-113 | in every run the task that a blocking call appends to a wait list is on none |
| Runs.PlayKeeps | kernel/kwork.c:210-233 | the invariant holds after any run from any state that satisfies it |
| Runs.MainSystemBoots | src/main.c:201-205 | the demo application's five tasks satisfy the boot condition of the run theorems |
| Invariant.StepKeeps | arch/arm/cortex-m4/syscall.c:47-85 | every event (tick, switch, interrupt give, trap, privileged call, thread step) keeps the invariant |
| Invariant.AdvanceKeeps | kernel/kwork.c:210-233 | every step of the running thread, worker or caller, keeps the invariant |
| Serving.ServeKeeps | kernel/kwork.c:92-206 | serving any request, for the worker or for a task's own call, keeps the invariant |
| StructureSteps.TickKeeps | kernel/sched.c:224-245 | a tick keeps every task in one place and all lists consistent |
| Places.RingHasRoom | kernel/include/kwork.h:22-25 | items of distinct callers in the ring leave room for one more |
| Timers.SleepersWakeOnTheExactTick | kernel/sched.c:231-241 | in any reachable state a sleeper with d ticks to go sleeps through every run with fewer ticks and is READY after the d-th, with no other wake-up |
| Timers.WaitersExpireOnTheExactTick | kernel/sched.c:194-222 | in any reachable state a waiter with time limit d that nobody pops waits through fewer ticks and is READY and TIMED_OUT after the d-th |
| Timers.DelayReturnsIff | kernel/kwork.c:98-111 | after the worker served a user-mode delay some run makes the caller READY exactly when the delay is not zero |
| Timers.StrandedForEver | kernel/kwork.c:106-110 | a task asleep with zero ticks is WAITING after every run |
| Timers.ParkedTasksKeep | kernel/sched.c:194-245 | between ticks no step changes a sleeping or waiting task unless it pops the task from its list |
| Fairness.StepChanges | kernel/queue.c:100-111 | between ticks every step changes a wait list only by taking its head or adding one task, in front for semaphores and mutexes, behind for queues |
| Fairness.TickChanges | kernel/sched.c:202-215 | a tick takes exactly the expired waiters off each list and leaves the others in their order |
| Fairness.QueueWaitersAreNotOvertaken | kernel/queue.c:82-90 | in any run a queue waiter stays ahead of those who came later, and no step but a tick takes a later one first |
| Sweep.TwoPassesAgeOnce | kernel/sched.c:194-245 | the two passes of a tick age every task by exactly one tick |
| KernelLinks.TwoSweepsAreATick | kernel/sched.c:224-245 | both passes together are one tick of the abstract state; expired waiters leave their lists, whose other members keep their order |
| Selection.SelectIsStrictPriority | kernel/sched.c:135-160 | nobody is chosen exactly when no listed task is READY; else a READY task of the highest such level, and only that level's cursor moves, inside its list |
| Selection.DistanceShrinks | kernel/sched.c:141-156 | choosing another task brings the cursor closer to a waiting READY task, by one place more than the walk passed |
| Selection.SelectAtLevel | kernel/sched.c:141-156 | from any start above the top level with a READY task, the choice is the first READY task of that level's walk and its cursor moves behind it |
| Fairness.RoundRobinBoundedWaiting | kernel/sched.c:141-156 | from any reachable state, a task that is READY at every switch that chooses from its priority becomes current at one of the next d + 1 of them, d being its ring distance from the cursor |
| Fairness.RoundRobinServesEveryone | kernel/sched.c:141-156 | of n switches that choose from a level of n tasks one chooses a task that is READY at all of them |
| Kernel.Kernel.constructor | kernel/task.c:47-53 | all lists, the ring and the cursors start empty; the pool holds MAX_TASKS zeroed TCBs, none of them in use |
| Kernel.Kernel.GetFreeTcb | kernel/task.c:18-31 | the lowest TCB that is not in use is marked used; none exactly when all are |
| Kernel.Kernel.FreeTcb | kernel/task.c:33-41 | exactly that TCB is no longer in use, out-of-range numbers change nothing; the kernel stays valid exactly when the TCB is on no priority list |
| Kernel.Kernel.InitTcb | kernel/task.c:136-148 | the TCB becomes a fresh READY task of its priority, with its argument in the saved R0 |
| Kernel.Kernel.TaskCreate | kernel/task.c:104-151 | a task is created exactly when priority and stack size are in range, a TCB is free and malloc finds a block for the stack; it gets the lowest free TCB and that block and heads its list; a failed creation changes neither kernel nor heap |
| Kernel.Kernel.TaskDelete | kernel/task.c:153-163 | the task leaves its priority list, no cursor is left on it, its stack is released and its TCB is free again |
| Startup.DeleteUndoesCreate | kernel/task.c:104-163 | deleting a task restores the priority lists, the cursors and the heap that its creation found |
| Kernel.Kernel.StartFirstTask | arch/arm/cortex-m4/port.c:62-75 | a current task is made RUNNING as it is; otherwise the start is the switch of the transition system, and fails exactly when no task is READY |
| Startup.BootDemo | src/main.c:193-213 | from zeroed statics and a heap with room for five stacks, creating the five tasks and starting the first gives exactly the core of the system that the run theorems call MainSystem |
| Startup.LargeHeapHasRoom | src/main.c:201-205 | a heap that ends in a free block of n times 1288 bytes has room for the stacks of n more tasks |
| Startup.DemoRunsAreMainSystems | src/main.c:193-213 | what BootDemo leaves behind, with its whole pool, has exactly the runs of MainSystem |
| Spare.SwitchIgnoresSpare | kernel/sched.c:135-160 | a switch neither sees nor touches TCBs that were never handed out |
| Spare.TickIgnoresSpare | kernel/sched.c:224-245 | nor does a tick |
| Spare.StepIgnoresSpare | kernel/task.c:15-16 | nor does any event: it is enabled, changes the created tasks and is observed as if the others were not there |
| Spare.RunsIgnoreSpare | kernel/task.c:15-16 | from boot the kernel with its whole pool has exactly the runs of the machine of the created tasks, with the same observations |
| Kernel.Kernel.WakeTask | kernel/sched.c:71-81 | the result goes to the saved R0 of a task blocked by SVC only; the task is READY |
| Kernel.Kernel.Sleep | kernel/sched.c:52-58 | the task waits with the given ticks |
| Kernel.Kernel.AddTask | kernel/sched.c:83-91 | the task becomes the head of its priority list; the other lists stay and cursors stay inside their lists |
| Kernel.Kernel.RemoveTask | kernel/sched.c:93-119 | the task leaves its priority list, no cursor is left on it and the mask bit follows the list |
| Kernel.Kernel.Unlink | kernel/sched.c:103-116 | the walk unlinks exactly that task and keeps the other lists |
| Kernel.LinkTo | kernel/sched.c:103-111 | the walk finds the task exactly when it is on the list, and then the link that points to it |
| Kernel.Kernel.WalkLevel | kernel/sched.c:145-155 | the circular walk ends and finds the first READY task from the cursor; the cursor moves behind it |
| Kernel.Kernel.GetNext | kernel/sched.c:135-160 | the loop over levels computes Select |
| Kernel.Kernel.Preempt | arch/arm/cortex-m4/context_switch.c:15-21 | a RUNNING current task becomes READY, a blocked one is left alone |
| Kernel.Kernel.SwitchContext | arch/arm/cortex-m4/context_switch.c:13-49 | the switch on pointers is the switch of the transition system |
| Kernel.Kernel.KworkPush | kernel/kwork.c:49-70 | the item is appended and a WAITING worker becomes READY, or the ring is full and nothing changes |
| Kernel.Kernel.KworkPop | kernel/kwork.c:74-80 | the oldest item leaves the ring, if there is one |
| Kernel.Kernel.SvcHandler | arch/arm/cortex-m4/syscall.c:64-79 | the caller is blocked and its item queued, or it is released with -1 |
| CoreState.TrapQueuesOrFails | arch/arm/cortex-m4/syscall.c:64-79 | a trap queues its item, blocks the caller and wakes a waiting worker; with 15 items queued it changes nothing but that the caller is READY with -1 |
| Kernel.Kernel.PopFirst | kernel/mutex.c:126-130 | the first waiter leaves the list with its time limit and mark cleared |
| Kernel.Kernel.BlockFront | kernel/semaphore.c:103-111 | the task joins the front of the list with its time limit and mark |
| Kernel.Kernel.BlockBack | kernel/queue.c:100-118 | the task joins the end of the list with its time limit and mark |
| Kernel.Kernel.Append | kernel/queue.c:104-111 | the walk to the end links the task in behind the last waiter and touches no other list |
| Kernel.Kernel.SemTake | kernel/semaphore.c:89-114 | a unit is taken, the take is denied, or the caller waits |
| Kernel.Kernel.SemGive | kernel/semaphore.c:116-131 | the first waiter is popped, or the count grows |
| Kernel.Kernel.MutexLock | kernel/mutex.c:86-115 | ownership is taken or confirmed, the lock is denied, or the caller waits |
| Kernel.Kernel.MutexUnlock | kernel/mutex.c:117-166 | only the owner's unlock has an effect; ownership passes to the first waiter or to nobody |
| Kernel.Kernel.QueuePush | kernel/queue.c:72-119 | the item goes into the byte ring behind the others and a receiver is popped, the push is denied, or the caller waits |
| Kernel.Kernel.QueuePop | kernel/queue.c:131-178 | the oldest item comes out of the byte ring as it went in and a sender is popped, the pop is denied, or the caller waits |
| Kernel.Kernel.CreateSem | kernel/semaphore.c:15-24 | a semaphore without waiters and with the initial count, or 0 if that is negative |
| Kernel.Kernel.CreateMutex | kernel/mutex.c:15-24 | a free mutex without waiters |
| Kernel.Kernel.CreateQueue | kernel/queue.c:29-35 | on the block that malloc returned, the queue's fields are set; the kernel stays valid exactly when the block is as large as requested, and then has an empty queue of those sizes without waiters |
| Kernel.Kernel.RecordWorker | kernel/kwork.c:214-215 | the current task is the worker |
| Kernel.Kernel.BlockWorker | kernel/kwork.c:230 | the worker waits |
| Kernel.Kernel.PrepareDelay | kernel/kwork.c:106-108 | 0 is stored as the result ahead of the sleep and SVC_BLOCKED is cleared |
| Kernel.Kernel.TakeTimedOut | kernel/semaphore.c:67-72 | TIMED_OUT is reported and cleared |
| Kernel.Kernel.AgeSleepers | kernel/sched.c:231-241 | the first pass ages exactly the listed sleeping tasks, once each |
| Kernel.Kernel.SyncTickAll | kernel/sched.c:194-222 | the second pass ages exactly the listed timed waiters and takes the expired ones off their lists |
| Kernel.Kernel.Splice | kernel/sched.c:204-211 | a task is unlinked from the middle of its wait list; the others keep their order |
| Kernel.Kernel.ScheduleTick | kernel/sched.c:224-245 | the tick on pointers is the tick of the transition system; the counter wraps at 2^32 |
| Rings.StoreAppends | kernel/kwork.c:60-61 | storing at the tail of a ring appends to its contents |
| Rings.AdvanceDrops | kernel/kwork.c:77-78 | advancing the head drops the oldest element |
| Rings.FullAndEmpty | kernel/kwork.c:53-54 | the index tests find exactly the full and the empty ring |
| Chains.LinkedPush | kernel/mutex.c:104-105 | pushing on one wait list keeps all lists that share the links disjoint and acyclic |
| Chains.LinkedPop | kernel/mutex.c:126-128 | popping keeps them so |
| Chains.LinkedAppend | kernel/queue.c:104-111 | appending keeps them so |
| Chains.LinkedUnlink | kernel/sched.c:205-211 | unlinking from the middle keeps them so |
| Blocks.CanonicalIsUnique | kernel/alloc.c:123-154 | a heap without adjacent free blocks is determined by its live blocks, free list included |
| Blocks.AllocateIsFirstFit | kernel/alloc.c:70-99 | malloc takes the lowest free block of at least the size, of which the requested size or 8 bytes more become live at its start, fails exactly when there is none, and keeps the tiling and coalescing |
| Blocks.ReleaseRemoves | kernel/alloc.c:123-154 | free makes exactly its block not live and keeps the tiling and coalescing |
| Blocks.ReleasesCommute | kernel/alloc.c:123-154 | the order of two frees leaves no trace |
| Blocks.ReleaseUndoesAllocate | kernel/alloc.c:70-154 | free after malloc restores the heap exactly |
| Blocks.FreeBlocksAreTheGaps | kernel/alloc.c:123-154 | the free blocks are exactly the maximal gaps between live blocks |
| Blocks.HistoriesLeaveNoTrace | kernel/alloc.c:59-157 | histories of malloc and free that leave the same blocks live leave the same heap; leaving none restores the single initial block |
| Allocator.RequestFitsIff | kernel/alloc.c:30-33 | the block size holds the request exactly when the request is at most 2^32 - 16; it then exceeds request and header by less than 8 |
| Allocator.RequestWrapsAt | kernel/alloc.c:63-65 | a request of 2^32 - 15 bytes gets 8 |
| Allocator.PayloadContract | kernel/alloc.c:70-94 | the payload is 8-aligned, in the heap and apart from every live block; it holds the request exactly when that is at most 2^32 - 16 |
| Allocator.Heap.HeapInit | kernel/alloc.c:45-57 | the memory is laid out as one free block, or none |
| Allocator.Heap.Malloc | kernel/alloc.c:59-100 | the walk and the header writes perform Allocate, return the payload address or NULL, and change no word of a live payload |
| Allocator.Heap.Take | kernel/alloc.c:76-91 | splitting, or using the block whole, lays the memory out as the carved blocks |
| Allocator.Heap.Free | kernel/alloc.c:102-157 | pointers that fail the checks change nothing; a live payload pointer passes them, its block is released, and no word of a payload changes |
| Allocator.Heap.Insert | kernel/alloc.c:123-136 | the walk links the block in by address |
| Allocator.Heap.JoinWithNext | kernel/alloc.c:138-145 | the block takes over a free next block, exactly when there is one |
| Allocator.Heap.JoinWithPrev | kernel/alloc.c:147-154 | the free block before takes over the freed one, exactly when they are neighbours |
| Allocator.Heap.Store | kernel/alloc.c:20-23 | writing to a live payload cannot disturb the heap |
| HeapMemory.HeadersAreDetermined | kernel/alloc.c:20-23 | two memories laid out as the same blocks agree on the list head and on every header word in use |
| HeapWalk.NextIsAdjacent | kernel/alloc.c:139-141 | the address test finds exactly a free next block |
| HeapWalk.PrevIsAdjacent | kernel/alloc.c:148-150 | the address test finds exactly a free block just before |
| HeapWalk.JoinsAreRelease | kernel/alloc.c:123-154 | marking and the two joins add up to Release |
| KObject.AllocAddsOne | kernel/kobject.c:38-58 | a new handle, never the invalid one, is added with its object; it fails exactly for NULL or a full table, changing nothing |
| KObject.HandleLayout | kernel/kobject.c:38-58 | a new handle has the index of the lowest slot not in use in its lower half and the slot's new generation, not 0, in its upper half |
| KObject.GetLooksUp | kernel/kobject.c:61-74 | the lookup finds exactly the map's object, if its kind is the one asked for |
| KObject.FreeRemovesOne | kernel/kobject.c:76-92 | exactly the handle's entry is removed; other numbers change nothing |
| KObject.GenerationsCount | kernel/kobject.c:45-46 | after any history a slot's generation is a function of its number of allocations and of its being in use |
| KObject.GenerationsRecur | kernel/kobject.c:88-89 | two allocations of a slot share a generation exactly when 65535 divides the number between them |
| KObject.IssuedHandleIsAccepted | kernel/kobject.c:61-74 | after any histories before and since, a handle is accepted exactly when its slot is in use by the kind asked for and was allocated a multiple of 65535 times since |
| KObject.FreedHandleIsAccepted | kernel/kobject.c:76-92 | after any histories before its issue, between issue and free, and since, a freed handle is accepted exactly when its slot is in use by the kind asked for and was allocated a positive multiple of 65535 times since the free |
| KObject.FreedHandleRecurs | kernel/kobject.c:38-92 | the bound is reached: a freed handle is accepted after 65535 further allocations of its slot |
| KObject.KObjects.Alloc | kernel/kobject.c:38-58 | the scan takes the lowest slot that is not in use |
| KObject.KObjects.Get | kernel/kobject.c:61-74 | the checks compute the lookup |
| KObject.KObjects.Free | kernel/kobject.c:76-92 | the slot is emptied and its generation moves on, or nothing changes |
| TaskStack.NextPowerOfTwo | kernel/task.c:86-98 | bit smearing computes RoundUp |
| TaskStack.RoundUpIsLeast | kernel/task.c:84-98 | the least power of two at least v and 32, exactly for v <= 2^31; above that 0 |
| TaskStack.SmearFills | kernel/task.c:91-95 | smearing a number over its digits turns all of them into ones |
| TaskStack.StackIsPlaced | kernel/task.c:116-129 | the stack is aligned to its size, and stack and guard lie in the allocation |
| TaskStack.StacksAreApart | kernel/task.c:116-129 | the stacks and guards of tasks with different live allocations do not overlap |
| TaskStack.StackInit | kernel/task.c:60-82 | exactly the 16 words below the top are written; what the switch and the exception return restore from them starts the task at its function with its argument in R0, in thread mode and Thumb state, all other registers 0 |
| TaskStack.PlaceStack | kernel/task.c:116-140 | the words in the allocation start the task as asked for, its first word is 0xDEADBEEF, no other word changes; the frame lies in the stack exactly when more than 32 bytes were asked for |
| Format.NumeralReadsBack | kernel/libc_stubs.c:49-62 | a numeral reads back as its number in every base |
| Format.SignedReadsBack | kernel/libc_stubs.c:91-96 | a signed conversion reads back as its number |
| Format.NumeralsFit | kernel/libc_stubs.c:52-56 | the digits of a 32-bit number fit the 32-character buffer |
| Format.Sink.EmitChar | kernel/libc_stubs.c:33-41 | the text grows by one character, which is stored while there is room |
| Format.Sink.EmitString | kernel/libc_stubs.c:43-47 | the text grows by the string, or by "(null)" |
| Format.FillDigits | kernel/libc_stubs.c:52-60 | the loop leaves the numeral in the buffer, last digit first, for every 32-bit value |
| Format.Sink.EmitUnsigned | kernel/libc_stubs.c:49-62 | the text grows by the numeral |
| Format.ConversionsConvey | kernel/libc_stubs.c:80-119 | read character by character: %u, %d and %i give the argument in base 10, %x and %X in base 16 with lower- and upper-case letters, %p 0x and lower-case base 16, without leading zeros; %c the low byte, %s the string |
| Format.DenotesOnce | kernel/libc_stubs.c:49-62 | a number is written in one way only |
| Format.Sink.Convert | kernel/libc_stubs.c:80-119 | the text grows by what the conversion should make of the argument |
| Format.EmitFormat | kernel/libc_stubs.c:70-127 | the loop emits the text of the format |
| Format.RenderShows | kernel/libc_stubs.c:64-130 | the text is what the format makes of the arguments: ordinary characters and %% themselves, each conversion its argument in order, an unknown conversion itself |
| Format.ShowsOnce | kernel/libc_stubs.c:64-130 | only one text is |
| Format.Vsnprintf | kernel/libc_stubs.c:64-130 | for every size the buffer holds as much as fits before a NUL of the one text that the format makes of the arguments, the rest of it is unchanged, and the full length is returned |
| Format.SizesAgree | kernel/libc_stubs.c:66-67 | a smaller buffer holds a prefix of what a larger one holds; large enough buffers hold the same string |
| ByteQueue.BufferIsLargeEnough | kernel/queue.c:24-46 | a non-empty buffer is requested exactly when no size is zero and neither product nor slot count wraps; then it has size + 1 items |
| ByteQueue.QueueInit | kernel/queue.c:24-49 | the buffer is allocated exactly when the sizes are good and a block fits; otherwise the heap is unchanged |
| ByteQueue.CreateQueue | kernel/queue.c:51-67 | creation succeeds exactly when the sizes are good and both blocks fit; a failed one leaves the heap as it was; the buffer holds its items exactly when they are at most 2^32 - 16 bytes |
| ByteQueue.Ring.Push | kernel/queue.c:76-81 | byte for byte, the item is appended unless the queue holds its capacity |
| ByteQueue.Ring.Pop | kernel/queue.c:135-140 | byte for byte, the oldest item is copied out unless the queue is empty |
| ByteQueue.OnlyOneSlotChanges | kernel/queue.c:79-80 | copying an item into its slot changes no other slot |
| ByteQueue.BuildableMeans | kernel/queue.c:24-46 | the sizes admitted in runs are exactly those for which a buffer is requested and a block cut for it holds it |
| ByteQueue.SlotsFitIff | kernel/queue.c:76-81 | item copies stay inside the buffer for every slot exactly when it is as large as requested |
| ByteQueue.UndersizedBuffer | kernel/queue.c:24-49 | a heap of 64 bytes on which a queue of 0xFFFFFFF0 one-byte items is created with a buffer of 16 bytes |
| ByteQueue.StoredAppends | kernel/queue.c:76-81 | copying an item to the tail slot and moving the tail appends it to the items the bytes stand for |
| ByteQueue.DroppedDrops | kernel/queue.c:135-140 | moving the head drops the oldest item, which is the bytes of the head slot |

## Left out

- `kernel/user_alloc.c`: the same allocator on other bounds; it would be a second instance of class Heap.
- `kernel/syscall_api.c`, `kernel/syscall_stubs.c`: dispatch on the privilege level, without logic of their own.
- Assembly, control registers, MPU registers, fault handlers, UART, SysTick set-up, boot code and linker scripts: hardware and I/O.
- The stack overflow check in `port_switch_context` and the saved stack pointer: the model keeps the saved R0 of each task only.
- `strncpy`, `memset`, and `memcpy` beyond what queues need.
- Creating and deleting tasks during a run: `TaskCreate`, `TaskDelete` and the stack placement are proved on their own, the runs have a fixed set of tasks. Deleting a task that waits or owns a mutex is not covered: the code does not unlink it.
- `scheduler_get_first_ready_priority`: nothing calls it for scheduling.
- Fairness among mutex or semaphore waiters: the lists are last in, first out, so there is none.
- Kernel.Kernel.WakeTask: the TCB pool is stored column by column as sequences, so that update in place of one field of one TCB is a sequence update; pointers are pool indices.
- Format.Vsnprintf: the total is an unbounded number, so nothing is said about the `int` result of a text longer than INT_MAX, where the count of the C code overflows; formats that end inside a conversion, arguments of the wrong type and negating the least int are outside the precondition; int and long are both 32 bits wide, as on this target.
- Kernel.Kernel.TaskCreate: the words written to the new stack are not part of it; `TaskStack.PlaceStack` proves them on the allocation alone.
- Allocator.Heap.Free: a pointer that passes the checks but is not a live payload is outside the precondition, because the code does not look at the allocated bit.
- Allocator.Heap.constructor: the heap's end is 8-aligned, its start is not address 0 and it has room for one block or none at all; the code checks none of this.
- TaskStack.StackBase: masking the low bits with a power of two is written as rounding down to a multiple.

# CCOS kernel: a verified model

This project models, in Dafny, the parts of the CCOS kernel and user library whose correctness
spans many functions: the scheduler, the blocking synchronisation primitives, the intrusive list,
the user-space heap, the ATA request queue, the hash map, the bitmap and PID allocator, and the
numeral printer and parser. `dafny verify dfyconfig.toml` checks everything.

## How it is organised

| files | what they hold |
|---|---|
| TaskQueues, PriorityQueue, SchedulerModel | the run queues and the scheduler's entry points as functions, and their invariants |
| SchedulerObject | the same operations as the kernel performs them, objects updated in place with the scan and swap loops, each proved to compute its function |
| SchedulerSteps, SchedulerRuns, RoundRobin | what every entry point keeps, whole runs, the time-slice guarantee, bounded waiting |
| SchedulerChoice, SchedulerOrder | which task gets the processor and what every event does to every task, said of the lists and the task table alone; first-in-first-out order of every list |
| SchedulerStarvation, SchedulerWitness | exactly which tasks starve for ever and why, and concrete runs from boot |
| RwLock, Semaphore | step systems at the grain of one atomic operation, any number of threads, every interleaving |
| RwLockCalls, SemaphoreCalls | what each call has done by the time it returns, in every interleaving and when the others stand still |
| MutexCondvar, WaitQueue | mutex and condition variable in runs that switch threads at `schedule`; the two wake-up loops |
| IntrusiveList | heap nodes whose `next` and `prev` are rewritten in place, refining sequences |
| HeapLayout, UserHeap | the allocator on bytes of memory: headers and payloads share one memory |
| AtaQueue, HashMap, Bitmap, PidAllocator, Numerals | the remaining data structures, each refining its mathematical view |

A class operation that the kernel performs in place is a method, and its postcondition ties the new
state to a function of the old one; the properties are then lemmas about that function. `hide`
statements only keep definitions out of proofs that do not need them.

## What turned out not to hold

For each of these a lemma gives the exact condition under which the code does meet the property,
and, where it takes more than one step to get there, another gives a concrete input or run.

- The priority counters do not stay exact: `prio_dequeue_task` guesses the array from the time slice
  (PriorityQueue.DequeueExactIff). So kernel/process/sched_prio.h:6 does not get the fairness it
  promises: SchedulerStarvation.YieldDoomsIff says exactly which yields are a task's last,
  CanRunIff and CanEverRunIff exactly which queued tasks can still run, and
  SchedulerWitness.StuckReachable gives a run.
- Without an idle task, blocking the last runnable task breaks the scheduler's invariant
  (SchedulerSteps.BlockKeepsIff, SchedulerWitness.LoneSleeper). `scheduler.idle` is never assigned in
  the source, so the model takes it as a parameter.
- `proc_exit` and `sched_set_policy` keep the queues right only under the conditions of
  SchedulerSteps.ExitKeepsIff and SetPolicyKeepsIff, which nothing checks, and `proc_exit` leaves
  `nr_running` right only under that of ExitTalliedIff (SchedulerWitness.LoneExit, QueuedPolicyChange).
- `rwlock_read_lock` does not look at the writers again inside the spinlock
  (RwLock.UncheckedIncrementIff, RwLock.ReadLockRaces).
- A mutex waiter that is woken and finds the mutex taken again sleeps on no list and is never woken;
  so does every condition-variable waiter beyond the 32nd of a broadcast
  (MutexCondvar.WokenWaiterIff, BroadcastLosesIff, LostForever, LostWaiterReachable). A holder that
  locks again stops everybody for ever (SelfLockIff, SelfLockedForever).
- A semaphore waiter that a post found asleep can be lost the same way. One that a post finds awake
  is put on a run queue while it runs, which SchedulerSteps.WakeKeepsIff calls unsafe, and so comes
  back from its next sleep. A waiter can also spin while more than one unit is there
  (Semaphore.SleepLosesIff, LostForever, LostWaiterReachable, PostLinksIff, AwakeWaiterReachable,
  SpinEndsIff).
- `wake_up_exclusive` wakes a non-exclusive task when there is no exclusive one: it is `wake_up`
  but for entries without a task (WaitQueue.WakeUpExclusiveIsWakeUpIff).
- kernel/list/list.h:188 says `list_splice` empties its source; it does not. Cutting before the
  first entry, and only there, leaves a head of no list (IntrusiveList.CutPosition, CutAtFirstIsNoList).
- The size arithmetic of `malloc` is right exactly up to 2^63 - 4128 bytes
  (HeapLayout.RequestFitsIff, WrappedRequest, TinyRequest, OverlappedHeaders), and its payloads are aligned for every object, as
  section 7.22.3 of ISO/IEC 9899:2011 asks, exactly where PayloadAlignedIff says; the first is not.
- The bucket count of a hash map is the least power of two exactly where
  HashMap.RoundUpIsLeastPowerIff says, and zero where RoundUpZeroIff says.
- Detecting the base of "0" reads the value but does not move the end pointer
  (Numerals.DetectedRoundTrip); a negative number printed outside base ten is read as a value
  beyond the range of `long` (SignedRoundTripIff).
- The complement of a bitmap has a wrong weight unless it ends at a whole byte
  (Bitmaps.ComplementPaddedIff).

## Model

| member | source | states |
|---|---|---|
| PriorityQueue.FindHighestScan | kernel/process/sched_prio.c:96-103 | the scan returns the least non-empty level, and 127 exactly when every list from there on is empty or only 127 is left |
| PriorityQueue.HighestUnique | kernel/process/sched_prio.c:96-103 | no other level meets that description, so the scan's result is determined by it |
| PriorityQueue.EnqueueKeeps | kernel/process/sched_prio.c:136-183 | enqueueing a task that is off the arrays keeps the priority invariant, adds exactly that task, and leaves the error of `nr_active` unchanged; the cached best level stays equal to the scan |
| PriorityQueue.DequeueKeeps | kernel/process/sched_prio.c:188-208 | the guessing dequeue keeps the weaker invariant (`nr_active + nr_expired` is the number of linked tasks, `nr_active` is never too small), removes exactly that task, and says exactly when `nr_active` drifts up or down by one |
| PriorityQueue.DequeueExactIff | kernel/process/sched_prio.c:194-202 | from exact counters a dequeue leaves them exact if and only if it does not take a task without slice off the active array while `nr_expired` is positive |
| PriorityQueue.SwapExact | kernel/process/sched_prio.c:108-126 | a swap happens only when the active array really is empty, keeps every task, and makes both counters exact |
| PriorityQueue.PickCorrect | kernel/process/sched_prio.c:213-251 | pick returns the head of the least non-empty active level after the one swap it may make; it finds nothing on a non-empty run queue if and only if tasks are counted active while every active list is empty |
| PriorityQueue.PickIsBest | kernel/process/sched_prio.c:213-251 | no task on the active array has a smaller priority number than the picked one |
| PriorityQueue.EnqueuedIsNextIff | kernel/process/sched_prio.c:136-251 | a task with slice enqueued at the head is picked next iff no list below its level holds a task; one enqueued at the tail iff its own list was empty too |
| PriorityQueue.TimeSliceOrder | kernel/process/sched_prio.h:41-43 | a smaller priority number never has a shorter slice; the slices are 100, 50 and 20 ticks |
| PriorityQueue.PrioStepKeeps | kernel/process/sched_prio.c:136-251 | every enqueue, dequeue and pick keeps the priority invariant |
| PriorityQueue.PrioRunSafe | kernel/process/sched_prio.c:136-251 | the priority invariant holds in every state of every run of enqueues, dequeues and picks |
| PriorityQueue.PrioRunSwapExact | kernel/process/sched_prio.c:222-232 | in every run both counters are exact right after every swap |
| SchedulerModel.EnqueueHolds | kernel/process/sched.c:151-170 | enqueueing adds exactly one task to the set held once by the class queues and once by the legacy queue, class counters right; `nr_running` stays the length of the legacy queue if it was |
| SchedulerModel.DequeueHolds | kernel/process/sched.c:175-196 | dequeueing removes exactly that task from the same set, with the same two statements about the counters |
| SchedulerModel.InvMeaning | kernel/process/sched.c:151-254 | what the invariant says: a task other than idle is READY iff it is linked exactly once on exactly one class queue; running and blocked tasks are on none; the legacy queue has the same members, and its length is the sum of both class counters, as is `nr_running` where no exit has made it wrong |
| SchedulerSteps.PickNextCorrect | kernel/process/sched.c:213-254 | a pick keeps the running task or returns a queued READY task, and without a task that runs on it finds one iff there is one to find; which one is SchedulerChoice.PickOrder and PreemptedIff |
| SchedulerSteps.SwitchKeeps | kernel/process/process.c:288-310 | a context switch to any other READY task or to idle re-establishes the invariant |
| SchedulerSteps.ScheduleKeepsIff | kernel/process/process.c:263-319 | `schedule` re-establishes the invariant iff the current task runs on, there is an idle task, or a task can be picked |
| SchedulerSteps.TickKeeps | kernel/process/sched.c:38-53 | a timer tick keeps the invariant |
| SchedulerSteps.CreateKeeps | kernel/process/sched.c:151-170 | enqueueing a newly forked task under a free PID keeps the invariant |
| SchedulerSteps.SetPolicyKeepsIff | kernel/process/sched.c:300-318 | changing a task's policy keeps the invariant iff the task is not queued, or stays where it is linked: same class and, for a priority task, same level on the active array |
| SchedulerSteps.BlockKeepsIff | kernel/sync/waitqueue.c:18-41 | putting the current task to sleep keeps the invariant iff there is an idle task or a pickable one |
| SchedulerSteps.WakeKeepsIff | kernel/sync/waitqueue.c:92-98 | waking a task keeps the invariant iff that task is neither READY nor running |
| SchedulerSteps.ExitKeepsIff | kernel/process/process.c:432-457 | `proc_exit` keeps the invariant iff there is an idle task or a pickable one |
| SchedulerSteps.ExitTalliedIff | kernel/process/process.c:432-457 | `proc_exit`, which decrements `nr_running` for a task that is on no queue, leaves it the length of the legacy queue iff exactly one task is queued and it can be picked |
| SchedulerRuns.BootInv | kernel/process/process.c:522-558 | the scheduler starts in the invariant with `nr_running` right, with or without an idle task |
| SchedulerRuns.StepKeeps | kernel/process/process.c:263-319 | each of create, tick, yield, sleep, wake, set-policy and exit keeps the invariant |
| SchedulerRuns.RunSafe | kernel/process/process.c:263-319 | the invariant holds in every state of every run of those events, each allowed exactly where it keeps the invariant |
| SchedulerRuns.StepTalliedIff | kernel/process/process.c:432-457 | of all events only an exit makes a right `nr_running` wrong, and exactly one while not exactly one task is queued or none can be picked |
| SchedulerRuns.RunTallied | kernel/process/sched.c:151-196 | in every run without such an exit `nr_running` is the length of the legacy queue throughout |
| SchedulerRuns.PickWithSlice | kernel/process/sched.c:213-232 | a task with slice left is picked again unless the priority class offers a strictly smaller priority number; SchedulerChoice.PreemptedIff has both directions |
| SchedulerRuns.SliceGuarantee | kernel/process/sched.c:76-82 | in every run a task that begins it with a full slice keeps the processor until its last tick, unless a yield hands it to a priority task with a strictly smaller number; SchedulerChoice.DispatchGuarantee starts from the dispatch instead |
| SchedulerRuns.RoundRobinSliceGuarantee | kernel/process/sched_rr.c:136-157 | a round-robin task (priority number 0) with a full slice keeps the processor for all its ticks, whatever is queued; SchedulerChoice.RoundRobinKeepsTen starts from the dispatch instead |
| SchedulerChoice.OfferedLeads | kernel/process/sched_prio.c:213-251 | the priority class offers the first task of the least non-empty list of the active array, or of the expired one when no task is counted as active, and offers one iff that array has one |
| SchedulerChoice.PickOrder | kernel/process/sched.c:234-253 | when no task runs on, the choice is that first priority task iff there is one, and else the first round-robin task iff there is one |
| SchedulerChoice.PreemptedIff | kernel/process/sched.c:216-232 | a running task with slice left loses the processor iff the array picked from holds a task with a strictly smaller priority number, and then to the first task of its least non-empty list |
| SchedulerChoice.ScheduleTasks | kernel/process/process.c:263-319 | who has the processor after `schedule`, and for every task its state, its slice and that nothing else about it changes |
| SchedulerChoice.DispatchResets | kernel/process/process.c:303-310 | a task that `schedule` gives the processor to gets a full slice, and no other slice changes |
| SchedulerChoice.ForkNumbers | kernel/process/sched_prio.c:288-313 | a priority task is forked with the number nearest to 64 + nice between 0 and 64 and the slice of that number, a round-robin task with number 0 and ten ticks |
| SchedulerChoice.EventTask | kernel/process/process.c:263-319 | for every event and every task: its state, its slice, and that only creation and a change of policy set its class, its number and its full slice |
| SchedulerChoice.ReschedPending | kernel/process/sched.c:275-291 | in every run the reschedule flag is set iff a task has been woken since the processor was last given up |
| SchedulerChoice.DispatchGuarantee | kernel/process/process.c:306-310 | in every run a task that any event gives the processor to keeps it for its full slice, one tick of slice per timer tick, unless a yield hands it to a priority task with a strictly smaller number |
| SchedulerChoice.RoundRobinKeepsTen | kernel/process/sched_rr.c:136-157 | in every run a round-robin task that any event gives the processor to keeps it for ten ticks, whatever is queued |
| SchedulerOrder.QueuesInOrder | kernel/process/sched_prio.c:136-183 | in every run from boot every list of every array, the round-robin list and the legacy list hold their tasks in the order in which they became ready |
| SchedulerOrder.PickIsOldest | kernel/process/sched.c:234-253 | in every run from boot a pick takes the task that has been ready for longest among those of its level on the array picked from, or of the round-robin class |
| SchedulerStarvation.PickDoomed | kernel/process/sched_prio.c:213-251 | while the active counter is too large, or a task without slice is still on the active array, no pick swaps the arrays |
| SchedulerStarvation.DequeueDoomed | kernel/process/sched_prio.c:188-208 | taking a task off the active array never brings the count back to the truth, and makes it wrong if the task has no slice |
| SchedulerStarvation.StepDoomed | kernel/process/sched_prio.c:136-251 | a doomed task stays doomed through every scheduler event, exits included, that leaves the policies of queued tasks alone, and through any event at all once the active counter is too large |
| SchedulerStarvation.StarvedForever | kernel/process/sched_prio.c:222-232 | in every run of such events the task stays on the expired array and never gets the processor |
| SchedulerStarvation.CanRunIff | kernel/process/sched_prio.c:108-251 | a READY task can get the processor in some run that leaves the policies of queued tasks alone iff it is not on the expired array with the active counter too large or a task without slice on the active array |
| SchedulerStarvation.CanEverRunIff | kernel/process/sched_prio.c:108-251 | a READY task can get the processor in some run of any events, policy changes of queued tasks included, iff it is not on the expired array with the active counter too large |
| SchedulerStarvation.YieldDoomsIff | kernel/process/sched_prio.c:136-232 | a yield by an exhausted priority task dooms it iff another task can be reached and the counter is too large, an active task has no slice, or the arrays have to be swapped |
| SchedulerStarvation.YieldedForever | kernel/process/sched_prio.h:1-8 | so that task never runs again in any continuation that leaves the policies of queued tasks alone, or in any at all if the counter is too large after the yield: the fairness the header promises of the two arrays fails |
| SchedulerWitness.StuckReachable | kernel/process/sched_prio.c:194-232 | a concrete run from boot reaches such a state: a task is doomed, it is queued, and a pick returns nothing |
| SchedulerWitness.LoneSleeper | kernel/process/process.c:274-281 | a concrete run in which, without an idle task, the only task's sleep breaks the invariant and its wake-up links the current task |
| SchedulerWitness.LoneExit | kernel/process/process.c:432-457 | a concrete run in which, without an idle task, the only task's exit breaks the invariant and leaves `nr_running` wrong |
| SchedulerWitness.QueuedPolicyChange | kernel/process/sched.c:300-318 | a concrete run after which moving a queued priority task to the round-robin class breaks the invariant |
| RoundRobin.TickForSpends | kernel/process/sched_rr.c:136-143 | ticking for the remaining slice spends exactly it and changes nothing else |
| RoundRobin.SpentRotates | kernel/process/sched_rr.c:89-119 | one `schedule` by an exhausted task turns (c, q) into (q[0], q[1..] + [c]) |
| RoundRobin.RoundsRotate | kernel/process/sched_rr.c:89-119 | k rounds rotate the arrangement of running task and queue by k |
| RoundRobin.BoundedWaiting | kernel/process/sched_rr.c:89-119 | the task at position k of the queue gets the processor at exactly the (k+1)-th round and at no other of that cycle |
| RoundRobin.FullCycle | kernel/process/sched_rr.c:89-119 | one round per task brings the arrangement back |
| SchedulerObject.PrioRunQueue.FindHighestPrio | kernel/process/sched_prio.c:96-103 | the scan loop computes FindHighest, of which FindHighestScan and HighestUnique are proved |
| SchedulerObject.PrioRunQueue.SwapActiveExpired | kernel/process/sched_prio.c:108-126 | the loop over the levels exchanges the arrays and counters as Swap does |
| SchedulerObject.PrioRunQueue.EnqueueTask | kernel/process/sched_prio.c:136-183 | the in-place enqueue has exactly the effect Enqueue describes |
| SchedulerObject.PrioRunQueue.DequeueTask | kernel/process/sched_prio.c:188-208 | the in-place dequeue has exactly the effect Dequeue describes, guess included |
| SchedulerObject.PrioRunQueue.PickNextTask | kernel/process/sched_prio.c:213-251 | the in-place pick returns and leaves what Pick describes |
| SchedulerObject.Scheduler.SchedEnqueueTask | kernel/process/sched.c:151-170 | class queue, legacy queue and counters after an enqueue |
| SchedulerObject.Scheduler.SchedDequeueTask | kernel/process/sched.c:175-196 | class queue, legacy queue and counters after a dequeue |
| SchedulerObject.Scheduler.SchedPickNextTask | kernel/process/sched.c:213-254 | the pick across both classes, with the swap it may cause |
| SchedulerObject.Scheduler.Schedule | kernel/process/process.c:263-319 | the imperative `schedule` computes the function the run theorems are about |
| SchedulerObject.Scheduler.TimerTick | kernel/process/sched.c:38-53 | the tick handler spends one tick of the current task's slice and nothing else |
| SchedulerObject.Scheduler.BlockCurrent | kernel/sync/waitqueue.c:18-41 | marking the current task blocked and scheduling |
| SchedulerObject.Scheduler.WakeTask | kernel/sync/waitqueue.c:92-98 | marking a task ready, enqueueing it and asking for a reschedule |
| SchedulerObject.Scheduler.ProcExit | kernel/process/process.c:432-457 | zombie state, the extra decrement and the switch away |
| SchedulerObject.Scheduler.SchedSetPolicy | kernel/process/sched.c:300-318 | policy, class, priority and slices after `task_fork` of either class |
| RwLock.ActCounts | kernel/sync/rwlock.c:14-89 | each atomic operation moves a counter exactly as it moves its thread in or out of the readers or writers |
| RwLock.StepKeeps | kernel/sync/rwlock.c:14-89 | every step of any thread keeps both counters exact, at most one writer, and what was checked inside the spinlock true |
| RwLock.StepExcludes | kernel/sync/rwlock.c:27-89 | every step except the unchecked increment of `rwlock_read_lock` keeps readers and the writer apart |
| RwLock.UncheckedIncrementIff | kernel/sync/rwlock.c:14-25 | that increment keeps them apart iff no writer has exclusive access at that moment |
| RwLock.RunSafe | kernel/sync/rwlock.c:14-89 | in every interleaving of any number of threads, read_lock included, counters are exact and there is at most one writer |
| RwLock.OneWriter | kernel/sync/rwlock.c:47-80 | in every interleaving two threads that count as writers are the same thread |
| RwLock.RunExcludes | kernel/sync/rwlock.c:27-89 | in every interleaving without `rwlock_read_lock` no reader holds the lock while a writer does |
| RwLock.ReadLockRaces | kernel/sync/rwlock.c:14-25 | a concrete interleaving of `rwlock_read_lock` and `rwlock_write_trylock` with a reader beside a writer |
| RwLockCalls.CallsReturn | kernel/sync/rwlock.c:14-89 | in every interleaving, for every call that has returned: what it read, by how much it changed both counts, and whether the caller now holds the lock |
| RwLockCalls.ReadTrylockFailsIff | kernel/sync/rwlock.c:27-41 | in every interleaving `rwlock_read_trylock` fails iff one of its looks found a writer, having changed nothing; else it looked twice and the reader count is one higher |
| RwLockCalls.WriteTrylockFailsIff | kernel/sync/rwlock.c:66-80 | in every interleaving `rwlock_write_trylock` fails iff it found a writer or a reader, having changed nothing; else the writer count is one higher |
| RwLockCalls.ReadLockAlone | kernel/sync/rwlock.c:14-25 | a lone `rwlock_read_lock` gets the lock when there is no writer and otherwise spins on for ever |
| RwLockCalls.ReadTrylockAlone | kernel/sync/rwlock.c:27-41 | a lone `rwlock_read_trylock` succeeds exactly when there is no writer |
| RwLockCalls.WriteLockAlone | kernel/sync/rwlock.c:47-64 | a lone `rwlock_write_lock` without a writer claims the lock and gets it exactly when there are no readers; with a writer it goes round its loop without an effect |
| RwLockCalls.WriteTrylockAlone | kernel/sync/rwlock.c:66-80 | a lone `rwlock_write_trylock` succeeds exactly on a free lock |
| RwLockCalls.UnlockAlone | kernel/sync/rwlock.c:43-89 | unlocking lowers the right count by one and leaves the caller outside; downgrading turns a writer into a reader |
| Semaphore.StepConservesIff | kernel/sync/semaphore.c:18-118 | an atomic step conserves units iff it is not a post that overflows the counter |
| Semaphore.RunConserves | kernel/sync/semaphore.c:18-118 | in every interleaving without an overflowing post count == initial + posts - acquisitions, and it is never negative when it starts so |
| Semaphore.RunCongruent | kernel/sync/semaphore.c:18-118 | in every interleaving whatever the same holds modulo 2^32, and the counter stays an `int` |
| Semaphore.NoDanglingWaiter | kernel/sync/semaphore.c:37-76 | in every interleaving a thread outside its call has no stack entry left on the wait list, and the list has no repeats |
| Semaphore.RunBoundsHolders | kernel/sync/semaphore.c:18-118 | with threads that post only what they took, at most `initial` threads hold a unit at any moment of any interleaving; by SemaphoreCalls.WaitReturnsWithUnit a thread back from `sem_wait` is one of them |
| Semaphore.SleepLosesIff | kernel/sync/semaphore.c:62-64 | a waiter that goes to sleep is left on no list and no run queue iff it is off the wait list and no post has put it on a run queue while it was awake |
| Semaphore.PostLinksIff | kernel/sync/semaphore.c:87-118 | a step puts a thread that is awake on a run queue iff it is a post and that thread is its first waiter; the thread is then about to read the counter, to sleep, to take a unit or to leave the list |
| Semaphore.LostForever | kernel/sync/semaphore.c:62-64 | a waiter asleep on no list and no run queue is never woken in any continuation |
| Semaphore.LostWaiterReachable | kernel/sync/semaphore.c:62-64 | a concrete interleaving of three threads loses a waiter, which a post found asleep, while a unit is available |
| Semaphore.AwakeWaiterReachable | kernel/sync/semaphore.c:87-118 | a concrete interleaving in which a post enqueues a waiter that is awake, and its next sleep returns at once |
| Semaphore.SpinEndsIff | kernel/sync/semaphore.c:67-70 | a waiter that has seen units stops spinning iff it finds exactly one |
| Semaphore.SpinsOn | kernel/sync/semaphore.c:67-70 | with any other number of units it spins on as long as no other thread moves |
| SemaphoreCalls.CallsReturn | kernel/sync/semaphore.c:18-118 | in every interleaving every thread that is outside has taken and given exactly what its last call promises |
| SemaphoreCalls.WaitReturnsWithUnit | kernel/sync/semaphore.c:18-76 | in every interleaving a step that takes a thread out of `sem_wait` leaves it holding a unit: it has taken exactly one since its call, by a swap that found a positive counter, and given none |
| SemaphoreCalls.TrywaitTakesIff | kernel/sync/semaphore.c:78-85 | in every interleaving `sem_trywait` returns with a unit iff it read a positive value and the counter still had it at the swap |
| SemaphoreCalls.WaitersInOrder | kernel/sync/semaphore.c:37-57 | in every interleaving the wait list is in the order in which its threads joined it |
| SemaphoreCalls.PostWakesOldest | kernel/sync/semaphore.c:94-113 | in every interleaving a post takes off the list exactly the waiter that joined first, ends its sleep, and leaves every other waiter alone |
| SemaphoreCalls.WaitTakes | kernel/sync/semaphore.c:18-31 | with a unit there a lone `sem_wait` takes it and returns |
| SemaphoreCalls.WaitSleepsIff | kernel/sync/semaphore.c:33-64 | without one it joins the list and goes to sleep iff the counter is zero; with a negative one it spins |
| SemaphoreCalls.SecondLookTakes | kernel/sync/semaphore.c:33-42 | a unit that arrives before the look inside the spinlock is taken there |
| SemaphoreCalls.WokenTakes | kernel/sync/semaphore.c:62-76 | a woken waiter that finds one unit takes it, leaves the list and returns |
| SemaphoreCalls.TrywaitAlone | kernel/sync/semaphore.c:78-85 | a lone `sem_trywait` takes a unit iff there is one, and else changes nothing |
| SemaphoreCalls.PostAlone | kernel/sync/semaphore.c:87-118 | a lone `sem_post` adds one unit, takes the first waiter off the list and ends its sleep |
| MutexCondvar.StepKeeps | kernel/sync/mutex.c:20-130 | every call, locking twice included, and every resumption keeps the lock word, the owner and the holder in agreement |
| MutexCondvar.RunSafe | kernel/sync/mutex.c:20-130 | that agreement holds after every run that switches threads at `schedule` |
| MutexCondvar.MutualExclusion | kernel/sync/mutex.c:20-130 | in every such run at most one thread holds the mutex, and it is locked exactly while one does or its owner waits for itself |
| MutexCondvar.LockTakesIff | kernel/sync/mutex.c:20-87 | `mutex_lock` takes a free mutex and else puts its caller to sleep at the end of the wait list; `mutex_trylock` takes a free mutex and else changes nothing |
| MutexCondvar.WaitResumesIff | kernel/sync/condvar.c:45-51 | a thread that comes out of the sleep of `condvar_wait` takes a free mutex and else waits for it |
| MutexCondvar.SleepersFifo | kernel/sync/mutex.c:45-126 | in every run the wait list is the threads that fell asleep in `mutex_lock`, in order, less one at the front for each release that found a waiter |
| MutexCondvar.ReleaseWakesOldest | kernel/sync/mutex.c:89-130 | in every run a release by the owner, in `mutex_unlock` or `condvar_wait`, frees the mutex and readies exactly the listed thread that fell asleep first, and nobody else |
| MutexCondvar.ForeignUnlock | kernel/sync/mutex.c:92-96 | an unlock by anyone but the owner changes nothing |
| MutexCondvar.SelfLockIff | kernel/sync/mutex.c:20-75 | `mutex_lock` makes its caller wait for itself iff the caller already holds the mutex, although the structure has a recursion count |
| MutexCondvar.SelfLockedForever | kernel/sync/mutex.c:89-130 | then the mutex stays locked and no thread ever holds it again, in every continuation |
| MutexCondvar.WaitReturnsOwner | kernel/sync/condvar.c:16-52 | a thread that leaves `condvar_wait` owns the mutex and is on no list |
| MutexCondvar.WaitersFifo | kernel/sync/condvar.c:16-118 | in every run the waiter list is the arrivals in order less those that signals and broadcasts took off at the front |
| MutexCondvar.SignalWakesOldest | kernel/sync/condvar.c:54-82 | in every run a signal readies exactly the earliest arrival still waiting, and nobody else |
| MutexCondvar.CondVar.CondSignal | kernel/sync/condvar.c:54-82 | unlinking and waking the first waiter has the effect SignalCond describes |
| MutexCondvar.CondVar.Collect | kernel/sync/condvar.c:92-110 | the unlinking loop empties the list and fills the array with the first 32 waiters in order |
| MutexCondvar.CondVar.CondBroadcast | kernel/sync/condvar.c:84-118 | the two loops have the effect BroadcastCond describes |
| MutexCondvar.BroadcastWakes | kernel/sync/condvar.c:84-118 | a broadcast empties the list and readies exactly the first min(n, 32) waiters |
| MutexCondvar.BroadcastWakesAllIff | kernel/sync/condvar.c:84-118 | a broadcast readies every waiter iff there are at most 32 |
| MutexCondvar.BroadcastLosesIff | kernel/sync/condvar.c:84-118 | waiter i is left asleep on no list iff i >= 32 |
| MutexCondvar.WokenWaiterIff | kernel/sync/mutex.c:48-75 | a woken mutex waiter acquires iff nobody took the mutex in between; otherwise it sleeps on no list |
| MutexCondvar.LostForever | kernel/sync/mutex.c:48-75 | a thread asleep on no list stays so in every continuation of every run |
| MutexCondvar.LostWaiterReachable | kernel/sync/mutex.c:89-130 | a concrete run of three threads that loses a waiter and ends with the mutex free |
| MutexCondvar.ManyWait | kernel/sync/condvar.c:16-52 | any number of threads can wait on a condition variable at once, so more than 32 is reachable |
| WaitQueue.WaitQueueHead.WakeExclusive | kernel/sync/waitqueue.c:77-108 | the first loop leaves and wakes what FirstPass describes |
| WaitQueue.WaitQueueHead.WakeNormal | kernel/sync/waitqueue.c:111-132 | the second loop leaves and wakes what SecondPass describes |
| WaitQueue.WaitQueueHead.WakeUpCommon | kernel/sync/waitqueue.c:66-143 | the two loops together compute WakeCommon |
| WaitQueue.WakeUpExactly | kernel/sync/waitqueue.c:66-147 | `wake_up` on every list, entries without a task included: exactly what it unlinks, whom it readies and what stays in which order |
| WaitQueue.WakeUpWakesOne | kernel/sync/waitqueue.c:145-147 | when every entry names a task, exactly one task of a non-empty queue is readied, the first exclusive one or else the first, and the rest keep their order |
| WaitQueue.WakeUpExclusiveIsWakeUpIff | kernel/sync/waitqueue.c:153-155 | `wake_up_exclusive` does exactly what `wake_up` does iff there is no exclusive entry, the first names a task, or it is the only one |
| WaitQueue.WakeUpAllWakes | kernel/sync/waitqueue.c:149-151 | `wake_up_all` readies the first exclusive task and every other non-exclusive one in order, and keeps exactly the other exclusive entries in order |
| WaitQueue.WakeConserves | kernel/sync/waitqueue.c:66-143 | for all arguments the tasks woken and those still linked are together those that were linked |
| IntrusiveList.Add | kernel/list/list.h:96-98 | the pointer writes put the node at the front of the sequence |
| IntrusiveList.AddTail | kernel/list/list.h:108-110 | the pointer writes put the node at the end |
| IntrusiveList.Bypass | kernel/list/list.c:26-29 | the neighbours point at each other and the list loses exactly that node, whose own pointers stay; on an unlinked node nothing changes |
| IntrusiveList.Delete | kernel/list/list.h:120-122 | the sequence loses exactly that node |
| IntrusiveList.DeleteInit | kernel/list/list.c:33-36 | as Delete, and the node becomes an empty list; on an unlinked node nothing changes |
| IntrusiveList.Replace | kernel/list/list.h:143-148 | the new node stands where the old one stood |
| IntrusiveList.Count | kernel/list/list.c:143-152 | the counting loop returns the length of the sequence |
| IntrusiveList.IsSingular | kernel/list/list.h:415-417 | true iff the list has exactly one entry |
| IntrusiveList.Splice | kernel/list/list.c:45-60 | the destination holds source + destination; the source head is left as it was, although the header says it is emptied |
| IntrusiveList.SpliceTail | kernel/list/list.c:62-77 | the destination holds destination + source; the source head is left as it was |
| IntrusiveList.SpliceInit | kernel/list/list.c:79-98 | as Splice, and the source head is an empty list |
| IntrusiveList.CutPosition | kernel/list/list.c:100-133 | cutting before entry k > 0, or before the head, splits the sequence in two lists; what the pointers are when k == 0 |
| IntrusiveList.CutAtFirstIsNoList | kernel/list/list.c:100-133 | after cutting before the first entry the destination head heads no well-formed list at all |
| IntrusiveList.CutThenSplice | kernel/list/list.c:45-133 | cutting past the first entry and splicing back restores the list |
| IntrusiveList.SwapLevel | kernel/process/sched_prio.c:108-117 | three splices through a temporary head exchange two lists, order kept |
| IntrusiveList.SwapArrays | kernel/process/sched_prio.c:108-117 | over all levels the active and expired lists change places, each in its own order, no ring disturbed |
| HeapLayout.RequestFitsIff | user/src/stdlib.c:83-112 | the rounded block size covers the request and the break increment covers the block and is positive iff the request is at most 2^63 - 4128 |
| HeapLayout.WrappedRequest | user/src/stdlib.c:67-92 | a request within 15 bytes of SIZE_MAX is given a block without a payload, below the 40 bytes of the layout, iff the block found can be split |
| HeapLayout.TinyRequest | user/src/stdlib.c:67-92 | for the sixteen requests below those the block size wraps to 8, and a block that can be split gets the header of the remainder inside its own |
| HeapLayout.OverlappedHeaders | user/src/stdlib.c:17-21 | of two headers 8 bytes apart the first reads as used iff the size of the second has a low byte that is not zero, and the second iff its own address has |
| HeapLayout.TilesIff | user/src/stdlib.c:67-135 | blocks between two addresses use all the bytes between iff there is no gap before, between or after them |
| HeapLayout.PayloadAlignedIff | user/src/stdlib.c:87-91 | with a 16-aligned break every payload is 8-aligned, and 16-aligned iff an odd number of blocks before it have a size that is no multiple of 16, as every block cut to a request has |
| HeapLayout.OverflowCheckIff | user/src/stdlib.c:201-207 | `calloc`'s division test detects exactly the products that do not fit in `size_t` |
| HeapLayout.WordOfBytes | user/src/stdlib.c:17-21 | a header word written as bytes is read back |
| HeapLayout.PayloadsDisjoint | user/src/stdlib.c:51-81 | payloads of different blocks are disjoint and no payload byte is a header byte |
| HeapLayout.SplitSound | user/src/stdlib.c:67-81 | splitting keeps the bytes spelling out the list, the layout and the sum of sizes |
| HeapLayout.AppendSound | user/src/stdlib.c:99-135 | appending a grown block keeps them too and changes no live payload |
| HeapLayout.TakenGives | user/src/stdlib.c:83-144 | the block handed out is used, is at its place in the list and holds at least the requested bytes |
| HeapLayout.TakenSplitsIff | user/src/stdlib.c:67-81 | a block is cut to the request iff 40 bytes or more are left over, which become a free block right behind it; all other blocks stay in order |
| HeapLayout.TakenKeepsOthers | user/src/stdlib.c:83-144 | every other block is still in the list |
| HeapLayout.LiveStays | user/src/stdlib.c:160-221 | writing into the block just handed out and into headers changes no byte of any block that was live |
| UserHeap.Heap.BlocksTile | user/src/stdlib.c:30-158 | in every state the blocks cover exactly the bytes `sbrk` has granted, without a gap |
| UserHeap.Heap.FindFree | user/src/stdlib.c:51-62 | the search returns the first free block that is large enough, and NULL iff there is none |
| UserHeap.Heap.SplitBlock | user/src/stdlib.c:67-81 | the block is split iff at least 40 bytes are left over; only its own bytes change |
| UserHeap.Heap.Init | user/src/stdlib.c:30-46 | the first call asks `sbrk` for 16 KiB and makes one free block of them iff it is granted; later calls do nothing |
| UserHeap.Heap.Expand | user/src/stdlib.c:99-135 | a block of whole pages at the old break is appended iff `sbrk` grants it, else the list stays as it was; no live payload changes |
| UserHeap.Heap.Malloc | user/src/stdlib.c:83-144 | the payload of the first-fit block, taken and split; NULL iff the size is zero or nothing fits in the list after growing, which needs a refusal by `sbrk`; the list grows only when nothing fits, by the initial 16 KiB block, by one block of the whole pages needed, or by both; no live payload byte changes |
| UserHeap.Heap.Free | user/src/stdlib.c:146-158 | NULL is ignored, otherwise exactly that block becomes free and only header bytes change |
| UserHeap.Heap.Realloc | user/src/stdlib.c:160-199 | the first min(old, new) bytes are preserved, the old block is freed only on success, every other live payload is unchanged, and each of the four cases has its exact outcome, NULL included |
| UserHeap.Heap.Calloc | user/src/stdlib.c:201-221 | NULL iff the product overflows, is zero, or nothing fits after a refusal by `sbrk`; otherwise every byte of the request is zero |
| AtaQueue.AsyncQueue.StartNext | kernel/driver/ata/ata.c:1192-1215 | with none active the head becomes active and leaves the queue; otherwise nothing changes |
| AtaQueue.AsyncQueue.Enqueue | kernel/driver/ata/ata.c:1554-1567 | the operation is accepted last; submission order, links and tail stay right; it is started iff the controller was idle |
| AtaQueue.AsyncQueue.EnqueueAll | kernel/driver/ata/ata.c:1174-1187 | operations submitted by a completion callback join the queue in order behind the operation that is still active |
| AtaQueue.AsyncQueue.Submit | kernel/driver/ata/ata.c:1514-1567 | each parameter error has its own result and changes nothing; success accepts exactly one new operation with the caller's buffer |
| AtaQueue.AsyncQueue.Complete | kernel/driver/ata/ata.c:1174-1187 | the active operation is completed once, with the status of its result, after its callback may have submitted more |
| AtaQueue.AsyncQueue.ReceiveSector | kernel/driver/ata/ata.c:1391-1399 | one sector of data lands at its place in the buffer, inside its bounds, nothing else changes |
| AtaQueue.AsyncQueue.SendSector | kernel/driver/ata/ata.c:1407-1426 | the next sector of the buffer is sent, or the operation was at its last |
| AtaQueue.AsyncQueue.Fail | kernel/driver/ata/ata.c:1361-1378 | an error completes the active operation once, as failed, with nothing more transferred |
| AtaQueue.AsyncQueue.Irq | kernel/driver/ata/ata.c:1340-1435 | for every status, all data and whatever the callback submits: at most the active operation completes, in order, with success only after its last sector, when a read has its whole buffer filled with the received words in order and a write has sent its whole buffer; no other part of the buffer changes, and the status is the one of the outcome |
| AtaQueue.CompletedInOrder | kernel/driver/ata/ata.c:1174-1215 | the i-th completion is the i-th submission, and nothing completes twice |
| HashMap.RoundUpIsLeastPowerIff | kernel/base/hashmap.c:46-56 | the bucket count is the least power of two that is at least the request iff the request is one, or is at most 2^63 and one less than it has no 32 zero bits in a row below its top bit |
| HashMap.RoundUpZeroIff | kernel/base/hashmap.c:46-56 | the bucket count is zero iff the request is, or exceeds 2^63 and has no such gap |
| HashMap.RoundUpIsLeastPower | kernel/base/hashmap.c:46-56 | up to 2^32 the bucket count is always that power |
| HashMap.RoundUpBeyond | kernel/base/hashmap.c:46-56 | concrete requests above 2^32: one rounded wrongly, one rightly, one to zero |
| HashMap.Create | kernel/base/hashmap.c:40-82 | NULL iff an argument is missing or memory is; otherwise an empty map with the rounded number of buckets |
| HashMap.Index | kernel/base/hashmap.c:17-20 | the bucket index is in range for every bucket count |
| HashMap.IndexIsModulo | kernel/base/hashmap.c:17-20 | for a bucket count that is a power of two the index is the hash modulo the count |
| HashMap.StoredInSlot | kernel/base/hashmap.c:138-154 | a stored class of keys is found in the bucket of any of its keys |
| HashMap.InsertRefines | kernel/base/hashmap.c:106-136 | prepending an entry to its bucket is insertion into the map |
| HashMap.RemoveRefines | kernel/base/hashmap.c:156-185 | unlinking an entry is removal from the map |
| HashMap.AllIsTheMap | kernel/base/hashmap.c:217-236 | the entries of all chains are the map: each class once, with its value, as many as the map has |
| HashMap.HashMap.Get | kernel/base/hashmap.c:138-154 | the stored value, or NULL |
| HashMap.HashMap.Contains | kernel/base/hashmap.c:194-196 | true iff the key is stored with a value that is not NULL |
| HashMap.HashMap.Put | kernel/base/hashmap.c:106-136 | the map is updated, in place or by a new entry at the head of its bucket, or with -1 or -2 nothing changes at all; size stays the cardinality |
| HashMap.HashMap.Remove | kernel/base/hashmap.c:156-185 | the old value or NULL is returned, exactly that class is removed, and its chain keeps its order |
| HashMap.HashMap.ForEach | kernel/base/hashmap.c:217-236 | the entries are visited in order, each once, up to and including the first that asks to stop; all of them otherwise |
| HashMap.HashMap.Clear | kernel/base/hashmap.c:198-215 | the map is empty afterwards, the bucket count kept |
| Numerals.ReverseStr | kernel/base/strhelpers.c:141-150 | the first `len` characters are reversed in place and no other changes |
| Numerals.Uitoa64 | kernel/base/strhelpers.c:244-262 | the buffer holds the numeral, most significant digit first, and a terminator; a bad base gives the empty string |
| Numerals.ItoaSigned | kernel/base/strhelpers.c:211-239 | the same for signed values: a minus sign in base ten, two's complement in the others |
| Numerals.ReversedLowDigits | kernel/base/strhelpers.c:250-261 | the digits produced backwards and reversed are the numeral |
| Numerals.DigitsAreLower | kernel/base/strhelpers.c:253-257 | the printers write the digits 0 to 9 and the lower-case letters |
| Numerals.Strtoul | kernel/base/strhelpers.c:76-129 | the loops compute ParseUnsigned: white space, sign, prefixes, 64-bit wrap, end position |
| Numerals.Strtol | kernel/base/strhelpers.c:15-70 | the loops compute ParseSigned |
| Numerals.ScanDigitsOf | kernel/base/strhelpers.c:108-122 | scanning a numeral yields its value with no step wrapping |
| Numerals.UnsignedRoundTrip | kernel/base/strhelpers.c:76-129 | strtoul(uitoa64(v, b), b) == v for every 64-bit v and base 2 to 36, ending at the terminator |
| Numerals.SignedRoundTripIff | kernel/base/strhelpers.c:15-70 | strtol(itoa_signed(v, b), b) == v, ending at the terminator, iff v is not negative or the base is ten; otherwise the two's complement read is no `long` |
| Numerals.ScanGrows | kernel/base/strhelpers.c:52-66 | no value on the way exceeds the one read |
| Numerals.HexRoundTrip | kernel/base/strhelpers.c:89-104 | a hexadecimal numeral behind `0x` is read back in base 16 and with the base detected |
| Numerals.OctalRoundTrip | kernel/base/strhelpers.c:89-104 | an octal numeral behind `0` is read back when the base is detected |
| Numerals.DigitValueIff | kernel/base/strhelpers.c:108-119 | the digits are the ten decimal ones and the letters, in either case |
| Numerals.ReadsUnsigned | kernel/base/strhelpers.c:76-129 | of white space, an optional plus sign, a prefix, digits of either case and a rest, `strtoul` reads the value of the digits modulo 2^64 and ends behind them; without a digit it reads zero and ends at the beginning of the string |
| Numerals.ReadsSigned | kernel/base/strhelpers.c:15-70 | the same of `strtol`, with an optional minus sign that negates the value |
| Numerals.EveryStringLaid | kernel/base/strhelpers.c:15-129 | every string has that form for every base, so the two statements are about all strings |
| Numerals.DetectedRoundTrip | kernel/base/strhelpers.c:89-104 | with the base detected every decimal numeral has its value, and the end pointer moves past it iff v is not zero |
| Bits.OrMask | kernel/bitmap/bitmap_helper.h:59-61 | setting the mask's bit sets that bit and no other |
| Bits.XorMask | kernel/bitmap/bitmap_helper.h:59-61 | flipping by the mask flips that bit and no other |
| Bits.ClearLowest | kernel/bitmap/bitmap.c:136-149 | `b & (b - 1)` has exactly one bit fewer |
| Bitmaps.Bitmap.constructor | kernel/bitmap/bitmap.c:7-18 | the bitmap starts as the empty set with zero padding |
| Bitmaps.Bitmap.Test | kernel/bitmap/bitmap.c:32-35 | true iff the bit is in the set |
| Bitmaps.Bitmap.SetBit | kernel/bitmap/bitmap.c:20-24 | adds exactly that bit, padding stays zero |
| Bitmaps.Bitmap.ClearBit | kernel/bitmap/bitmap.c:26-30 | removes exactly that bit |
| Bitmaps.Bitmap.FlipBit | kernel/bitmap/bitmap.c:37-40 | adds or removes exactly that bit |
| Bitmaps.Bitmap.SetRange | kernel/bitmap/bitmap.c:44-51 | adds exactly the bits from start up to the 64-bit sum, cut at nbits |
| Bitmaps.Bitmap.ClearRange | kernel/bitmap/bitmap.c:53-60 | removes exactly those bits |
| Bitmaps.Bitmap.FindNextZero | kernel/bitmap/bitmap.c:70-75 | the least zero bit from start, -1 iff there is none |
| Bitmaps.Bitmap.FindNextSet | kernel/bitmap/bitmap.c:77-82 | the least one bit from start, -1 iff there is none |
| Bitmaps.Bitmap.Weight | kernel/bitmap/bitmap.c:136-149 | the byte loop counts the cardinality of the set |
| Bitmaps.Bitmap.Full | kernel/bitmap/bitmap.c:151-153 | true iff every bit below nbits is in the set |
| Bitmaps.Bitmap.Empty | kernel/bitmap/bitmap.c:155-157 | true iff the set is empty |
| Bitmaps.Bitmap.Complement | kernel/bitmap/bitmap.c:124-128 | the complement over all bits of all bytes, also in place |
| Bitmaps.ComplementPaddedIff | kernel/bitmap/bitmap.c:124-128 | the complement keeps the padding zero, and its weight nbits minus the old one, iff nbits is a multiple of 8 |
| PidAllocator.PidAllocator.constructor | kernel/process/process.c:49-52 | only PID 0 is in use |
| PidAllocator.PidAllocator.PidAlloc | kernel/process/process.c:58-72 | the least free PID is returned and marked, or a negative value iff all 32768 are in use |
| PidAllocator.PidAllocator.PidFree | kernel/process/process.c:78-85 | exactly that PID becomes free; out-of-range values and 0 are ignored |
| PidAllocator.AllocResult | kernel/process/process.c:58-72 | in every run PIDs handed out are unused and between 1 and 32767, and allocation fails iff none is left |
| PidAllocator.NoDoubleAllocation | kernel/process/process.c:49-85 | in every run a PID handed out twice was freed in between |
| PidAllocator.FreedIsReused | kernel/process/process.c:58-85 | a freed PID with no free PID below it is the next one handed out |
## Left out

- UserHeap.Heap.Malloc: requests above 2^63 - 4128 bytes are excluded; HeapLayout.RequestFitsIff shows that exactly there the size arithmetic fails. `sbrk` is as user/include/unistd.h documents it and used by nobody else, while user/src/unistd.c passes the increment as an absolute break.
- UserHeap.Heap.Calloc: the same bound on a product that does not overflow.
- UserHeap.Heap.Realloc: the same bound; memory is a sequence of bytes held in a field, not an array.
- MutexCondvar.StepKeeps: switches only at `schedule`; preemption inside the slow path, which checks and sets without a compare-and-swap, is not modelled, nor is the entry a woken thread leaves on its private wait queue.
- Semaphore.RunConserves: excludes runs in which a post overflows the counter; Semaphore.RunCongruent covers them.
- Semaphore.NoDanglingWaiter: of a waiter's private wait queue only whether it sleeps is modelled, not the entry it leaves there.
- Semaphore.PostLinksIff: a thread is linked on a run queue or not; linking one twice, which corrupts the queue, is not modelled, and a linked thread loses its link when it next gives up the processor.
- AtaQueue.AsyncQueue.Irq: a submission and an interrupt each run to the end; device timing, LBA48 register order and cache flushing are not modelled.
- Numerals.Strtol: `long` is unbounded here, and so in Numerals.ReadsSigned; what C does when the accumulator leaves the range of `long` is undefined and not modelled.
- Numerals.ItoaSigned: INT64_MIN in base ten, whose negation is undefined in C, is excluded.
- HashMap.HashMap.Remove: a chain is a sequence, so unlinking through a previous-entry pointer is a slice.
- HashMap.Create: requests above 2^63, some of which round to zero buckets, are excluded; `hashmap_destroy` and the supplied hash functions are not modelled.
- IntrusiveList.CutPosition: an entry that is not on the list, when the list has two or more entries, is excluded, as the header asks.
- SchedulerObject.PrioRunQueue.EnqueueTask: a level is a sequence, so linking a task twice is not memory corruption here; IntrusiveList proves the pointer operations themselves.
- SchedulerOrder.QueuesInOrder: the runs enqueue at the tail only, as every caller in the kernel does; for the head see PriorityQueue.EnqueuedIsNextIff.
- SchedulerRuns.RunSafe: `proc_fork` and `proc_wait4` are not among the events; an exit keeps its zombie in the task table.
- SchedulerStarvation.CanRunIff: runs that change the policy of a queued task are the subject of CanEverRunIff, since re-forking a task gives it a new slice; in both an idle task that has the processor must have no slice or one that runs out.
- Liveness of the mutex, the semaphore and the read-write lock: the code does not provide it.
- bitmap_and, bitmap_or, bitmap_xor, bitmap_andnot, bitmap_equal, bitmap_copy and bitmap_to_string: byte-wise loops that add only easy members.
- itoa and uitoa: the same loop as the 64-bit printers on a narrower type.
- Interrupt masking, context switching, port I/O, paging, drivers, the shell, strings and memory helpers, UART and keyboard rings: hardware plumbing or single-loop code.
- kernel/process/thread.c, kernel/user/user.c and system-call dispatch: they rest on memory management outside this model.

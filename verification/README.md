# Async++ in Dafny

Async++ is a C++11 task library with a work-stealing thread pool. This project models its
concurrent protocols and its parallel algorithms and proves what they are for: no task is lost
or run twice, no wake-up is lost, every continuation runs exactly once and never too early, a
graph of tasks always computes the same answer, and a parallel reduction gives the sequential one.

Two forms are used.

* **Protocols between threads** are step models: a `State`, a `Step` for each shared-memory access,
  `Enabled` and `Apply`, and runs (`Common.Trace`) in which the threads' steps interleave in any
  order. Threads' local variables are the parameters of their positions (`Owner`, `Thief`, `Mode`,
  `Adder`, `Producer`). Each has an inductive invariant (`...Proof`) and theorems about every run
  (`...Theorems`). What a theorem counts beyond the code's own variables is kept as history in the state.
* **Code that one thread runs at a time** is imperative: classes and methods with the source's fields
  and loops, proved against functions on values.

| files | what they model |
|---|---|
| `ChaseLev`, `ChaseLevProof`, `ChaseLevTheorems`, `ChaseLevHistory` | the work-stealing deque with one owner, any number of thieves, and growth while thieves hold old arrays |
| `ThreadPool`, `ThreadPoolProof`, `ThreadPoolTheorems`, `ThreadPoolConservation`, `ThreadPoolOrder`, `ThreadPoolProgress`, `ThreadPoolWakeups`, `ThreadPoolShutdown`, `ThreadPoolWaits`, `ThreadPoolWindow` | the worker loop with nested waits, scheduling, sleeping, waking and shutdown |
| `TaskCore`, `TaskCoreProof`, `TaskCoreTheorems`, `TaskCoreOutcome`, `TaskCoreOrder` | one task: state, result or exception, function, continuation vector, racing adders and setters |
| `TaskGraph`, `TaskGraphProof`, `TaskGraphLaws` | graphs of tasks built by spawn, then, unwrapping, events and when_all, also from inside tasks |
| `WhenAll` | the reference-counted shared state of when_all and when_any |
| `SpawnTree` | the recursive start of the pool's threads against the destructor's joins |
| `WorkStealQueue`, `FifoQueue`, `TaskWaitEvent`, `WaiterList` | the same queues, event and list as objects with fields: wrapping counters, masks, copy loops |
| `Partitioner`, `ParallelReduce`, `ParallelFor` | range splitting and the algorithms on it |
| `Bits`, `Common`, `PoolEvents` | masks and powers of two; `Option`, tasks, runs; event addresses, masks and the swap-removal |

Assumptions, because the code gives the property only with them:

* Memory is sequentially consistent; a weak compare-exchange may also fail for no reason.
* Schedulers do not throw, and neither does allocation in the step models (the sequential queues do
  model a failed allocation). Task functions may throw; that cancels their task.
* The reduction must be associative. What it must do with `init` is not assumed but characterised:
  see `ParallelReduce.SequentialIffAbsorbs`.
* That the continuation vector is flushed once per task is not assumed; it is a theorem about the task.

Two statements one might expect are false of the code, and are stated with their exact limits. Before
shutdown a task can be in the public queue while every worker sleeps, but only between an outside
thread's push and the signal that it gives next under the same lock (`NoLostWakeup`; in a
pool of any size some run gets there, `WindowIsReachable`). And a parallel reduction can differ from the
sequential one exactly when its extra copies of `init` are not absorbed (`SequentialIffAbsorbs`); for
addition each leaf adds one copy (`SumCountsLeaves`), so it is right for every range only if `init` is
zero (`AddNeedsZero`, with an input that fails in `AddFails`).

## Model

| member | source | states |
|---|---|---|
| ChaseLevProof.NextInv | src/work_steal_queue.h:104-182 | every access of the owner or of a thief keeps the invariant: the live indices fit the array and their slots hold the right tasks, also while an array is being copied or a pop has driven bottom below top |
| ChaseLevTheorems.StepRefines | src/work_steal_queue.h:124-182 | each step does to an abstract deque exactly one of: nothing, append the pushed task, remove the newest, remove the oldest; a pop reports empty only when the deque is empty at that step; a steal does so only then, or when the one task left is under an undecided pop |
| ChaseLevTheorems.RunRefines | src/work_steal_queue.h:104-182 | for every run, the effects of its steps in order are a legal sequential history that leads from the empty deque to its last state; the sequential deque may report an empty steal while one task is left |
| ChaseLevHistory.OwnerLinearizes | src/work_steal_queue.h:104-157 | when a push or pop returns it has had exactly one of those effects since its call, and the one that explains its answer: the pushed task appended, the returned task removed as the newest, or nothing found if it returns nothing |
| ChaseLevHistory.ThiefLinearizes | src/work_steal_queue.h:160-182 | when a steal returns it has had exactly one effect since its call, through any number of retries: the returned task removed as the oldest, or nothing found if it returns nothing |
| ChaseLevHistory.OwnerIsWaitFree | src/work_steal_queue.h:104-157 | push and pop end within a bounded number of the owner's own steps, whatever thieves do, the copy loop of grow included |
| ChaseLevHistory.StealIsLockFree | src/work_steal_queue.h:162-181 | steal ends within a few of the thief's own steps unless its compare-exchange fails, for no reason or because another thread has taken that task |
| ChaseLevTheorems.PopReturnsItsClaim | src/work_steal_queue.h:124-157 | a pop hands out the very task that its step removed from the abstract deque, once, and nothing else |
| ChaseLevTheorems.RunConserves | src/work_steal_queue.h:104-182 | in every state of every run the pushed tasks are the popped, the stolen, the one an unfinished pop has won, and the live ones; none is handed out more often than pushed |
| ChaseLevTheorems.StealReturnsOldest | src/work_steal_queue.h:166-180 | a thief whose compare-exchange succeeds returns the task that is oldest at that moment; one that fails for a reason has been overtaken |
| ChaseLevTheorems.StaleArrayIsRight | src/work_steal_queue.h:63-70 | an array a thief has loaded stays reachable through `previous` however often the owner grows, and while top is what the thief read its slot holds the oldest task |
| ChaseLevTheorems.SupersededArraysFrozen | src/work_steal_queue.h:110-120 | top never goes back, no array is freed, and a superseded array is never written again |
| ChaseLevTheorems.BottomBounds | src/work_steal_queue.h:124-157 | bottom is at least top - 1, is below top only inside a pop, and the live part never exceeds the array |
| WorkStealQueue.ToSignedRecovers | src/work_steal_queue.h:78-87 | the conversion recovers the true difference of two unbounded counters from their 64-bit words if and only if the difference fits |
| WorkStealQueue.SlotOfIndex | src/work_steal_queue.h:50-58 | masking a wrapped counter selects the slot of the unbounded index, across the wrap-around |
| WorkStealQueue.CircularArray.CopyLive | src/work_steal_queue.h:67-68 | the copy loop, whose guard compares wrapped counters, ends and preserves every live task |
| WorkStealQueue.CircularArray.Grow | src/work_steal_queue.h:63-70 | the new array has twice the size, holds the same live tasks, and keeps the old one as `previous` |
| WorkStealQueue.Queue.constructor | src/work_steal_queue.h:90-91 | a new queue is empty |
| WorkStealQueue.Queue.Push | src/work_steal_queue.h:104-121 | appends at the newest end, growing exactly when full; a failed allocation leaves the queue as it was |
| WorkStealQueue.Queue.Pop | src/work_steal_queue.h:124-157 | removes and returns the newest of the tasks that thieves leave, and reports empty exactly when they take all, for any number that they take between its two reads of top and for a lost or won race for the last task; the signed comparison is right when bottom is below top |
| WorkStealQueue.Queue.PopLast | src/work_steal_queue.h:148-155 | for the last task, won or lost, top and bottom end equal: the queue is empty and no counter is left behind the other |
| WorkStealQueue.Queue.Steal | src/work_steal_queue.h:160-182 | removes and returns the oldest task left, and reports empty exactly when none is, after any series of compare-exchanges lost to other threads or failed for no reason |
| WorkStealQueue.Queue.Destroy | src/work_steal_queue.h:92-101 | the destructor's loop ends and visits exactly the tasks left, oldest first |
| FifoQueue.Queue.constructor | src/fifo_queue.h:35-36 | a new queue is empty |
| FifoQueue.Queue.Push | src/fifo_queue.h:45-60 | appends; the capacity stays a power of two above the length and doubles exactly when one slot was left; a failed allocation leaves the queue as it was |
| FifoQueue.Enlarge | src/fifo_queue.h:49-51 | the growth loop puts the old contents, rotated to the front, at the start of an array of twice the size |
| FifoQueue.Queue.Pop | src/fifo_queue.h:63-73 | removes and returns the oldest task, or nothing exactly on an empty queue |
| FifoQueue.Queue.Destroy | src/fifo_queue.h:37-42 | the destructor releases exactly the tasks never popped, in order |
| FifoQueue.Remaining | src/fifo_queue.h:40-41 | the destructor's loop ends and visits exactly the slots from head up to tail |
| FifoQueue.WindowRotated | src/fifo_queue.h:50-54 | rotating the full ring to the front of a larger array preserves order and contents |
| ThreadPoolProof.NextInv | src/threadpool_scheduler.cpp:174-269 | every step of a worker, of a task it runs, of an outside thread or of the destructor keeps the pool's invariant |
| ThreadPoolTheorems.RunIsSafe | src/threadpool_scheduler.cpp:240-260 | in no run is a dead stack event signalled or listed, or the waiter array overrun |
| ThreadPoolTheorems.RoomToRegister | src/threadpool_scheduler.cpp:240-243 | however deep waits are nested, there is room in the array of one entry per thread |
| ThreadPoolTheorems.RunWaiterList | src/threadpool_scheduler.cpp:240-260 | in every state the entries belong to distinct workers, each is the live innermost event of a worker between registration and removal, and every worker asleep with an empty mask is listed |
| ThreadPoolTheorems.NoLostWakeup | src/threadpool_scheduler.cpp:402-440 | before shutdown, despite the unlocked read of num_waiters, the workers are not all asleep while a task is in the public or a local queue, save between an outside push and its signal |
| ThreadPoolTheorems.NeverSleepsOnWork | src/threadpool_scheduler.cpp:193-260 | in every state of every run a worker with a task in its own queue is not asleep, not registering and has not left, which is what the unlocked read of num_waiters relies on |
| ThreadPoolWakeups.ScheduleWakes | src/threadpool_scheduler.cpp:407-426 | in every state of every run in which a worker is no longer inside schedule(), since it pushed its latest task either nobody was waiting for a moment or one waiting event has been told that a task is available and has left the list |
| ThreadPoolWakeups.NoLockWithoutWaiters | src/threadpool_scheduler.cpp:412-418 | a worker that schedules a task asks for the pool's lock only if it has seen somebody on the list since it pushed the task |
| ThreadPoolWakeups.OutsideWakes | src/threadpool_scheduler.cpp:428-438 | the same for a thread outside the pool, in every state in which it has let go of the lock |
| ThreadPoolWakeups.ScheduleWakesLast | src/threadpool_scheduler.cpp:421-426 | the signal of schedule(), inside or outside the pool, ends the sleep of the worker last on the list and of nobody else |
| ThreadPoolWindow.WindowIsReachable | src/threadpool_scheduler.cpp:428-438 | that exception is real in a pool of every size: some run leads to a state in which everybody sleeps and a task is queued |
| ThreadPoolTheorems.QueuedTaskCanMove | src/threadpool_scheduler.cpp:193-267 | before shutdown, while a task is queued, some step of the pool is enabled: no deadlock on the pool's lock or its events |
| ThreadPoolProgress.QueuedTaskStarts | src/threadpool_scheduler.cpp:193-267 | from every state of every run before shutdown in which a task is queued, some finite number of steps of the pool itself, with nothing from outside, leads to a worker starting a task |
| ThreadPoolTheorems.WaitReturns | src/threadpool_scheduler.cpp:187-191 | a nested loop returns only when its task is final; its event is then in no list and known to no continuation, and an added continuation's bit is consumed by that return |
| ThreadPoolOrder.TopReturnsIff | src/threadpool_scheduler.cpp:187-191 | the check at the top of a waiting loop returns if and only if the task is final and no continuation can signal the event any more |
| ThreadPoolWaits.WaitsUntilFinal | include/async++/task_base.h:145-153 | in every state of every run, of each wait that a task on a pool thread has begun, a loop on that thread's stack still waits or the awaited task has finished |
| ThreadPoolOrder.FinalsHaveFinished | include/async++/scheduler.h:65-69 | a task counts as final in a run if and only if it has finished in it |
| ThreadPoolTheorems.TakenBitReturns | src/threadpool_scheduler.cpp:256-266 | once wait() has taken the finished bit the loop does nothing more before it returns |
| ThreadPoolTheorems.LeavesWhenDrained | src/threadpool_scheduler.cpp:208-224 | a main loop returns only after shutdown, with its own queue and the public queue empty |
| ThreadPoolTheorems.NoSleepAfterShutdown | src/threadpool_scheduler.cpp:217-218 | once shutdown is set no main loop goes to sleep |
| ThreadPoolTheorems.RunDrains | src/threadpool_scheduler.cpp:375-398 | after the shutdown block no main loop sleeps, and when the last worker has returned every queue is empty unless an outsider scheduled late |
| ThreadPoolWakeups.DestroySetsShutdown | src/threadpool_scheduler.cpp:375-386 | in every state after the destructor began and has let go of the lock, shutdown is set |
| ThreadPoolWakeups.DestroyWakesAll | src/threadpool_scheduler.cpp:382-386 | by then every event that was listed when the destructor took the lock has been told |
| ThreadPoolShutdown.ShutdownCompletes | src/threadpool_scheduler.cpp:375-398 | from every state of every run in which the destructor has begun and the tasks of nested waits are final, some finite number of the pool's own steps and of continuations firing leads to a state in which every worker has left, so the joins return |
| ThreadPoolShutdown.EveryStepDescends | src/threadpool_scheduler.cpp:185-268 | and after shutdown, with nothing left to fire, every step of a worker leads on: fewer queued tasks, or fewer active loops, or a worker further on, however the workers are scheduled |
| ThreadPoolShutdown.SomebodyMoves | src/threadpool_scheduler.cpp:185-268 | until every worker has left one of them can make such a step: nobody sleeps for good |
| ThreadPoolConservation.StepConserves | src/threadpool_scheduler.cpp:193-215 | every step moves tasks into, between and out of the queues without losing or copying one; workers start their own newest, a victim's oldest or the oldest public task |
| ThreadPoolConservation.RunConserves | src/threadpool_scheduler.cpp:402-440 | in every state of every run each scheduled task is in one queue or has been started, as often as it was scheduled |
| ThreadPoolConservation.EverythingRan | src/threadpool_scheduler.cpp:352-398 | when all workers have returned after shutdown, every task ever scheduled has been started exactly once, unless an outsider scheduled late |
| ThreadPoolOrder.PublicIsFifo | src/threadpool_scheduler.cpp:208-215 | what workers have taken from the public queue, followed by what is still in it, is what outside threads pushed, in that order |
| ThreadPoolOrder.LocalIsDeque | src/threadpool_scheduler.cpp:193-203 | each local queue is a legal history of the deque that the work-stealing queue is proved to be: its worker pushes and pops the newest, others steal the oldest |
| ThreadPoolOrder.TriesEverybody | src/threadpool_scheduler.cpp:149-170 | a worker goes from stealing to the lock only after trying every other worker in that round |
| ThreadPoolOrder.LateMeansPushedLate | src/threadpool_scheduler.cpp:428-432 | the exemption in the shutdown theorems holds exactly in runs in which an outside thread has pushed after shutdown was set |
| WaiterList.List.Add | src/threadpool_scheduler.cpp:241-243 | appends one event and changes nothing else |
| WaiterList.List.Remove | src/threadpool_scheduler.cpp:252-260 | the search loop with swap-removal does to array and counter exactly what the protocol's removal step does (SwapRemove), and nothing when the event is gone already |
| WaiterList.RemoveKeepsOthers | src/threadpool_scheduler.cpp:253-259 | removal takes out one entry if and only if it is there, and keeps all others |
| TaskWaitEvent.Event.constructor | src/task_wait_event.h:53-54 | a new event has nothing pending |
| TaskWaitEvent.Event.Signal | src/task_wait_event.h:96-105 | adds one event to those pending and keeps the other |
| TaskWaitEvent.Event.TryWait | src/task_wait_event.h:87-93 | takes one event out, says whether it was there, and keeps the other |
| TaskWaitEvent.Event.Wait | src/task_wait_event.h:76-84 | returns at the first moment when something is pending, with all of it, and clears it; blocks exactly while nothing has been signalled, also across wake-ups without cause |
| TaskWaitEvent.SignalsAccumulate | src/task_wait_event.h:96-99 | any number of signals in any order leave exactly the set of events signalled |
| SpawnTree.JoinsOnlyAssigned | src/threadpool_scheduler.cpp:396-397 | whenever the destructor comes to a handle, it has been assigned, by a thread of smaller id that has been joined already, even if the destructor started while threads were still spawning |
| SpawnTree.AtMostOnce | src/threadpool_scheduler.cpp:303-321 | in every state no id has two workers, no slot two assignments, and creators have smaller ids |
| SpawnTree.ExactlyOnce | src/threadpool_scheduler.cpp:303-321 | for every n >= 1, when all are joined each id in [0, n) has had one worker and each slot one assignment |
| SpawnTree.CanMove | src/threadpool_scheduler.cpp:328-336 | starting and joining never get stuck as long as workers return |
| SpawnTree.RunsEnd | src/threadpool_scheduler.cpp:303-336 | no run takes more than 6 n + 2 steps, so starting and joining come to an end |
| SpawnTree.LogarithmicStart | src/threadpool_scheduler.cpp:308-319 | each thread has its ids after at most 1 + log2(n - 1) rounds of splitting: threads are started in parallel |
| TaskCoreProof.NextInv | include/async++/continuation_vector.h:146-221 | every access of an adder, of the finishing thread or of a racing setter keeps the invariant of the task |
| TaskCoreTheorems.RunSchedulesOnce | include/async++/task_base.h:111-142 | in every state each continuation has been scheduled at most once, and none before the task is final |
| TaskCoreTheorems.QuiescentDelivered | include/async++/task_base.h:119-142 | when all threads are done exactly one setter has won, the task finished once, the vector was flushed once, and every continuation was scheduled exactly once |
| TaskCoreTheorems.NobodyStuck | include/async++/continuation_vector.h:160-172 | an adder or finisher that is not done can move, or the very thread that holds the vector's mutex can: the hand-off cannot deadlock |
| TaskCoreOrder.FlushedInOrder | include/async++/continuation_vector.h:205-220 | the flush schedules the stored continuations in the order in which they were stored, and all of them |
| TaskCoreOrder.ProducerAdvances | include/async++/task.h:146-169 | each step of a finishing thread brings it nearer to its end, and a setter that loses is told so at once; only the locking compare-exchange may have to be repeated |
| TaskCoreOrder.AdderAdvances | include/async++/continuation_vector.h:146-192 | each step of an adder brings it nearer to its end unless its compare-exchange fails |
| TaskCoreTheorems.FinalIsAbsorbing | include/async++/task_base.h:137-142 | a final state and its payload never change, and a final state is entered once |
| TaskCoreTheorems.RunStateConsistent | include/async++/task_base.h:266-279 | in every state the payload is the one the state's tag says, and the function has been destroyed at most once, exactly once when the task has finished or is gone |
| TaskCoreOutcome.FinishedHoldsPromise | include/async++/task_base.h:499-554 | in every state of every run in which the task is finished, it holds what its one winner brought when the run began: the value returned, the exception thrown, the outcome of the unwrapped task, or what was set on the event; it is completed if and only if that is a value |
| TaskCoreTheorems.DeleteDestroysFunc | include/async++/task_base.h:421-427 | the destructor finds the function alive if and only if the state is pending, so also for a task deleted while unwrapped |
| TaskCoreTheorems.DeleteReleasesTheRest | include/async++/continuation_vector.h:127-142 | at deletion each continuation was scheduled or is released, never both; a finished task has none left |
| TaskCoreTheorems.SomebodyWon | include/async++/task.h:146-169 | of any number of racing sets and exceptions exactly one wins, and every other caller is told that it lost |
| TaskCoreTheorems.StatePayload | include/async++/task_base.h:393-411 | state, payload, and the counts of finishes, flushes and destructions agree whoever is doing what |
| TaskGraphProof.RunSound | include/async++/task_base.h:457-612 | in every state of every run a finished task holds the outcome of direct recursive evaluation: value, or exception passed on through value continuations and unwrapped children |
| TaskGraphLaws.RunLaws | include/async++/task_base.h:457-612 | in every state of every run each finished task obeys a law about states alone: its outcome is fixed by the final outcomes of the tasks that it depends on, which are final |
| TaskGraphLaws.CancelledParentCancels | include/async++/task_base.h:541-556 | a value-based continuation of a cancelled task ends with the same exception |
| TaskGraphLaws.BodyDecides | include/async++/task_base.h:527-539 | in every other case, so for a task-based continuation however its parent ended, the body's return, throw or unwrapped task decides |
| TaskGraphLaws.OthersHold | include/async++/when_all_any.h:39-70 | when_all holds its inputs' outcomes each in its place; roots, events and made tasks hold what they were given |
| TaskGraphLaws.CreatedBy | include/async++/task_base.h:499-612 | a complete run has created the main program's tasks and those of bodies that ran on a suitable input, and no others |
| TaskGraphProof.Progress | include/async++/task.h:62-84 | while a task is unfinished some step is enabled |
| TaskGraphProof.CompleteRun | include/async++/task_base.h:499-612 | a run that can go no further has created exactly the tasks that exist and evaluated each |
| TaskGraphProof.Confluence | include/async++/task_base.h:393-411 | any two complete runs of a graph end in the same state, whatever the order of their steps |
| TaskGraphProof.RunsTerminate | include/async++/task_base.h:393-411 | no run takes more than four steps for each task |
| WhenAll.NeverTouchedAfterFree | include/async++/when_all_any.h:183-201 | neither the registration loop nor a continuation touches the shared state once it is freed, and it is not freed before the last registration |
| WhenAll.WhenAllResult | include/async++/when_all_any.h:41-70 | the event is set at most once, only when all inputs are final, to the list whose i-th entry is input i |
| WhenAll.WhenAnyResult | include/async++/when_all_any.h:86-120 | the event is set at most once and its index names an input that has finished |
| WhenAll.WhenAnyIsStable | include/async++/when_all_any.h:96-102 | the winner never changes |
| WhenAll.FirstWins | include/async++/when_all_any.h:95-120 | the winner of when_any is the input whose continuation ran first |
| WhenAll.CompletedOnce | include/async++/ref_count.h:50-56 | when nothing is left to do the event was set exactly once and the state freed |
| WhenAll.StepDecreases | include/async++/ref_count.h:50-56 | every step leads on, so every run comes to that end |
| Partitioner.AutoGrainSize | include/async++/partitioner.h:43-52 | the grain is the number in [1, 2048] nearest to the range's length divided by eight times the hardware concurrency |
| Partitioner.StaticPartitioner.SplitOff | include/async++/partitioner.h:70-83 | leaves the first half in place and hands out the second, or hands out an empty range |
| Partitioner.AutoPartitioner.SplitOff | include/async++/partitioner.h:105-131 | the same under a thread budget that is reset on migration and shared between the halves |
| Partitioner.StaticDivides | include/async++/partitioner.h:70-83 | a static part stays whole if and only if it is not above the grain or has one position |
| Partitioner.AutoDivides | include/async++/partitioner.h:105-131 | an auto part stays whole if and only if that is so or its budget is at most one: its own in the thread that split it last, the hardware concurrency in any other |
| Partitioner.MigrationDivides | include/async++/partitioner.h:113-116 | a part above its grain that has moved to another thread is divided again, whatever is left of its budget |
| Partitioner.DividesInHalf | include/async++/partitioner.h:70-131 | either partitioner divides in the middle, an odd position going to the first half |
| Partitioner.BudgetIsShared | include/async++/partitioner.h:126-129 | the budgets of the halves add up to that of the whole, differ by at most one, and both remember the thread |
| Partitioner.LeavesConcatenate | include/async++/partitioner.h:70-131 | the leaves of any split tree, in order, are the original range |
| Partitioner.StaticPieceSize | include/async++/partitioner.h:70-83 | a static piece at depth d of n positions has floor or ceiling of n / 2^d of them |
| Partitioner.StaticLeafAtMostGrain | include/async++/partitioner.h:70-83 | with a grain of at least one no static leaf exceeds it |
| Partitioner.LeafAtLeastHalfGrain | include/async++/partitioner.h:70-131 | after a split no leaf of either partitioner is below half the grain, rounded up |
| Partitioner.AutoLeaves | include/async++/partitioner.h:105-131 | without migration there are at most hardware_concurrency leaves |
| Partitioner.NewAutoLeavesExactly | include/async++/partitioner.h:105-131 | without migration a new partition of more than (hc - 1) * (grain + 1) positions has exactly hardware_concurrency leaves |
| ParallelReduce.MapReduce | include/async++/parallel_reduce.h:40-57 | the recursive algorithm computes the fold of the split tree that its splits make, for every migration of its halves between threads, and ends for every grain |
| ParallelReduce.TreeIsFold | include/async++/parallel_reduce.h:40-57 | any split tree gives the sequential left fold if the reduction is associative and absorbs extra copies of init |
| ParallelReduce.SequentialIffAbsorbs | include/async++/parallel_reduce.h:45-56 | for an associative reduction the answer is always the sequential one if and only if f(f(init, a), f(init, b)) = f(f(init, a), b) for all a and b; a left identity satisfies this |
| ParallelReduce.SumCountsLeaves | include/async++/parallel_reduce.h:45-56 | for integer addition and any init the answer is the sum plus init times the number of leaves |
| ParallelReduce.AddNeedsZero | include/async++/parallel_reduce.h:45-56 | for addition the answer is always the sequential one if and only if init is zero |
| ParallelReduce.AddFails | include/async++/parallel_reduce.h:45-56 | an input that shows it: two zeros in leaves of one element with init 1 give 2 instead of 1 |
| ParallelReduce.ParallelMapReduce | include/async++/parallel_reduce.h:62-66 | over a plain range the result is that of an auto partitioner with the automatic grain, and the sequential fold whenever it can be |
| ParallelFor.For | include/async++/parallel_for.h:31-47 | the calls made are an interleaving of the leaves of the split tree, and the recursion ends for every grain |
| ParallelFor.VisitsEachOnce | include/async++/parallel_for.h:31-47 | every position of the range is visited exactly once and nothing else is |
| ParallelFor.LeavesKeepOrder | include/async++/parallel_for.h:35-37 | within a leaf positions are visited from first to last |
| ParallelFor.ParallelFor | include/async++/parallel_for.h:51-56 | over a plain range of n positions each is visited exactly once, along an auto partition with the automatic grain |

## Left out

- ChaseLevTheorems.RunRefines: sequentially consistent steps and unbounded indices; the memory orders, the fences, and a 64-bit top that wraps all the way round between a thief's load and its compare-exchange are not modelled.
- ThreadPoolTheorems.NoLostWakeup: exempts the moment between an outside thread's push and its signal, because there the statement is false (ThreadPoolWindow.WindowIsReachable).
- ThreadPoolTheorems.RunDrains: says nothing of the public queue when a thread outside the pool schedules after shutdown is set; such a task may stay in it.
- ThreadPoolProgress.QueuedTaskStarts: says that the pool can go on, not that a scheduler of threads must let it; adding a continuation and running a flush are non-blocking steps there, so no claim is made about the order of the pool's lock and a continuation vector's mutex.
- WhenAll.WhenAnyResult: the list of tasks in a when_any result is not modelled, because the winner may move it while the registration loop is still filling it.
- WorkStealQueue.Queue.Pop: other threads act at the two points that its parameters name, not between any two accesses, and not inside Push; arbitrary interleavings are in the concurrent model.
- WorkStealQueue.Queue.Steal: other threads act just before a compare-exchange; arbitrary interleavings are in the concurrent model.
- The concurrent objects (deque, pool, task, continuation vector, shared state of when_all) are step relations on values rather than classes with fields, because their methods are interrupted between any two accesses; allocation addresses are positions in a sequence.
- The local queues inside the thread-pool model are abstract deques, as ChaseLevTheorems.StepRefines justifies; a steal may miss a single task that its victim is popping.
- The last access of a critical section and the release of its lock are one step; spurious wake-ups are modelled in TaskWaitEvent and are harmless re-tests in the pool.
- A part that can no longer be split carries an unspecified thread budget in the source; the model gives it 0, and nothing reads it.
- Throwing paths: throwing schedulers, `then()` throwing inside when_all or when_any, allocation failure outside the two queues.
- when_all and when_any of an empty range or of a tuple: the first returns a finished task (the graph model has it as a when_all without inputs), the second is the same protocol with a fixed n.
- task_run_handle and ref_count_ptr as objects of their own: their ownership rules appear as the single producer of a task and as the references of when_all.
- The random order of victims is any order; pre-run and post-run hooks, run_with_wait_handler and user wait handlers are left out.
- Platform code: emulated thread-local storage, the Windows and broken-join shutdown variants, aligned allocation, singletons, environment variables.
- Type traits and overload wrappers, parallel_invoke, integer ranges, cancellation tokens, local_spawn's storage, the examples: easy or without behaviour of their own.

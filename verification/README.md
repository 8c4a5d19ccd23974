# Cortex Forge driver: a verified model of the task lifecycle

The Cortex Forge kernel driver accepts inference tasks through ioctls, keeps them in a fixed pool
of slots, queues them per accelerator and runs them on one worker thread per accelerator. Workers
and any number of ioctl callers share the slots. Lists are locked, but task state, times, load,
queries and cancels are not. This project models the four files that are built (`src/main.c`,
`src/task_manager.c`, `src/accel_manager.c`, `src/chardev.c`) and proves what holds over every
interleaving and every run.

The numbers of slots, accelerators and callers, the timer frequency and the boot-time value of the
tick counter are arbitrary.

## How it is built

- `Types.dfy`, `Memory.dfy`: the C structures as records; the effect of each assignment and locked
  region on shared memory; 32- and 64-bit wrap-around written out.
- `Steps.dfy`: the driver as a transition system. A step is one C assignment, one shared read or
  one locked region of one thread; a clock tick; or a stop request. Fields named as history
  (enqueue logs, phases, true ticks) record what happened and influence nothing.
- `Invariant.dfy`, `Preservation.dfy`, `ClientPreservation.dfy`, `WorkerPreservation.dfy`,
  `Runs.dfy`: the invariant of all reachable states and its proof, thread by thread.
- `Placement.dfy`, `Fifo.dfy`, `Timing.dfy`, `Progress.dfy`, `TaskLife.dfy`, `Shutdown.dfy`,
  `Scans.dfy`, `Answers.dfy`, `Waits.dfy`, `Moments.dfy`, `Replies.dfy`: the facts about whole runs.
- `Abstract.dfy`, `Refinement.dfy`, `StageRefinement.dfy`: the driver as a map from ID to record, a
  FIFO queue per accelerator and a stage per task that fixes the order of the moves, and the proof
  that every run of the step system is one of its runs.
- `Protocol.dfy`, `Outcomes.dfy`: what that abstract driver guarantees by itself (each move once and
  in order, the last writer decides), and what it says about the final state and error code of a
  task in the running driver.
- `IdZero.dfy`: a run in which the unlocked scan is wrong, and exactly when it can be.
- `Extensions.dfy`: how any run can be continued by one worker, or one caller, by itself.
- `LostCancel.dfy`, `Priority.dfy`, `Stopping.dfy`: runs in which an accepted cancel has no effect,
  in which the less urgent task goes first, and in which a thread has returned before kthread_stop;
  and when exactly each of these happens.
- `IntrusiveList.dfy`, `Device.dfy`, `Clock.dfy`, `Lifecycle.dfy`: the code in its own imperative
  form (arrays, linked lists through embedded nodes, loops, in-place updates), proved against the
  effects of `Memory.dfy` and the whole calls of `Calls.dfy`.
- `Alone.dfy`, `WorkerAlone.dfy`: the caller and worker programs of the step system, run without
  interference, compute the same whole calls and iterations, so the step system and the imperative
  methods describe one program.
- `PoolRuns.dfy`: the pool by itself, with slots coming back into use.

## What the model shows about the code

- A call for ID 0 can match a task whose ID is not 0, if the slot is allocated and published
  between the scan's read of `id` and its read of `state`. For every other ID the scan is right.
- A cancel that writes before the worker has written COMPLETE is overwritten, although it reports
  success (`LostCancel.AcceptedCancelIsLost` is such a run). The final state is CANCELLED exactly if
  some cancel found COMPLETE in the slot when it wrote. A caller is safe if a query shows COMPLETE
  before the cancel; if the slot already shows CANCELLED, no query tells which case it is.
- State and error code need not agree in the end: a cancel that is overtaken between its first two
  writes leaves COMPLETE with -ECANCELED.
- `accel_stop_workers` clears `running` before it calls kthread_stop, and nothing keeps the worker in
  its loop between the two calls: its thread function may have returned by then. It has exactly if
  the worker has tested `running` in between.
- A retired slot is never returned to the free list: N slots serve N tasks per module load, and
  then every submit fails with -ENOMEM.
- Queues ignore priority, although `include/cortex_forge_task.h` calls a higher one more urgent. The
  order of starts agrees with the priorities exactly if tasks that wait together arrived in it.
- A timeout of 0 runs for 10 ms; the header says "no timeout". A timeout is how long a task runs.
- `status` carries the driver's own state number, one more than the number that
  `include/cortex_forge_uapi.h` gives the same state. The model speaks of states, not numbers.

## Model

| member | source | states |
|---|---|---|
| `Types.ElapsedIsExact` | src/accel_manager.c:82-83 | Subtracting wrapped tick counters gives the true elapsed ticks, across any wrap, if fewer than 2^64 passed |
| `Types.ElapsedNeverTooBig` | src/accel_manager.c:83 | With no bound at all the wrapped difference is never more than the true one, so a deadline is never seen early |
| `Types.ExecUsecExactIffNoOverflow` | src/task_manager.c:126 | The exec_usec expression is the true time in microseconds, rounded down, if and only if the 64-bit product does not overflow |
| `Types.TicksAreMilliseconds` | src/accel_manager.c:81 | msecs_to_jiffies is the time in ticks, rounded up by less than one tick, below 2^31 ms, and a fixed "for ever" from there on |
| `Types.TicksAtLeast` | src/accel_manager.c:81 | For every 32-bit number of milliseconds the ticks waited are at least that time |
| `Types.TicksMonotone` | src/accel_manager.c:81 | A longer timeout never waits fewer ticks, and "for ever" waits more than any finite one |
| `Types.MinRunIsMilliseconds` | src/accel_manager.c:79-93 | The least run of a task is its timeout, or 10 ms if that is 0, rounded up by less than one tick |
| `Runs.StepInv` | src/accel_manager.c:59-109 | Every step of every thread keeps the invariant on slots, lists, times and program counters |
| `Runs.DriverInv` | src/main.c:51-61 | Every state of every run that starts as probe leaves the driver satisfies that invariant |
| `Runs.NeverStuck` | src/chardev.c:40-96 | Any enabled step of any thread extends the run: no pointer a thread holds ever leaves its array |
| `Placement.ExactlyOnePlace` | src/task_manager.c:50-59 | In every reachable state each slot is in exactly one of: free list, one submitting caller, one task_queue, one active_tasks, retired |
| `Placement.ListsDistinct` | src/accel_manager.c:69-73 | No list holds a node twice, and no slot is enqueued twice on an accelerator |
| `Placement.ListOperationsLegal` | src/accel_manager.c:72-73 | list_add_tail is only given detached nodes, list_del only the head of the queue, which is then on no other list and its active list empty, or the one node of active_tasks; task_free is never reached |
| `Placement.PoolConserved` | src/task_manager.c:26-78 | Free, held, listed and retired slots always add up to the pool; free slots plus issued IDs do too |
| `Placement.CapacityIsFinal` | src/chardev.c:55-57 | Submit answers -ENOMEM exactly when all slots have been issued; at most N tasks are queued in a run |
| `Fifo.RetiredActiveQueuedIsLog` | src/accel_manager.c:68-74 | Retired, then active (at most one), then queued tasks are exactly the enqueue log, without repetition, on the accelerator asked for |
| `Fifo.NobodyOvertakes` | src/task_manager.c:96-98 | The task at queue position k is retired exactly when the worker has retired k+1 tasks since, plus one it may have been running |
| `Fifo.TakesOldest` | src/accel_manager.c:69-73 | A worker takes the oldest task of its log that was not taken, whatever its ID or priority |
| `Timing.SerialExecutionBound` | src/accel_manager.c:68-95 | A task finishes no earlier than its enqueue tick plus the timeouts, in milliseconds (10 where there is none), of all tasks queued before it and its own, and runs for its own at least, if none was disturbed |
| `Timing.AheadIsTheQueue` | src/task_manager.c:96-98 | The tasks that bound counts as ahead are the queue's contents at the enqueue |
| `Timing.DisturbedOnlyByCancelOrStop` | src/accel_manager.c:83-88 | A run is disturbed only by a cancel's write while the task runs, or by a stop seen in the wait loop |
| `Progress.BoundedProgress` | src/accel_manager.c:59-109 | While running stays 1, a queued task is retired within a number of its worker's steps fixed by the tasks in front, whatever else happens |
| `Progress.WaitUsesOne` | src/accel_manager.c:79-93 | Every step of the wait loop comes nearer to its end, by the clock or by the program, and a look at the state that finds anything but RUNNING ends it |
| `Progress.NeverBlocked` | src/accel_manager.c:59-66 | While running stays 1 the worker never leaves its loop and is never blocked beyond its sleep |
| `Waits.CancelEndsWait` | src/accel_manager.c:83-88 | In every run, once the task a worker waits for shows CANCELLED it starts no further sleep and takes the completion time after at most four of its own steps |
| `Waits.NapIsOneMillisecond` | src/accel_manager.c:85 | A sleep of the wait loop follows a look that found RUNNING and asks for one millisecond, rounded up to a tick |
| `Waits.TimeoutDecides` | src/accel_manager.c:79-93 | Without a timeout the worker sleeps for 10 ms, rounded up to a tick; with one it enters the wait loop |
| `Waits.ClockEndsWait` | src/accel_manager.c:83 | A look at the clock ends the wait if the timeout has passed and never before, within one tick |
| `TaskLife.StateMachine` | src/task_manager.c:93 | The only state writes are FREE to PENDING, the worker's RUNNING and COMPLETE at their stages, and a cancel of a task that is not FREE; FAILED is unreachable and no task becomes FREE again |
| `TaskLife.MarkedOnce` | src/accel_manager.c:76-96 | Each task is marked RUNNING at most once and COMPLETE at most once in a run |
| `TaskLife.RetiredIsFinal` | src/accel_manager.c:95-103 | After retirement done and both times are fixed, only COMPLETE to CANCELLED and an error code of -ECANCELED can still happen, and CANCELLED is permanent |
| `TaskLife.CancelLastsIffLate` | src/accel_manager.c:96 | The last cancel of a task shows in its final state if and only if the worker had written COMPLETE before it (a history phase; the next rows say it without history) |
| `Outcomes.FinalState` | src/accel_manager.c:96 | After the worker's write of COMPLETE the state is CANCELLED if and only if some cancel wrote it since, else COMPLETE |
| `Outcomes.FinalError` | src/accel_manager.c:97 | After the worker has cleared the error code it is -ECANCELED if and only if some cancel wrote it since, else 0 |
| `Outcomes.CancelLastsIffItFoundComplete` | src/task_manager.c:152 | The final state is CANCELLED if and only if some cancel wrote while the slot showed COMPLETE |
| `Outcomes.CancelOfCompleteLasts` | src/task_manager.c:142-159 | A task that shows COMPLETE before an accepted cancel is called shows CANCELLED from the answer on, for ever |
| `LostCancel.EarlyCancelCanBeLost` | src/accel_manager.c:76-96 | After any accepted cancel of a queued or running task the worker and the clock alone can bring it to COMPLETE |
| `LostCancel.AcceptedCancelIsLost` | src/task_manager.c:152-155 | A run from the driver's start in which a cancel is accepted and the task ends COMPLETE |
| `LostCancel.SplitCancel` | src/task_manager.c:152-153 | Any cancel overtaken between its first two writes can leave COMPLETE with -ECANCELED |
| `LostCancel.CompleteWithError` | src/task_manager.c:153 | A run from the driver's start that ends so |
| `TaskLife.CompleteShowsOnlyAfter` | src/accel_manager.c:95-96 | A slot shows COMPLETE only once the worker has stamped it, and from then on only COMPLETE or CANCELLED |
| `Scans.ScanAgreesWithMap` | src/task_manager.c:118-133 | In one state at most one slot matches an ID, and one does exactly for the IDs of the map, which lie in 1..next_task_id |
| `Scans.FindableForEver` | src/task_manager.c:121 | An ID that can be found stays findable for the rest of the run |
| `Scans.NotFoundMeansUnknown` | src/task_manager.c:147-158 | A query or cancel answering -ENOENT is right: the ID was not in the map when the call began |
| `Scans.MatchIsTheTask` | src/task_manager.c:150-154 | From match to last access, a call for a non-zero ID works on that ID's slot, which stays published: unlocked check-then-write is safe |
| `Scans.QueryIsAtomic` | src/task_manager.c:121-130 | A query for a non-zero ID reports ID, state and (if COMPLETE) time of its record at one moment during the call, and the record's error code at a later moment of it |
| `Scans.CompleteReportsTrueTime` | src/task_manager.c:126 | A reported COMPLETE carries the time from the true submission tick to the true completion tick, exact if and only if the product fits |
| `Moments.RecordedTicks` | src/accel_manager.c:82-95 | The ticks recorded for a task's submission, start and completion are the clock's at exactly those steps |
| `Moments.ReportedTimeIsElapsed` | src/task_manager.c:126 | A reported COMPLETE carries the microseconds from the step that stamped the submission to the one that stamped the completion, if and only if the product fits |
| `IdZero.ZeroCanMatchAnotherTask` | src/task_manager.c:121 | A concrete run in which a query or cancel for ID 0 matches the task with ID 1 |
| `IdZero.ScanIsRightIffIdNotZero` | src/task_manager.c:150 | A scan matches only the task asked for, in all runs, if and only if the ID is not 0 |
| `Answers.SubmitAnswersItsTask` | src/chardev.c:55-77 | A submit that returns an ID: unknown before, known now, with the caller's descriptor field by field, queued on the accelerator it names |
| `Answers.CopyOutFaultKeepsTask` | src/chardev.c:74-76 | A submit whose copy-out fails reports -EFAULT, yet its task stays queued and known |
| `Answers.CancelDidCancel` | src/task_manager.c:152-155 | A successful cancel of a non-zero ID has written CANCELLED into that task during the call |
| `Answers.DescriptionKept` | src/chardev.c:59-65 | A slot's description is written by its own submitter only |
| `Replies.CopyInFault` | src/chardev.c:44-104 | Every call whose copy-in fails answers -EFAULT and does nothing |
| `Replies.BadDescriptor` | src/chardev.c:46-53 | A descriptor over a limit is answered by the first check it fails: -EINVAL for type and flags, -E2BIG for either size |
| `Replies.SubmitsKeepLimits` | src/chardev.c:46-67 | In every reachable state a submit past its checks has an existing type, no flags and sizes of at most 64 MiB |
| `Replies.SubmitReply` | src/chardev.c:55-77 | A submit within the limits answers -ENOMEM if and only if it found the pool empty, -EFAULT if and only if its copy-out failed, else an ID |
| `Replies.QueryReply` | src/task_manager.c:118-133 | A query answers -ENOENT if and only if its scan went past every slot, -EFAULT if and only if its copy-out failed, else a status |
| `Replies.CancelReply` | src/task_manager.c:147-158 | A cancel answers -ENOENT if and only if its scan went past every slot, else success |
| `Replies.InfoReply` | src/chardev.c:98-113 | GET_ACCEL_INFO answers -EINVAL if and only if the type does not exist, -EFAULT if and only if its copy-out failed, else the load the named accelerator had at one moment of the call |
| `StageRefinement.DriverRefines` | src/task_manager.c:44-159 | Every run, seen as ID map, queues, running tasks, loads and stages, is a run of the abstract driver from no tasks: each move of each task once and when it is due |
| `StageRefinement.StepRefines` | src/chardev.c:40-96 | Every step of every thread is one permitted abstract action, or none |
| `Protocol.MovedOnce` | src/accel_manager.c:72-102 | In any run of the abstract driver two moves of one task are made in the order of the stages, so none twice: it is queued, run, completed and retired at most once |
| `Protocol.NothingSkipped` | src/accel_manager.c:72-102 | A task past a stage was moved on from it by some action: no write of the worker is left out |
| `Protocol.LastWriterDecides` | src/task_manager.c:152-154 | In every abstract run state, error code and completion of every record are given exactly by which of worker and cancels wrote them last |
| `Refinement.KeyedById` | src/task_manager.c:57 | Every published slot is found in the map under its own id field |
| `Shutdown.LoadIsTenOrZero` | src/accel_manager.c:77-98 | The load is 10 exactly between the worker's two unlocked updates and 0 otherwise; neither clamp bites |
| `Shutdown.InfoIsTenOrZero` | src/accel_manager.c:169-180 | Every answer of GET_ACCEL_INFO has load 0 or 10 |
| `Shutdown.ExitIsClean` | src/accel_manager.c:65-66 | A worker that left its loop has an empty active list, only retired and signalled tasks behind it, and the unstarted rest of its log as queue |
| `Stopping.ReturnsBeforeKthreadStop` | src/accel_manager.c:156-158 | A run from the driver's start in which the worker has left its loop, without having been asked by kthread_stop, and kthread_stop can still be called |
| `Stopping.ExitedIffTested` | src/accel_manager.c:59-66 | Once `running` is cleared the worker is out of its loop if and only if it has tested the flag since |
| `Stopping.CanReturnOnItsOwn` | src/accel_manager.c:156-158 | From any moment after `running` is cleared the worker can leave its loop by its own steps and the passing of time, before or after kthread_stop is called |
| `Stopping.StopIsBounded` | src/accel_manager.c:148-162 | After both calls a worker takes at most 15 more steps of its own, completes at most one more task, and is then out of its loop |
| `Extensions.RunDown` | src/accel_manager.c:59-109 | While `running` is set, any run can go on by the worker's own steps and the passing of time until any queued task is retired |
| `Priority.LessUrgentFirst` | src/accel_manager.c:71 | A run from the driver's start in which a worker takes a task while a more urgent one waits behind it |
| `Priority.PriorityIffArrivalOrder` | src/accel_manager.c:68-74 | Takes agree with priorities throughout a run if and only if tasks that waited together arrived in order of priority |
| `Calls.SubmitCallMeans` | src/chardev.c:55-72 | A whole submit: head of the free list, next ID, every descriptor field, PENDING, end of one queue, nothing else |
| `Calls.IterationCallMeans` | src/accel_manager.c:68-104 | A whole worker iteration: oldest task COMPLETE, stamped and signalled, off both lists, load restored, nothing else |
| `Calls.CancelSlotMeans` | src/task_manager.c:147-156 | Cancelling writes CANCELLED, -ECANCELED and the completion of one record; it is idempotent and changes no scan's result |
| `Alone.SubmitAlone` | src/chardev.c:55-77 | The submit program of the step system, run alone, computes that submit and answers with its ID |
| `Alone.QueryAlone` | src/task_manager.c:118-133 | The query program, run alone, answers with the first match or -ENOENT and changes nothing |
| `Alone.InfoAlone` | src/chardev.c:108-113 | The GET_ACCEL_INFO program, run alone, answers with the load of the accelerator it names and changes nothing |
| `Alone.CancelAlone` | src/task_manager.c:147-158 | The cancel program, run alone, cancels the first match or answers -ENOENT |
| `WorkerAlone.WorkerAloneIterates` | src/accel_manager.c:68-104 | The worker program, with no callers moving, turns memory into that whole iteration, whatever ticks and stop requests fall into it |
| `IntrusiveList.Arena.constructor` | src/accel_manager.c:39-40 | List heads start as empty rings over detached nodes |
| `IntrusiveList.Arena.IsEmpty` | src/task_manager.c:51 | The head's own pointer tells whether the list is empty |
| `IntrusiveList.Arena.First` | src/task_manager.c:53 | The head's next pointer is the first element |
| `IntrusiveList.Arena.AddTail` | src/task_manager.c:97 | Appends a detached node to one list; all rings stay well linked and the other lists unchanged |
| `IntrusiveList.Arena.Del` | src/accel_manager.c:102 | Takes one node out of its list; all rings stay well linked and the node is on no list |
| `Device.Driver.constructor` | src/main.c:51-61 | The device as probe builds it is the initial memory: all slots free in order, all queues empty, loads 0 |
| `Device.Driver.TaskPoolInit` | src/task_manager.c:26-35 | Every slot is FREE with its completion reset, and the free list holds them all in order |
| `Device.Driver.AccelInit` | src/accel_manager.c:26-43 | The structure gets the caller's type and the eight fixed figures, nothing of the old one survives; abstractly one load becomes 0 and tasks, lists and other accelerators stay |
| `Device.Driver.TaskAlloc` | src/task_manager.c:44-62 | NULL exactly when the free list is empty; else its head, zeroed, detached, with the next ID, which is 0 after 2^32 - 1 |
| `Device.Driver.TaskFree` | src/task_manager.c:70-78 | The slot becomes FREE and goes to the back of the free list |
| `Device.Driver.TaskSubmit` | src/task_manager.c:86-102 | -EINVAL and no change for a bad type; else PENDING, stamped and at the end of the queue |
| `Device.Driver.TaskQuery` | src/task_manager.c:111-134 | The first matching slot's status, -EFAULT if it cannot be copied out, -ENOENT if nothing matches |
| `Device.Driver.TaskCancel` | src/task_manager.c:142-159 | The first matching slot is cancelled, or -ENOENT and no change |
| `Device.Driver.AccelGetInfo` | src/accel_manager.c:169-181 | All figures of the accelerator named, under the caller's own accel_type |
| `Device.Driver.FillSlot` | src/chardev.c:59-65 | The seven descriptor assignments, and nothing else |
| `Device.Driver.IoctlSubmit` | src/chardev.c:40-78 | Every error code by the field that causes it, in order; memory changes only for a readable descriptor within all limits and a free slot; a failed copy-out leaves the task queued |
| `Device.Driver.TakeFirst` | src/accel_manager.c:68-74 | The head of the queue moves to the end of the active list |
| `Device.Driver.StartTask` | src/accel_manager.c:76-77 | The worker's one write RUNNING among any writes of cancels, and the load raised by 10, at most to 100 |
| `Device.Driver.FinishTask` | src/accel_manager.c:95-99 | The worker's writes stamp, COMPLETE, error 0 and completion, in this order, among any writes of cancels; load lowered by 10 |
| `Device.Driver.Release` | src/accel_manager.c:101-103 | The task leaves the active list |
| `Device.Driver.WorkerIteration` | src/accel_manager.c:68-108 | One iteration with cancels writing the records, and stop requests, between any two statements: lists and load as in an undisturbed one, the exact surviving state and error code, and the run-time bounds |
| `Device.Driver.DeadlineWait` | src/accel_manager.c:79-89 | The loop lasts at least the timeout and less than it plus one sleep, in ticks and in milliseconds, unless cut short; at most one sleep after a cancel or a stop |
| `Clock.Survivors` | src/accel_manager.c:95-99 | Of any mixture of one iteration's writes with writes of cancels: CANCELLED survives exactly if written after COMPLETE, -ECANCELED exactly if written after the clearing; stamped and signalled always |
| `Clock.CompleteIsStamped` | src/accel_manager.c:95-96 | At no moment of an iteration, with cancels in between, does the record show COMPLETE without the completion time |
| `Lifecycle.Board.StartWorkers` | src/accel_manager.c:120-141 | On failure at worker f exactly 0..f-1 were started, in order, then each is stopped once and cleared, f's error is returned and the workers from f on are untouched; else all are started |
| `Lifecycle.Board.StopWorkers` | src/accel_manager.c:148-162 | Every started worker of the range is told to stop, stopped once, in order, and cleared; nothing else happens |
| `Lifecycle.Board.KthreadStop` | src/accel_manager.c:158 | Only ever called on a pointer kthread_run returned, never on NULL or an error pointer, with running already 0; the thread may have returned by then (see Stopping) |
| `Lifecycle.Board.AddDevice` | src/main.c:90-106 | With the region held: cdev and node added, or the first error with the region given up too, newest first |
| `Lifecycle.Board.Register` | src/main.c:85-113 | With all workers started: region, cdev and device node held, or the first error with everything given back, newest first |
| `Lifecycle.Board.Probe` | src/main.c:37-114 | For each request in order: if it is the first to fail, its own error is returned and exactly these starts, stops, acquisitions and releases were made; 0 if and only if every request is granted, with workers, region, cdev and node held |
| `Lifecycle.Board.Remove` | src/main.c:116-125 | After a successful probe, gives everything back, newest first, and nothing else |
| `Lifecycle.EachUndoneOnce` | src/main.c:80-125 | On every path of probe a granted step is made exactly once, and undone exactly once if probe fails, others never; after success remove undoes each exactly once |
| `Lifecycle.EachUndone` | src/main.c:85-113 | In any trace the bracket discipline accepts, each acquisition was undone as often as made, except those still held |
| `PoolRuns.PoolConserves` | src/task_manager.c:44-78 | For any sequence of task_alloc and legal task_free: free plus outstanding is N, NULL exactly at N outstanding, first freed first reused, distinct IDs until the counter wraps |

## Left out

- Scans.QueryIsAtomic: says nothing of exec_usec in states other than COMPLETE, and takes error_code from a later moment than the state, because the UAPI header declares them meaningless there and the unlocked reads do not make them consistent.
- Scans.MatchIsTheTask: only for non-zero IDs, because for ID 0 it is false (see IdZero).
- Answers.CancelDidCancel: only for non-zero IDs, for the same reason.
- Progress.BoundedProgress: counts worker steps and assumes fewer than 2^64 ticks since boot, because a jump of a whole counter period would make the deadline loop start over.
- Device.Driver.IoctlSubmit: the task_free branch is shown to be dead rather than executed; TaskFree itself is modelled and used in PoolRuns.
- Device.Driver.WorkerIteration: between its statements cancels and stop requests happen, but no submits, because its lists are changed under locks; the step system interleaves everything. Time passes in its sleeps only.
- Weak memory and torn accesses: shared reads and writes are sequentially consistent, and a region under the spinlock or a mutex is one step. Inside task_alloc only the final store of `id` can be seen from outside, since the slot is already zero.
- The seven assignments that fill a task are one step of the step system, since no other thread reads those fields before the task is queued. The two operands of the exec_usec subtraction are read completion first; C leaves the order open and both are final when the state read was COMPLETE.
- wake_up and the wait condition: the worker's wait may return at any time, so no result depends on them.
- The stopping thread: its requests may come at any time and in any order the two calls per worker allow, which includes what remove and a failed probe do. That kthread_stop waits for the thread is not modelled as a step; Stopping bounds how long it would. What the kernel does when the thread has already returned is not part of this model.
- msleep and the timer: a sleep lasts at least the ticks asked for; msecs_to_jiffies is the rounded-up product with the frequency, or an endless wait when the top bit is set.
- kernel list.h is not part of this model's sources: list_add_tail, list_del and the rest are the usual operations on circular doubly linked lists. Poisoning of deleted nodes is not modelled.
- copy_from_user and copy_to_user succeed or fail freely; user memory is not modelled.
- The device-managed resources of probe (memory, MMIO, clocks, reset, interrupt) appear only as answers that may fail; devres releases them.
- SET_POWER, GET_VERSION, GET_PROFILE, SET_ACCEL, unknown commands, open and release: range checks and constants.
- Names of accelerators, device and class registration, module init and exit.
- Files that are not built: the older single-file driver, the platform, interrupt, sysfs, debugfs and second chardev stubs, and the userspace library.

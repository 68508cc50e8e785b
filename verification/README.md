# A verified model of the ASER runtime

ASER forks a set of benchmark processes, holds each of them before `exec` until all are
prepared, waits for the first to end with one thread per process, and meanwhile lets a monitor
thread act on the workload: move the processes between the CPUs, or sample their counters.
This project models that code in Dafny and proves what it keeps, over all inputs, all runs and
all interleavings. `dafny verify dfyconfig.toml` checks everything.

| file | models |
|---|---|
| `HopperSpec.dfy`, `CpuHopper.dfy` | the CPU hopper's bookkeeping, as functions and as the class that updates a map and an array |
| `HopperRotation.dfy`, `HopperRuns.dfy`, `Modular.dfy` | what the first-free search makes of it: one hole, an exact rotation, fairness, and when a run fails |
| `HopperEventLoop.dfy` | the hopper driven by the monitor's loop |
| `ExecMonitor.dfy` | the monitor thread, its event queue and the end flag |
| `ConcurrentQueue.dfy` | the queue with its mutex and condition variable, for any number of threads |
| `ProcessMonitor.dfy` | waiter threads, futures, and `wait_for_any` |
| `Handshake.dfy` | fork, hold and go for n children over inherited pipes |
| `StartRefinement.dfy` | the handshake as the first half of a manager run |
| `ManagerRun.dfy` | a whole run of the simple manager, composed of `ProcessMonitor` and `ExecMonitor` |
| `PipeSpec.dfy`, `Pipe.dfy` | pipe objects as owners of descriptors |
| `PerfSpec.dfy`, `BatchSpec.dfy`, `PerfEvents.dfy` | counter samples, batches of them, and the classes that hold them |
| `OrderedKeys.dfy` | the order in which a sorted map is iterated |
| `Processes.dfy` | the type of pids |
| `Tally.dfy` | sums of weights along a sequence, for counting threads and measuring progress |

## How the concurrent parts are modelled

Each is a transition system: a `State`, a datatype `Step` with one constructor for every action
of a thread between two points where others can intervene, a predicate `Enabled` and a function
`Next`. A run is a sequence of states related by steps (`Follows`), so a lemma about runs holds
for every interleaving. Progress is stated as a measure that steps use up, together with a step
that is enabled as long as the run is not through.

What is assumed of the platform:

- POSIX pipes and descriptors: a fork copies open ends, an exec drops the close-on-exec ones, a
  read reports end of file only when no write end is open anywhere, a write without any reader
  kills the writer with SIGPIPE, and closing a descriptor fails only when it is not open.
- In `ManagerRun`, `waitpid` succeeds, a killed child ends at some time, pids are not reused, and
  the unsynchronised `terminated_` flag is read and written atomically.
- Binding a process to a CPU may fail in the operating system without any effect on the hopper's
  bookkeeping, so the claims are about the bookkeeping.

## What the proofs found

- **The hopper rotates.** With n processes only the CPUs 0..n are used, one is free, and a round
  is a rotation of the n + 1 CPUs: everybody visits every CPU once in n + 1 rounds. This rests on
  pids being new: a pid that is added again leaves its old CPU allocated (`AddIsCompactIffNew`), and
  no later operation frees it (`RunKeepsOrphan`, `RunIsCompactIffNew`).
- **Starting a dead child kills the manager.** The parent closes its own read end of the go pipe
  in `wait_for_child`, so writing the go byte to a child that died while held raises SIGPIPE;
  `StartFailsIffChildDead` shows that it happens exactly then, and `DyingChildKillsManager` that it
  can, for any child. The hold of the other children ends with the manager, as they then read end
  of file: `HeldUntilOwnStart` therefore excepts a killed manager.
- **The scaling of a relative sample can exceed 1, or be infinite.** Only the totals of the running
  and enabled times are compared, not their increases (`ScalingAboveOne`). `SampleIsSound` gives
  the exact conditions, and `EverySampleIsSound` shows that counters that behave never meet them.
- **`wait_for_any` hangs** exactly when no outstanding wait has succeeded, and for ever when all of
  them failed, because a failing waiter never pushes; without benchmarks `start_impl` never returns.
- **Assigning a pipe to itself closes it** (`MovesTransfer`), without leaking a descriptor.

## Model

| member | source | states |
|---|---|---|
| CpuHoppers.CpuHopper.constructor | src/exec_monitor/cpu_hopper.cc:20-34 | A new hopper maps no process and has one unallocated flag per hardware thread. |
| CpuHoppers.CpuHopper.FindAvailableCpu | src/exec_monitor/cpu_hopper.cc:81-86 | The search returns the first unallocated CPU, or the number of CPUs when there is none. |
| CpuHoppers.CpuHopper.BindProcess | src/exec_monitor/cpu_hopper.cc:53-66 | Binding maps the pid to the CPU and marks the CPU, whatever the operating system says, and frees nothing. |
| CpuHoppers.CpuHopper.AddProcess | src/exec_monitor/cpu_hopper.cc:41-51 | An addition binds to the first free CPU before it complains that no CPU is left, and fails without a change when none was free. |
| CpuHoppers.CpuHopper.HopProcess | src/exec_monitor/cpu_hopper.cc:73-79 | A hop takes a new CPU while the old one is still marked, then frees the old one, which was passed by value. |
| CpuHoppers.CpuHopper.HopProcesses | src/exec_monitor/cpu_hopper.cc:68-71 | The loop over the map is the sequence of hops in increasing pid order, up to the first error. |
| HopperRotation.InitIsCompact | src/exec_monitor/cpu_hopper.cc:20-27 | A machine with a CPU starts out with the invariant. |
| HopperRotation.AddKeepsCompact | src/exec_monitor/cpu_hopper.cc:41-51 | A new pid takes the hole; the addition succeeds exactly when a CPU stays free, and then CPU n + 1 is the hole. |
| HopperRotation.AddIsCompactIffNew | src/exec_monitor/cpu_hopper.cc:41-66 | An addition keeps the allocation exact if and only if the pid is new and a CPU stays free; it fails only for a new pid that takes the last one. |
| HopperRotation.HopOneKeepsCompact | src/exec_monitor/cpu_hopper.cc:73-79 | A hop never fails, fills the hole and leaves the process's own CPU as the new one. |
| HopperRotation.TakenIsTheImage | src/exec_monitor/cpu_hopper.cc:53-66 | The allocated CPUs are exactly those some process is mapped to. |
| HopperRotation.RoundRotates | src/exec_monitor/cpu_hopper.cc:68-86 | One round turns (h, c1, .., cn) into (cn, h, c1, .., c(n-1)) and cannot fail. |
| HopperRotation.RoundsTurnTheRing | src/exec_monitor/cpu_hopper.cc:68-86 | After k rounds place i of the ring shows element (i - k) mod (n + 1) of the initial one. |
| HopperRotation.EveryProcessVisitsEveryCpu | src/exec_monitor/cpu_hopper.cc:68-86 | In any n + 1 consecutive rounds every process is on every CPU of 0..n in exactly one round. |
| HopperRotation.EveryCpuRestsOnce | src/exec_monitor/cpu_hopper.cc:68-86 | In any n + 1 consecutive rounds every CPU of 0..n is the idle one in exactly one round. |
| HopperRotation.FullTurnRestores | src/exec_monitor/cpu_hopper.cc:68-86 | After n + 1 rounds map and allocation are what they were. |
| HopperRuns.RunOfNewPids | src/exec_monitor/cpu_hopper.cc:41-86 | Any mix of additions of new pids and rounds keeps the invariant, or stops at the addition that takes the last CPU, as too many processes and never in the search. |
| HopperRuns.RunFromEmptyMachine | src/exec_monitor/cpu_hopper.cc:41-86 | From an empty machine a run succeeds exactly when it adds fewer processes than CPUs, and then CPUs above n are never allocated. |
| HopperRuns.RunKeepsOrphan | src/exec_monitor/cpu_hopper.cc:41-86 | A CPU that is allocated though no process is on it is never freed by any run, failing ones included. |
| HopperRuns.RunIsCompactIffNew | src/exec_monitor/cpu_hopper.cc:41-86 | A run ends in an exact allocation if and only if all the pids it adds are new, pairwise too, and a CPU stays free. |
| HopperRuns.OverflowFills | src/exec_monitor/cpu_hopper.cc:41-51 | The addition that takes the last CPU fails as too many processes, but is bound, and leaves every CPU allocated. |
| HopperRuns.FullMachineIsStuck | src/exec_monitor/cpu_hopper.cc:41-86 | On a fully allocated machine every addition, and every round unless nobody is mapped, fails in the search and changes nothing. |
| HopperRuns.NoCpusAtAll | src/exec_monitor/cpu_hopper.cc:41-51 | Without any CPU the first addition fails in the search already: the boundary of "never in the search". |
| HopperRuns.CreationsLineUp | src/exec_monitor/cpu_hopper.cc:41-51 | Processes created one after the other start on the CPUs 0, 1, 2, .., with the next CPU as the hole. |
| HopperEventLoop.RunHasShape | src/core/exec_monitor.cc:30-48 | When every event precedes the start, the thread's actions are one loop body, all the handlers in order, then loop bodies only. |
| HopperEventLoop.LoopRotatesProcesses | src/core/exec_monitor.cc:30-48 | After m iterations over n events, n below the number of CPUs, the initial ring (hole n, k-th creation on CPU k) has turned m - 1 times. |
| HopperEventLoop.LoopFailsWhenFull | src/core/exec_monitor.cc:30-48 | In every state of every run of the loop with distinct early events, the hopper driven by the log has failed if and only if as many creations were handled as there are CPUs, and then in the first iteration, at the addition that takes the last CPU. |
| ExecMonitor.StepKeepsInv | src/core/exec_monitor.cc:30-71 | Every action keeps handled, in-flight and queued events equal to the enqueued ones, in order, and the bounds on loop bodies after the end. |
| ExecMonitor.EventsAreDelivered | src/core/exec_monitor.cc:30-71 | In every run events are delivered first in first out and once each, a complete iteration has handled all those from before the start, and at most one loop body follows the end flag. |
| ExecMonitor.IterationHandlesEverything | src/core/exec_monitor.cc:40-48 | An iteration ends with every event enqueued so far handled. |
| ExecMonitor.HistoryIsTrue | src/core/exec_monitor.cc:30-71 | In every run the events delivered are those enqueued, in order; each passed check of the end flag is followed by one loop body, each body by one drain that ends on an empty queue, and the first failed check ends the thread. |
| ExecMonitor.RecordedAt | src/core/exec_monitor.cc:30-67 | What counts as before the start is what was enqueued when the thread started, and the bodies at the end are those run when the flag was set. |
| ExecMonitor.LateEventIsHandled | src/core/exec_monitor.cc:40-48 | An event that arrives while the queue is being drained is handled in the same iteration. |
| ExecMonitor.NothingAfterEarlyEnd | src/core/exec_monitor.cc:30-38 | A thread that starts after the end flag was set runs no loop body. |
| ExecMonitor.ThreadFinishes | src/core/exec_monitor.cc:30-67 | After the end flag is set the thread takes a bounded number of steps, counted against the events still to be enqueued. |
| ExecMonitor.ThreadNeverWaits | src/core/exec_monitor.cc:40-48 | A started thread that has not finished has an enabled step in this model, in which a pop is one step; `ConcurrentQueue.TimedCallsNeverBlock` says why it may be. |
| ConcurrentQueue.StepKeepsNoLostWakeup | src/util/concurrent_queue.h:21-53 | While a consumer sleeps, the queue is no longer than the notifications due plus the consumers that will look. |
| ConcurrentQueue.StepKeepsInv | src/util/concurrent_queue.h:21-78 | Every action keeps mutual exclusion, the order of the values, the wake-up bound, and that blocking pops return a value. |
| ConcurrentQueue.EveryRunKeepsInv | src/util/concurrent_queue.h:21-78 | The same in every state of every run, with spurious wake-ups, timeouts and notification after the unlock. |
| ConcurrentQueue.RefinesAtomicQueue | src/util/concurrent_queue.h:21-78 | Every step is a push at the back of the value the thread holds, a pop of the front that becomes the popper's result, or leaves the contents alone; a timed pop fails only after its timeout and on an empty queue. |
| ConcurrentQueue.PushTakesEffect | src/util/concurrent_queue.h:21-41 | Between its call and its release of the mutex a push puts the value it was called with at the back, exactly once, whatever the others do. |
| ConcurrentQueue.PopTakesEffect | src/util/concurrent_queue.h:47-78 | A pop returns as the kind it was called as, with the front at its last look, which it removed; a blocking one always has a value, and a timed one has none only if it timed out before and found the queue empty. |
| ConcurrentQueue.TimeoutNeedsTimedPop | src/util/concurrent_queue.h:47-78 | Only a pop that was called with a timeout times out. |
| ConcurrentQueue.ExpiredPopReturns | src/util/concurrent_queue.h:66-78 | After its timeout a pop does not sleep again before it returns. |
| ConcurrentQueue.SpuriousWakeupIsHarmless | src/util/concurrent_queue.h:49-70 | A consumer woken for no reason before an empty queue looks and is back where it was. |
| ConcurrentQueue.ThreadsCanBeSpawned | src/util/concurrent_queue.h:21-78 | The claims are about any number of threads: runs with n of them exist for every n. |
| ConcurrentQueue.UndisturbedPush | src/util/concurrent_queue.h:21-41 | From any state with a free mutex and nobody asleep an idle thread can push any value, and the call changes just the queue. |
| ConcurrentQueue.UndisturbedPop | src/util/concurrent_queue.h:47-78 | From there it can pop the front, with and without a timeout, and the call changes just the queue. |
| ConcurrentQueue.BusyMeansProgress | src/util/concurrent_queue.h:21-78 | A thread in the middle of a call and not asleep can move on, or waits for a thread that can. |
| ConcurrentQueue.SleeperIsNotStranded | src/util/concurrent_queue.h:47-53 | With a value queued and a consumer asleep some thread can advance without timeout, spurious wake-up or new call. |
| ConcurrentQueue.TimedPopNeverBlocks | src/util/concurrent_queue.h:66-78 | In the middle of a timed pop the timeout can expire, or the thread or the holder of the mutex can go on, without any push. |
| ConcurrentQueue.TimedCallsNeverBlock | src/util/concurrent_queue.h:66-78 | The same along runs, for every call of the timed pop until it releases the mutex. |
| ConcurrentQueue.InternalStepsUseUpWork | src/util/concurrent_queue.h:21-78 | Every step of the queue itself lowers the work left, a notification that wakes a consumer included. |
| ConcurrentQueue.InternalRunsAreShort | src/util/concurrent_queue.h:21-78 | Left to itself the queue comes to rest within the work there was. |
| ConcurrentQueue.AtRestOnlyEmptyHandedSleep | src/util/concurrent_queue.h:47-78 | It is at rest if and only if every call has returned but those of consumers asleep before an empty queue. |
| ProcessMonitor.StepKeepsInv | src/core/impl/process_monitor.h:16-75 | Every step keeps map, queue, order of pushes, results and waiters' phases consistent. |
| ProcessMonitor.EveryRunKeepsInv | src/core/impl/process_monitor.h:16-75 | The same in every state of every run, also when a pid is registered again after its return. |
| ProcessMonitor.RegistrationsAreConserved | src/core/impl/process_monitor.h:38-49 | Registrations are the disjoint union of those returned and those in the map; results come once each, in the order of the pushes, with the status the own waiter obtained. |
| ProcessMonitor.ResultsAreAnswers | src/core/impl/process_monitor.h:16-75 | Along every run each result carries the pid of an accepted addition and the status that the wait of that registration returned. |
| ProcessMonitor.CollectFails | src/core/impl/process_monitor.h:38-49 | In any state, reachable or not, wait_for_any fails its assertion exactly without an entry, rethrows exactly a failed wait, and otherwise returns. |
| ProcessMonitor.LookupCannotFail | src/core/impl/process_monitor.h:39-49 | No pid is queued twice, every popped pid is a key of the map, and the future read never holds an exception. |
| ProcessMonitor.StepsUseUpWork | src/core/impl/process_monitor.h:39-75 | Between the owner's calls every step of a waiter or of the owner lowers the work left. |
| ProcessMonitor.EndedMeansProgress | src/core/impl/process_monitor.h:39-75 | The next step of a call in wait_for_any: some push, completion, pop or collection is enabled while an outstanding process has ended or a pid is held. |
| ProcessMonitor.EndedCallsReturn | src/core/impl/process_monitor.h:39-75 | Once an outstanding process has ended, every run of waiters, owner and operating system is bounded, and can only stop with wait_for_any returned and exactly one more result. |
| ProcessMonitor.BlockedIffNoneEnded | src/core/impl/process_monitor.h:39-75 | wait_for_any is stuck if and only if no outstanding wait has succeeded. |
| ProcessMonitor.AllFailedBlocksForever | src/core/impl/process_monitor.h:52-67 | In wait_for_any no step at all is possible any more if and only if all outstanding waits have failed. |
| ProcessMonitor.FailedWaitHangs | src/core/impl/process_monitor.h:52-67 | It does happen: with one pid whose wait fails wait_for_any can never return. |
| Handshake.StepKeepsInv | src/util/process.cc:142-186 | Every step keeps the open ends of the parent and of each child, the bytes in the pipes and the program points in exact agreement. |
| Handshake.EveryRunKeepsInv | src/util/process.cc:142-186 | The same in every state of every run with n children. |
| Handshake.HeldUntilOwnStart | src/util/process.cc:153-178 | No child is past its hold before its own start while the manager lives, and prepare returns for a living child only when that child leads its own process group. |
| Handshake.NoExecBeforeAllPrepared | src/exec_manager/simple.cc:31-41 | No benchmark execs until all are forked, all creation events enqueued and all waiters registered, in order, and the monitor is prepared. |
| Handshake.NoDescriptorSurvivesExec | src/util/process.cc:142-186 | A running benchmark holds no pipe end open, neither its own nor a sibling's. |
| Handshake.ExecKeepsReadyEnds | src/util/process.cc:142-151 | An exec closes the ends of go pipes and would keep those of ready pipes, but none of these is open by then. |
| Handshake.StartFailsIffChildDead | src/util/process.cc:157-162 | Writing the go byte kills the manager if and only if the child is dead. |
| Handshake.DyingChildKillsManager | src/util/process.cc:153-186 | For any number of children and any one of them there is a run in which only that child dies, held after its signal, and the manager is killed starting it. |
| Handshake.PrepareIsNotStuck | src/util/process.cc:180-186 | A parent reading the ready pipe can go on or its child can; it can go on when the child is dead, because it closed its own write end. |
| Handshake.NoDeadlock | src/exec_manager/simple.cc:31-41 | In every reachable state that is not settled the parent or a child can move, also after the manager was killed. |
| Handshake.StepsUseUpWork | src/exec_manager/simple.cc:31-41 | Every step lowers a bounded measure. |
| Handshake.RunsEndSettled | src/exec_manager/simple.cc:31-41 | Every run is finite and can only stop with every child running or dead; without deaths all have been started. |
| Handshake.DeadOnlyByDying | src/util/process.cc:168-178 | No child dies of the handshake itself: neither of a write into a closed pipe nor of reading end of file. |
| Handshake.SurvivorsRun | src/util/process.cc:168-178 | Where a run stops every child that was not killed has gone through exec, also when the manager was killed. |
| StartRefinement.StepRefines | src/exec_manager/simple.cc:31-41 | Every step of the handshake is one move of the main thread of `ManagerRun`, an exit of a child, or invisible to it; the go byte to a dead child is its move to being killed. |
| StartRefinement.RunsRefine | src/exec_manager/simple.cc:31-41 | Every run of the handshake is a run of `ManagerRun` that has got as far. |
| StartRefinement.UndisturbedStartReturns | src/exec_manager/simple.cc:28-59 | From any point of the handshake with all forked children alive, and at least one benchmark, the composed run can be carried on to the return of start_impl. |
| ManagerRun.StepKeepsInv | src/exec_manager/simple.cc:28-67 | Every step of the main thread, a child, a waiter or the monitor thread keeps the life of each child, its waiter and its process object in agreement, and has every child that is alive signalled by its turn of the last loop. |
| ManagerRun.EveryRunKeepsInv | src/exec_manager/simple.cc:28-67 | The same in every state of every run. |
| ManagerRun.EveryChildIsReaped | src/exec_manager/simple.cc:28-59 | When start_impl returns there was a benchmark, every child is reaped exactly once and marked terminated, and the monitor thread has finished. |
| ManagerRun.NeverReapedTwice | src/util/impl/process.h:60-73 | In no run is a child reaped twice or marked before it is reaped. |
| ManagerRun.SignalsAreForTheUnreaped | src/util/impl/process.h:97-115 | A step signals a child if and only if it is that child's turn of the last loop and the child is neither marked nor reaped. |
| ManagerRun.SignalledBeforeReaped | src/util/impl/process.h:97-115 | Along every run a signalled child was signalled at such a step, before waitpid gave it back; a kill in the window between the reap and the mark finds nobody and is caught. |
| ManagerRun.StartKillsUnlessAlive | src/exec_manager/simple.cc:40-41 | Starting a child goes on if and only if it is alive, and kills the manager if and only if it has ended, reaped or not. |
| ManagerRun.ReturnsAnExit | src/exec_manager/simple.cc:43-44 | What wait_for_any returns is the pid of a benchmark with the status that this benchmark exited with. |
| ManagerRun.WaiterCanMove | src/core/impl/process_monitor.h:69-75 | The waiter of an ended child can wait, mark, push or complete until its future is ready. |
| ManagerRun.NoDeadlock | src/exec_manager/simple.cc:43-59 | Until start_impl returns some step other than a voluntary exit is enabled, except while wait_for_any waits for the first exit. |
| ManagerRun.NoBenchmarksNeverReturns | src/exec_manager/simple.cc:43-44 | Without benchmarks wait_for_any blocks and start_impl does not return. |
| ManagerRun.StepsUseUpWork | src/exec_manager/simple.cc:28-59 | Every step lowers the work left, except the monitor thread's before the end flag, which do not raise it. |
| ManagerRun.UsefulStepsAreBounded | src/exec_manager/simple.cc:28-59 | A run has a bounded number of steps besides the monitor thread's loop. |
| ManagerRun.SomeRunReturns | src/exec_manager/simple.cc:28-59 | For any distinct pids, at least one, there is a run that ends with the return of start_impl. |
| PipeSpec.StepKeepsOwned | src/util/process.cc:17-62 | No operation makes the kernel refuse a close, and each leaves every open descriptor with exactly one owner. |
| PipeSpec.StepChangesOwners | src/util/process.cc:17-62 | For every end of every pipe the descriptor it owns after an operation: a creation owns read and write descriptor in their places, a close and a destruction release their own only, both moves hand over the two in their places. |
| PipeSpec.CloseRefused | src/util/process.cc:52-62 | A close fails if and only if the descriptor is set but not open, and then changes nothing; closing both stops there. |
| PipeSpec.RefusedAssignStops | src/util/process.cc:39-45 | A move assignment whose close fails stops there and takes nothing from the source. |
| PipeSpec.RunKeepsOwned | src/util/process.cc:17-62 | Over any run nothing is closed twice, and no descriptor is left when all pipes are destroyed. |
| PipeSpec.MovesTransfer | src/util/process.cc:39-45 | Move assignment closes what the target had and hands over the source's descriptors; assigned to itself a pipe ends up closed. |
| Pipes.Pipe.constructor | src/util/process.cc:17-26 | A new pipe has the read descriptor in its read end and the write descriptor in its write end, and owns both. |
| Pipes.Pipe.IsOpen | src/util/process.cc:47-50 | An end is open when its descriptor is not -1. |
| Pipes.Pipe.Close | src/util/process.cc:52-62 | Closing releases the end once, does nothing on a closed one, and leaves it as it is on an error. |
| Pipes.Pipe.CloseBothEnds | src/util/process.cc:28-31 | The destructor closes the read end and then the write end. |
| Pipes.Pipe.MoveFrom | src/util/process.cc:33-37 | Move construction transfers both descriptors. |
| Pipes.Pipe.Assign | src/util/process.cc:39-45 | The object refines the move assignment of the specification, also when source and target are the same. |
| PerfSpec.RelativeSampleIsScaled | src/perf/impl/event.h:25-51 | In relative mode, in terms of the increases mod 2^64 since `prev_`: scaling times enabled is running and value times running is raw times enabled; without running time all is zero, without enabled time the scaling is infinite; `prev_` becomes the counts; which guard throws, and then nothing changes. |
| PerfSpec.AdvancingSampleIsScaled | src/perf/impl/event.h:40-51 | The same in terms of the plain differences when no count fell. |
| PerfSpec.AggregatedSampleIsScaled | src/perf/impl/event.h:25-51 | The same in terms of the counts themselves in aggregated mode, which leaves the event alone. |
| PerfSpec.SampleIsSound | src/perf/impl/event.h:25-52 | A call gives a sample if and only if neither guard throws; its scaling is between 0 and 1 if and only if moreover the running time it is made from does not exceed the enabled time; the counts can be had back if and only if moreover they are zero without running time, or there is an enabled time. |
| PerfSpec.ScalingAboveOne | src/perf/impl/event.h:33-51 | A new event can reach a relative sample with scaling 2, and one with an infinite scaling, although it never ran for longer than it was enabled. |
| PerfSpec.IncreaseIsTrue | src/perf/impl/event.h:40-45 | Unsigned subtraction gives the true increase, across a wrap too, if and only if it is below 2^64. |
| PerfSpec.IncreasesAreTrue | src/perf/impl/event.h:20-45 | Over any run of a new event whose answers are a true count mod 2^64, a relative sample is made from the true increase since the last successful one if and only if that is below 2^64. |
| PerfSpec.IncreasesAddUp | src/perf/impl/event.h:20-45 | Over any run of reads and scales, failing ones included, the increases of the successful relative samples add up mod 2^64 to the change of `prev_`. |
| PerfSpec.NewEventAddsUp | src/perf/impl/event.h:20-45 | From a new event they add up to `prev_` itself. |
| PerfSpec.AggregatedCallsDoNotMatter | src/perf/impl/event.h:25-52 | Deleting the aggregated calls from a run changes no relative outcome and not the event. |
| PerfSpec.CountIsLastAnswer | src/perf/impl/event.h:19-22 | Along any run the counts of an event are those of the last successful read. |
| PerfSpec.EverySampleIsSound | src/perf/impl/event.h:25-52 | With counters that behave no call throws or divides by zero, and every sample is the increase, or the total, scaled up by running over enabled time, with 0 <= scaling <= 1; it gives back the count and is at least as large. |
| PerfSpec.EverySampleOfNewEventIsSound | src/perf/impl/event.h:19-52 | The same from a new event with arbitrary unread counts, for any calls that begin with a read. |
| PerfEvents.PerfEvent.Read | src/perf/impl/event.h:19-22 | A read replaces the counts, and a failing one nothing. |
| PerfEvents.PerfEvent.Scale | src/perf/impl/event.h:24-52 | The statements compute the sample or exception of the specification, and only a successful relative call moves `prev_`. |
| PerfEvents.EventManager.ScaleOne | src/perf/impl/event_manager.h:29-31 | Scaling event i replaces its sample, or on an exception nothing, and leaves the other event objects alone. |
| PerfEvents.EventManager.ReadEvents | src/perf/impl/event_manager.h:23-34 | The two loops over the event objects and the sample buffer are the batch of the specification, exceptions included. |
| BatchSpec.BatchIsIndependentEvents | src/perf/impl/event_manager.h:23-34 | With successful reads a batch is n events on their own; if scale first throws at event j, exactly the samples before j are replaced and exactly the events before j scaled. |
| BatchSpec.FailedReadStoresNothing | src/perf/impl/event_manager.h:26-27 | A throwing read leaves all samples and all `prev_` alone. |
| BatchSpec.PrevAfterBatch | src/perf/impl/event_manager.h:29-31 | In relative mode exactly the events before a throwing one have moved `prev_`. |

## Left out

- The queue, the process monitor, the execution monitor, the handshake and the manager run are modelled on values, as transition systems, because their code is made of interleaved threads and processes: updates in place and aliasing of their fields are not captured, each step's effect on them is.
- Real system calls: only their effects on pids, pipe ends and exit statuses are modelled; the results of counter reads and the descriptors the kernel hands out are parameters.
- Sleeping, sampling intervals and timeouts as durations: a timed pop may expire at any time once it sleeps.
- Event types and the handler table of the monitor: there is one event type, and the monitors of the repository all register a handler for it.
- Exceptions in a handler or loop body on the monitor thread, which end the program; the hopper's own errors are modelled in `HopperRuns` and `HopperEventLoop`.
- Exec failures in a child, failing forks, missing executables, and the destruction of processes that were never started: these are outside the normal protocol.
- A single `process` object on its own, with its destructor: `ManagerRun` models the two steps of its `wait`, the guard of `kill_process` and the window between them, and ends with every process marked, which makes the destructors do nothing.
- Opening events, and the factory of the event manager: they only hand parameters to the operating system.
- Moving a started `process` object: the defaulted move leaves the pid in the source, so no ownership claim rests on it.
- Preparing several `sync_process` objects after constructing all of them: the ready pipe is not close-on-exec, so the descriptor claims hold for the manager's construct-then-prepare order only.
- The rounding of doubles: counts are exact, samples are reals, and only the infinity of a division by zero is kept.
- `read` and `write` of `pipe` on closed ends, which throw: the handshake never does it.
- `add_pid` and `add_process` as separate operations: they differ only in whether the waiter marks a process object, which `ManagerRun` models for `add_process`.
- `callback_timer`, `condition`, `factory`, `libc_wrapper`, `parse`, benchmark parsing, `simple_monitor`, `pmc_sampler`, logging and `main`: small, or giving only easy claims.

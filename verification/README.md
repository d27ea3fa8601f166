# A verified model of the simulator's core protocols

Seven parts of the cloud and edge simulator, each modelled with the state its code keeps and proved over all
inputs and all runs. Every message handler is one atomic step, simulated time is a parameter, and doubles are
reals. Objects that the code updates in place are classes whose methods are proved equal to a function on a
plain value (`View()`); laws over whole runs are lemmas about that function.

| part | modules |
|---|---|
| CPU stack: requests, cores, round-robin scheduler, core allocator | `CpuMessages`, `CpuCores`, `RoundRobin`, `CoreTable` (in `HardwareManager.dfy`), `CpuSystem`, `CpuSafety`, `CpuRestart`, `CpuAccounting`, `CpuReports`, `CpuWork`, `CpuFairness`, `CpuService` |
| VM allocation on two levels, and the edge variant | `CoreUsage`, `NodeResources`, `Strategies`, `ResourceManager`, `TwoLevel`, `EdgeHardware` |
| Merkle root and chained blocks | `Merkle`, `Chain` |
| Cloud provider and its node table | `NodeTables`, `CloudProvider`, `ProviderRuns`, `ProviderAnswers`, `ProviderRoutes`, `ProviderClock` |
| Disk and message queue | `Disk`, `MessageQueue` |
| DNS record tree (names as in section 3.1 of RFC 1034) | `DnsTree` |
| Exponential smoothing | `Smoothing` |

`Sums` holds the option type, a few edits of sequences, and the sums that the accounting lemmas use. `dafny verify dfyconfig.toml` checks the
whole project.

## Where the code does less than its design suggests

Each point is a proved statement, with the exact condition where there is one.

- A scheduler that is stopped and started again while something of its old VM is still on the way makes some run go
  wrong: a core overwrites a request it holds, or a reply is refused. Restarting is safe exactly when the scheduler has
  drained; that nothing is on the way in either direction is enough (`CpuRestart.RestartIsSafeIffDrained`,
  `CpuSafety.NothingOnTheWayMeansDrained`, `CpuRestart.OverwriteIsReachable`).
- The index array of an allocation is filled exactly when enough cores are free; otherwise its tail names core 0,
  and with no free core at all its first slot keeps the marker 2^32 - 1 (`CoreTable.FilledIffEnoughFree`).
- The clock is cut to whole seconds when a core is taken and when it is returned, so recorded usage is off by up to,
  but less than, a second for each hold; it is exact if and only if the fractions of all starts and of all ends add up alike
  (`CoreUsage.SoundUsageIsClose`, `CoreUsage.UsageIsOffInARun`).
- The fit test compares (cores, disk, memory) as a tuple, so it accepts VMs that lack disk or memory; memory then
  wraps, and a rollback is exact all the same (`NodeResources.FitsOverapproximates`, `EdgeHardware.MemoryWrapsIff`,
  `ResourceManager.RollbackIsExact`).
- Best fit refuses a node with 2^31 or more of anything to spare and can accept a node without cores for a template
  of more than 2^31 (`NodeResources.AgreesIff`, `ResourceManager.NeverOvercommitsIff`).
- Positions recorded in the node table before sorting are right, over a whole run, exactly when the nodes first report
  in ascending order of their topics; and exactly for such orders all requests reach the node charged for them
  (`ProviderRoutes.TopicsPointBackIffAscending`, `ProviderRoutes.RoutesRightIffAscending`).
- The provider keeps its best core count in an `int` (`CloudProvider.PicksMostIff`).
- A DNS removal goes through the best-effort search, so it can take the record of a parent zone, exactly when nothing
  was ever inserted below that parent. Removing a zone's only record twice follows a null pointer, and nodes created by
  an insert survive the removal, so that searches are restored exactly when the zone had a node before
  (`DnsTree.RemovalStraysIff`, `DnsTree.SecondRemovalCrashes`, `DnsTree.SearchesRestoredIff`).
- Blocks that differ only in a repeated last transaction share their Merkle root (`Merkle.DuplicateKeepsRoot`).
- The progress copy of a CPU request loses its application instance, the queue never tests whether a consumer is
  ready, and resetting the double smoother keeps its tolerance (`RoundRobin.CpuSchedulerRR.Dup`,
  `MessageQueue.PushesNeedNoAck`, `Smoothing.DoubleSmoother.Reset`).

## Model

| member | source | states |
|---|---|---|
| `CpuMessages.CpuMessage.ExecuteMIs` | src/s2f/messages/SM_CPU_Message.cc:93-107 | One tick of instructions: the finite quantum goes down by one, the instructions left go down and stop at zero, and the message is complete exactly when nothing was left (or it was complete before). |
| `CpuMessages.CpuMessage.ExecuteTime` | src/s2f/messages/SM_CPU_Message.cc:110-128 | The same for a request measured in CPU time. |
| `CpuMessages.TicksNeededStep` | src/s2f/messages/SM_CPU_Message.cc:93-128 | One tick of any amount of work lowers ceil(work / rate) by exactly one, and at most one tick was needed exactly when nothing is left after it. |
| `CpuMessages.TickLowersRemaining` | src/s2f/messages/SM_CPU_Message.cc:93-128 | A tick on an unfinished request lowers the ticks it still needs by exactly one and completes it exactly when one was left. |
| `CpuMessages.ExactWork` | src/s2f/messages/SM_CPU_Message.cc:93-128 | For a positive rate, a request is complete after n ticks if and only if n >= max(1, ceil(work / rate)), for every n. |
| `CpuMessages.CompleteAfter` | src/s2f/messages/SM_CPU_Message.cc:93-128 | A request in time units is complete after n ticks exactly when n ticks last as long as it asks, any other exactly when n ticks run its instructions; at least one tick is needed. |
| `CpuMessages.CompletesIff` | src/s2f/messages/SM_CPU_Message.cc:93-128 | For any rate, a request completes at all if and only if the core makes progress on it or one tick is already enough. |
| `CpuCores.CpuCore.ProcessRequestMessage` | src/s2f/architecture/cpu/CpuCore.cc:112-149 | A request takes the core over whatever it held; an abort empties it and cancels the timer; a zero quantum and an armed timer are the two error outcomes. |
| `CpuCores.CpuCore.ProcessSelfMessage` | src/s2f/architecture/cpu/CpuCore.cc:60-110 | At the end of a tick the request goes back to the scheduler when it is complete or its quantum is used up, and the core is empty again; otherwise one more tick runs and the timer is armed again. |
| `CpuCores.OutcomeIff` | src/s2f/architecture/cpu/CpuCore.cc:112-149 | Exactly when a request is taken as an abort, meets a zero quantum or finds the timer armed, and what the core holds then. |
| `CpuCores.HandedBackIff` | src/s2f/architecture/cpu/CpuCore.cc:60-110 | A request leaves its core exactly when it is complete or its quantum is used up, marked as a response and otherwise unchanged. |
| `CpuCores.SliceIsExact` | src/s2f/architecture/cpu/CpuCore.cc:60-149 | A slice given to an idle core lasts exactly min(quantum, ticks needed) timer ticks (all of them for the infinite quantum), and the reply is complete exactly when that was all the request needed. |
| `CpuCores.SliceOnCore` | src/s2f/architecture/cpu/CpuCore.cc:60-110 | The same for a request already on the core, from any point of its slice. |
| `RoundRobin.IdleCore` | src/s2f/os/schedulers/CpuSchedulerRR.cc:302-309 | The lowest idle virtual core, or the not-found code exactly when every core is busy. |
| `RoundRobin.VirtualCore` | src/s2f/os/schedulers/CpuSchedulerRR.cc:264-270 | The first virtual core mapped to a real core, or -1 exactly when none is. |
| `RoundRobin.FirstOfApp` | src/s2f/os/schedulers/CpuSchedulerRR.cc:149-168 | The first queued request of an application instance. |
| `RoundRobin.CpuSchedulerRR.SearchIdleCPU` | src/s2f/os/schedulers/CpuSchedulerRR.cc:302-309 | The loop finds the lowest idle core. |
| `RoundRobin.CpuSchedulerRR.GetVirtualCpuIndex` | src/s2f/os/schedulers/CpuSchedulerRR.cc:264-270 | The loop finds the virtual core of a real one. |
| `RoundRobin.CpuSchedulerRR.DeleteFromRequestsQueue` | src/s2f/os/schedulers/CpuSchedulerRR.cc:149-168 | Removes the first queued request of the application and nothing else; reports whether there was one. |
| `RoundRobin.CpuSchedulerRR.ProcessRequestMessage` | src/s2f/os/schedulers/CpuSchedulerRR.cc:90-147 | Whole effect of a request: abort, refusal while stopped or without a kind of work, dispatch to the lowest idle core, or the back of the queue. |
| `RoundRobin.CpuSchedulerRR.ProcessResponseMessage` | src/s2f/os/schedulers/CpuSchedulerRR.cc:188-262 | Whole effect of a reply: a reply from one of its own cores to a running scheduler is told to the hypervisor in exactly one message, any other in none; an unfinished request goes behind the others, and the freed core gets the one in front. |
| `RoundRobin.ReplyOutcome` | src/s2f/os/schedulers/CpuSchedulerRR.cc:188-262 | What a reply comes to, field by field: the message upwards (all of the reply, as a response, with the application instance only if finished), the error, the queue, the flags, and the request sent to the freed core. |
| `RoundRobin.RequestOutcome` | src/s2f/os/schedulers/CpuSchedulerRR.cc:90-147 | What a request comes to: dropped from the queue, refused (exactly when the scheduler is stopped or no kind of work is asked for), sent to the lowest idle core with a new quantum, or put at the end of the queue; nothing goes upwards. |
| `RoundRobin.CpuSchedulerRR.Dup` | src/s2f/messages/SM_CPU_Message.cc:33-83 | The copy made for a progress report is a new message equal to the original but for the application instance, which it loses. |
| `RoundRobin.CpuSchedulerRR.SetIsRunning` | src/s2f/os/schedulers/CpuSchedulerRR.cc:280-285 | Stopping sends one abort to each busy core and drops the queue; starting changes the flag only. |
| `RoundRobin.CpuSchedulerRR.StopAllProcess` | src/s2f/os/schedulers/CpuSchedulerRR.cc:311-317 | One abort per busy virtual core, in order, and an empty queue. |
| `RoundRobin.CpuSchedulerRR.StopCpu` | src/s2f/os/schedulers/CpuSchedulerRR.cc:319-334 | The abort is addressed to the real core behind the virtual one. |
| `RoundRobin.CpuSchedulerRR.SetManagedCpuCores` | src/s2f/os/schedulers/CpuSchedulerRR.cc:292-300 | Refused while running; otherwise every core starts idle. |
| `RoundRobin.CpuSchedulerRR.SetCpuCoreIndex` | src/s2f/os/schedulers/CpuSchedulerRR.cc:273-273 | The new index array is taken as it is; while running, only one of the old length keeps the scheduler sound. |
| `CoreTable.HardwareManager.AllocateCores` | src/s2f/os/hardwaremanagers/HardwareManager.cc:66-89 | The first n free cores are taken, in the whole second the clock shows, and listed in order; when fewer are free the rest of the array keeps its filler (the marker only in slot 0); no positive count, no array. |
| `CoreTable.HardwareManager.DeallocateCores` | src/s2f/os/hardwaremanagers/HardwareManager.cc:91-100 | Every listed core is freed in turn and charged the whole seconds from the one it was taken in. |
| `CoreTable.HardwareManager.Finish` | src/s2f/os/hardwaremanagers/HardwareManager.cc:15-29 | At the end each busy core is also charged for its open interval. |
| `CoreTable.FilledIffEnoughFree` | src/s2f/os/hardwaremanagers/HardwareManager.cc:66-89 | The returned array holds n different cores that were free if and only if at least n were free. |
| `CoreTable.DeallocateUndoesAllocate` | src/s2f/os/hardwaremanagers/HardwareManager.cc:66-100 | Freeing an allocation restores which cores are free and adds to exactly its cores the difference of both moments in whole seconds. |
| `CoreUsage.SeizeIsSound` | src/s2f/os/hardwaremanagers/HardwareManager.cc:66-89 | With enough free cores an allocation keeps the live arrays duplicate-free, pairwise disjoint and equal to the busy cores, books the start of each hold, and lowers the free count by exactly n. |
| `CoreUsage.GiveBackIsSound` | src/s2f/os/hardwaremanagers/HardwareManager.cc:91-100 | Releasing any live array keeps the same invariant, books the hold of each of its cores, and raises the free count by its length. |
| `CoreUsage.ElapseIsSound` | src/s2f/os/hardwaremanagers/HardwareManager.cc:15-29 | While any time passes, fractions of a second included, the recorded holds of every core stay the true ones. |
| `CoreUsage.SoundUsageIsClose` | src/s2f/os/hardwaremanagers/HardwareManager.cc:15-100 | In every sound state a core's usage, its open interval included, is the sum over its holds of the differences in whole seconds: off from the time held by less than a second per hold, and exact if and only if the fractions of all starts and of all ends add up alike. |
| `CoreUsage.HoldIsExactIff` | src/s2f/os/hardwaremanagers/HardwareManager.cc:81-98 | One hold is recorded with an error strictly between -1 and 1 second, and exactly if and only if both its ends have the same fraction. |
| `CoreUsage.OneFractionIsExact` | src/s2f/os/hardwaremanagers/HardwareManager.cc:81-98 | The record is exact when all holds start and end on one fraction of a second. |
| `CoreUsage.UsageIsOffInARun` | src/s2f/os/hardwaremanagers/HardwareManager.cc:81-98 | Without that it can be off: a core taken at 0.9 and returned at 1.1 is recorded as used for one second. |
| `CpuSafety.NoCoreIsOverwritten` | src/s2f/architecture/cpu/CpuCore.cc:112-149 | In every run from rest of any number of schedulers and cores in which restarts wait for old messages, no core that holds a request receives another one, no reply is refused, a virtual core is marked busy exactly when one request of its scheduler is in flight on the real core, and nothing waits while a managed core is idle. |
| `CpuSafety.AlwaysExclusive` | src/s2f/os/schedulers/CpuSchedulerRR.cc:90-147 | The invariant behind it is kept by every run from any state that has it. |
| `CpuSafety.StepKeeps` | src/s2f/os/schedulers/CpuSchedulerRR.cc:188-262 | ... and by every single step: submit, abort, delivery, tick, reply, start, stop. |
| `CpuSafety.ExclusiveIsUndisturbed` | src/s2f/architecture/cpu/CpuCore.cc:112-149 | What the invariant means for a core about to receive a message and for a scheduler about to receive a reply. |
| `CpuSafety.StartKeepsIffDrained` | src/s2f/os/schedulers/CpuSchedulerRR.cc:273-300 | Placing a VM on a stopped scheduler keeps the invariant behind all of this if and only if nothing the scheduler sent before is still in flight. |
| `CpuSafety.NothingOnTheWayMeansDrained` | src/s2f/os/schedulers/CpuSchedulerRR.cc:311-334 | A check a caller can make: with no message on the way to any core and no reply on the way back, every stopped scheduler has drained. |
| `CpuSafety.StopKeeps` | src/s2f/os/schedulers/CpuSchedulerRR.cc:311-334 | Stopping with requests in flight keeps it: aborts reach each busy core behind what was sent there before. |
| `CpuSafety.AbortsArrive` | src/s2f/os/schedulers/CpuSchedulerRR.cc:311-334 | Stopping adds to a core's inbox exactly one abort when the scheduler marks that core busy, and nothing otherwise. |
| `CpuRestart.RestartIsSafeIffDrained` | src/s2f/os/schedulers/CpuSchedulerRR.cc:273-300 | From any sound state, placing a VM on a stopped scheduler leads to no overwritten core and no refused reply, in any run whose later restarts wait, if and only if the scheduler has drained. |
| `CpuRestart.StaleReplyOverwrites` | src/s2f/os/schedulers/CpuSchedulerRR.cc:188-262 | After a restart from any sound state, an old reply still on the way, finished or not, leads some run to an overwritten request on its core when that core is among the new ones, and is refused otherwise. |
| `CpuRestart.OverwriteIsReachable` | src/s2f/architecture/cpu/CpuCore.cc:126-126 | Such a state is reached from rest: a run in which the core's pending message is overwritten. |
| `CpuAccounting.RequestsAreConserved` | src/s2f/os/schedulers/CpuSchedulerRR.cc:90-262 | In every run, for every request id (or scheduler, or id and number of ticks), submissions equal copies inside the node (waiting, on the way, on a core, on the way back) plus completions plus removals by abort or stop. |
| `CpuAccounting.StepConserves` | src/s2f/os/schedulers/CpuSchedulerRR.cc:90-334 | Each step keeps that balance. |
| `CpuAccounting.AbortsHitOnlyStopped` | src/s2f/architecture/cpu/CpuCore.cc:112-149 | An abort that reaches a core finds it empty, or holding a request of a scheduler that was stopped. |
| `CpuAccounting.RemovalsAreOwn` | src/s2f/os/schedulers/CpuSchedulerRR.cc:149-334 | A step removes a request only if its own scheduler is stopped, or its own application asked for it. |
| `CpuAccounting.OnlyOwnStopsRemove` | src/s2f/os/schedulers/CpuSchedulerRR.cc:311-334 | In every run, whatever happens to other VMs, a scheduler that is neither stopped nor asked to drop anything loses no request: all submissions are in the node or finished. |
| `CpuAccounting.WeighRespond` | src/s2f/os/schedulers/CpuSchedulerRR.cc:188-262 | What a reply does to any weighting of the requests in the node. |
| `CpuAccounting.WeighDeliver` | src/s2f/architecture/cpu/CpuCore.cc:112-149 | What a message arriving at a core does to any weighting: a request is not lost to another, an abort removes the one on the core. |
| `CpuReports.TheHypervisorIsTold` | src/s2f/os/schedulers/CpuSchedulerRR.cc:188-262 | In every run, restarts included, the hypervisor is told of each accepted reply, finished or not, exactly once and in order, and of nothing else. |
| `CpuReports.FinishedAreTold` | src/s2f/os/schedulers/CpuSchedulerRR.cc:228-233 | In every run from rest whose restarts are drained, the finished requests are exactly the completed messages the hypervisor was told of, in order. |
| `CpuWork.FinishedRequestsRanExactly` | src/s2f/architecture/cpu/CpuCore.cc:60-149 | In every run, a request reported finished is one that was submitted, and it ran for exactly max(1, ceil(work / rate)) ticks of the work and rate it was submitted with, in exactly ceil(ticks / quantum) slices (one for the infinite quantum), whatever the interleaving. |
| `CpuWork.StepMeters` | src/s2f/architecture/cpu/CpuCore.cc:60-149 | Each step keeps the tick and slice meter of every request in the node exact. |
| `CpuWork.InternalStepsWork` | src/s2f/architecture/cpu/CpuCore.cc:60-110 | Every delivery, tick and reply strictly lowers a measure built from the ticks still to run. |
| `CpuWork.QuietRunsAreShort` | src/s2f/os/schedulers/CpuSchedulerRR.cc:215-261 | So a run without arrivals has at most as many steps as the measure says. |
| `CpuWork.StuckMeansEmpty` | src/s2f/os/schedulers/CpuSchedulerRR.cc:118-146 | A state with no delivery, tick or reply left to happen has no request in it. |
| `CpuWork.DrainedRunsFinishEverything` | src/s2f/os/schedulers/CpuSchedulerRR.cc:215-261 | A run from rest that took all such steps has finished or removed every submission. |
| `CpuFairness.NobodyOvertakes` | src/s2f/os/schedulers/CpuSchedulerRR.cc:118-146 | A step never puts a later request in front of a waiting one, every reply moves a waiting request one place up, the one in front is sent to the freed core, and only an abort of its own application drops it. |
| `CpuFairness.SentWithinKPlusOneResponses` | src/s2f/os/schedulers/CpuSchedulerRR.cc:215-261 | A request with k ahead is no longer waiting after k + 1 replies, whatever is submitted meanwhile; it left the queue unsent only if its application asked for an abort. |
| `CpuFairness.FairWithoutAborts` | src/s2f/os/schedulers/CpuSchedulerRR.cc:215-261 | Without such an abort it has been sent to a core. |
| `CpuService.StepServes` | src/s2f/os/schedulers/CpuSchedulerRR.cc:188-262 | In a sound node, each reply to a scheduler moves a request waiting there up by one place or sends it, and no other event sets it back. |
| `CpuService.EveryWaitingRequestIsServed` | src/s2f/os/schedulers/CpuSchedulerRR.cc:215-261 | In every run of the whole node from rest, a request with p ahead of it is posted to a core, with a new quantum, by the (p+1)-th reply its scheduler handles, whatever else is submitted, aborted, started or stopped, unless its scheduler is stopped or its application aborts. |
| `NodeResources.FitsOverapproximates` | src/s2f/os/hardwaremanagers/NodeResources.cc:25-30 | The fit test accepts whatever really fits and guarantees cores and a VM slot; exactly when it accepts a VM that lacks disk or memory. |
| `NodeResources.SignIsRight` | src/s2f/os/hardwaremanagers/NodeResources.h:33-35 | The unsigned difference stored in an int has the right sign if and only if the true difference fits in an int. |
| `NodeResources.DistanceMeans` | src/s2f/os/hardwaremanagers/NodeResources.h:28-41 | Within that range the distance is finite exactly for nodes with enough cores, disk, memory and slots, and is then the sum of what is left over. |
| `NodeResources.AgreesIff` | src/s2f/os/hardwaremanagers/NodeResources.h:28-41 | For all values: the distance test agrees with the three comparisons if and only if no surplus reaches 2^31 and no shortage of the kind that looks like a surplus decides. |
| `NodeResources.LargeSurplusIsRefused` | src/s2f/os/hardwaremanagers/NodeResources.h:33-38 | A node with 2^31 MiB of memory to spare is turned down. |
| `Strategies.SelectNode` | src/s2f/management/managers/selection/Strategies.cc:15-70 | Either strategy returns an acceptable node by its own rule, or says none is acceptable exactly when that is so. |
| `Strategies.SelectFirstFit` | src/s2f/management/managers/selection/Strategies.cc:15-33 | The lowest node that passes the fit test; false means none does. |
| `Strategies.SelectBestFit` | src/s2f/management/managers/selection/Strategies.cc:44-70 | True exactly when some node has a finite distance; then, early exit included, a node of minimal exact leftover among all nodes when no sum overflows. |
| `Strategies.FrontIsLeast` | src/s2f/management/managers/selection/Strategies.cc:52-62 | After every re-heapify the front entry is a least one of all entries pushed so far. |
| `Strategies.LeastIsClosest` | src/s2f/management/managers/selection/Strategies.cc:56-69 | The least entry seen is the node with the least exact leftover of all nodes, also when the scan stopped early at distance zero. |
| `Strategies.SiftDown` | src/s2f/management/managers/selection/Strategies.cc:52-62 | Sifting restores the heap order and keeps the entries. |
| `Strategies.MakeHeap` | src/s2f/management/managers/selection/Strategies.cc:52-62 | Building the heap orders it and keeps the entries. |
| `ResourceManager.NodePool.AddNode` | src/s2f/management/managers/NodePool.cc:28-52 | The new node is appended and its position returned. |
| `ResourceManager.NodePool.AllocateResources` | src/s2f/management/managers/NodePool.cc:54-61 | One node is lowered by the template and one slot, modulo 2^32; the others stay. |
| `ResourceManager.NodePool.DeallocateResources` | src/s2f/management/managers/NodePool.cc:63-70 | One node is raised by the template and one slot, modulo 2^32; the others stay. |
| `ResourceManager.Manager.AllocateVms` | src/s2f/management/managers/ResourceManager.cc:104-151 | All or nothing: a record for every VM, each chosen by the strategy against what the earlier ones left, and the pool lowered accordingly; or the pool exactly as it was, and then some VM found no acceptable node after a valid placement of those before it. |
| `ResourceManager.Manager.Rollback` | src/s2f/management/managers/ResourceManager.cc:133-140 | Gives every record back in order. |
| `ResourceManager.Manager.ConfirmNodeDeallocation` | src/s2f/management/managers/ResourceManager.cc:93-97 | A release reported by a node raises that node and no other. |
| `ResourceManager.AfterAllIsLess` | src/s2f/management/managers/ResourceManager.cc:104-131 | Each node is lowered by exactly the sum of the templates placed on it. |
| `ResourceManager.RollbackIsExact` | src/s2f/management/managers/ResourceManager.cc:133-140 | Rolling back any sequence of reservations restores every node bit for bit, wrapped fields included. |
| `ResourceManager.NoCoreUnderflow` | src/s2f/management/managers/ResourceManager.cc:104-131 | Cores and VM slots of a placement are taken without wrapping, for every node. |
| `ResourceManager.NeverOvercommitsIff` | src/s2f/os/hardwaremanagers/NodeResources.h:28-41 | A strategy never accepts a node with fewer cores than the template if and only if it is first fit or the template has at most 2^31 cores. |
| `ResourceManager.CorelessNodeAccepts` | src/s2f/os/hardwaremanagers/NodeResources.h:33-38 | Best fit accepts a node without any cores exactly for templates of none or of more than 2^31. |
| `ResourceManager.AcceptsOnlyEnoughIff` | src/s2f/os/hardwaremanagers/NodeResources.h:28-41 | Best fit never accepts a node that lacks cores, disk or memory if and only if no size of the template exceeds 2^31. |
| `ResourceManager.NoSizeUnderflow` | src/s2f/management/managers/ResourceManager.cc:104-131 | Then memory and disk of a placement are taken without wrapping as well, for every node. |
| `TwoLevel.DcHardwareManager.TryAllocateResources` | src/s2f/os/hardwaremanagers/DcHardwareManager.cc:33-37 | Takes cores without any check; fails only by the exception of an index array without room. |
| `TwoLevel.DcHardwareManager.DeallocateResources` | src/s2f/os/hardwaremanagers/DcHardwareManager.cc:39-43 | Frees the physical cores and reports the release to the manager. |
| `TwoLevel.AlwaysAccounted` | src/s2f/os/hardwaremanagers/DcHardwareManager.cc:33-43 | Under any interleaving of grants, deliveries, releases and waiting, each node's free physical cores equal the manager's free cores plus the cores reserved for VMs on their way; slots agree, memory and disk agree modulo 2^32, and core ownership is sound with every hold booked. |
| `TwoLevel.UsageIsAlwaysClose` | src/s2f/os/hardwaremanagers/HardwareManager.cc:15-100 | In every run from a fresh data centre, each core's recorded usage is the time it was held, up to less than a second for each hold. |
| `TwoLevel.BestFitNeverWraps` | src/s2f/management/managers/ResourceManager.cc:104-131 | Under best fit and with no template size above 2^31, no field of any node ever wraps: memory and disk are exactly what the VMs leave, in every run. |
| `TwoLevel.StepKeeps` | src/s2f/os/hardwaremanagers/DcHardwareManager.cc:33-43 | Each of the four steps keeps that. |
| `TwoLevel.DeliveriesAreFilled` | src/s2f/os/hardwaremanagers/DcHardwareManager.cc:33-37 | In every run from a fresh data centre, a reserved VM always meets enough free cores: its array is filled with that many different free cores. |
| `TwoLevel.UnreservedDelivery` | src/s2f/os/hardwaremanagers/DcHardwareManager.cc:33-37 | In every run, a VM delivered without a reservation is filled if and only if it asks for no more than the manager's free cores and the reserved ones together, and leaves the reserved VMs their cores if and only if it asks for no more than the manager's free cores. |
| `TwoLevel.EmptyNodeIsWhole` | src/s2f/os/hardwaremanagers/DcHardwareManager.cc:39-43 | When everything reserved has been delivered and released, the manager sees the node's full size again. |
| `EdgeHardware.EdgeHardwareManager.TryAllocateResources` | src/s2f/os/hardwaremanagers/EdgeHardwareManager.cc:22-40 | Taken exactly when the template passes the fit test and has an array-sized core count; refused or thrown, nothing changes. |
| `EdgeHardware.EdgeHardwareManager.DeallocateResources` | src/s2f/os/hardwaremanagers/EdgeHardwareManager.cc:43-54 | Returns the resources and the cores. |
| `EdgeHardware.EdgeBooksBalance` | src/s2f/os/hardwaremanagers/EdgeHardwareManager.cc:22-54 | In every run of an edge node, available cores equal the number of free cores, live arrays are duplicate-free and disjoint and are the busy cores, and each core's usage plus its open interval is the time it was held, up to less than a second for each hold. |
| `EdgeHardware.DeallocateUndoesTry` | src/s2f/os/hardwaremanagers/EdgeHardwareManager.cc:22-54 | Returning what was taken restores the resources exactly, also when a field wrapped in between. |
| `EdgeHardware.MemoryWrapsIff` | src/s2f/os/hardwaremanagers/EdgeHardwareManager.cc:22-40 | An accepted template makes memory wrap if and only if it asks for more than is left; then it was accepted for its smaller core or disk demand. |
| `Merkle.MerkleRoot` | src/s2f/architecture/p2p/pow/chain/Block.cc:18-53 | The in-place reduction returns the Merkle root after exactly ceil(log2 n) rounds: zero for no transactions, the transaction itself for one, the digest of the first followed by the second for two, and for more the root of the pairs (next rows). |
| `Merkle.Round` | src/s2f/architecture/p2p/pow/chain/Block.cc:32-52 | One round in place computes the next level: slot i is overwritten only after its two inputs were read. |
| `Merkle.PairIs` | src/s2f/architecture/p2p/pow/chain/Block.cc:38-49 | Which digests a pair is made of: left then right in their order, the last of an odd number with itself. |
| `Merkle.SmallCommitments` | src/s2f/architecture/p2p/pow/chain/Block.cc:18-53 | The commitments to no, one and two transactions written out. |
| `Merkle.PairsHaveTheRoot` | src/s2f/architecture/p2p/pow/chain/Block.cc:32-52 | The law of the levels: more than one digest have the same root as their pairs. |
| `Merkle.RootIsTopDown` | src/s2f/architecture/p2p/pow/chain/Block.cc:32-52 | The rounds from below give the root of the tree drawn from the top: a full left half, the rest on the right, a missing half repeated. |
| `Merkle.RootOfHalves` | src/s2f/architecture/p2p/pow/chain/Block.cc:32-52 | Over two full halves of 2^k digests the root is the digest of the left half's root followed by the right half's. |
| `Merkle.HeightIsCeilLog2` | src/s2f/architecture/p2p/pow/chain/Block.cc:32-52 | The number of rounds is the ceiling of the binary logarithm of the count. |
| `Merkle.HeightIsFirstSingle` | src/s2f/architecture/p2p/pow/chain/Block.cc:32-52 | A level has a single digest exactly from that height on. |
| `Merkle.RootBinds` | src/s2f/architecture/p2p/pow/chain/Block.cc:18-53 | With an injective digest and equal counts, roots are equal if and only if the transaction ids are equal in order. |
| `Merkle.DuplicateKeepsRoot` | src/s2f/architecture/p2p/pow/chain/Block.cc:32-38 | Equal counts are needed: repeating the last of an odd number of transactions (more than one) gives the same root. |
| `Chain.TipDeterminesHeaders` | src/s2f/architecture/p2p/pow/chain/Block.h:74-81 | Two valid chains with the same tip hash have the same length and the same header at every height. |
| `Chain.TipDeterminesTransactions` | src/s2f/architecture/p2p/pow/chain/Block.h:74-81 | At each height the blocks are equal if and only if they carry equally many transactions. |
| `Chain.PaddedTipStaysValid` | src/s2f/architecture/p2p/pow/chain/Block.h:74-81 | The condition is needed: a valid chain stays valid, with the same tip hash, when its odd tip block repeats its last transaction. |
| `Chain.FirstBlockIff` | src/s2f/architecture/p2p/pow/chain/Block.h:74-81 | A first block is accepted if and only if it has the zero parent and its own Merkle root. |
| `Chain.ExtendsIff` | src/s2f/architecture/p2p/pow/chain/Block.h:74-81 | A block extends a valid chain if and only if it carries the hash of the tip and its own Merkle root. |
| `NodeTables.LowerBound` | src/s2f/management/cloudprovider/NodeTable.cc:65-81 | Binary search over a sorted vector finds the first key not below the one asked for. |
| `NodeTables.SortAppended` | src/s2f/management/cloudprovider/NodeTable.cc:31-59 | Sorting after appending a new key puts it in its place and keeps every other entry in order. |
| `NodeTables.LessMeans` | src/s2f/management/cloudprovider/NodeTable.cc:115-121 | The order of the vectors: a proper prefix comes first, otherwise the first difference decides. |
| `NodeTables.NodeTable.FindByTopic` | src/s2f/management/cloudprovider/NodeTable.cc:65-72 | The lookup compares the key at the lower bound. |
| `NodeTables.NodeTable.FindByZone` | src/s2f/management/cloudprovider/NodeTable.cc:74-81 | The same for zones. |
| `NodeTables.NodeTable.AddOrUpdateNode` | src/s2f/management/cloudprovider/NodeTable.cc:6-63 | Whole effect of a report, with the positions recorded before sorting, and the id read through the old slot. |
| `NodeTables.LookupsAgree` | src/s2f/management/cloudprovider/NodeTable.cc:65-81 | Both lookups answer exactly like plain maps. |
| `NodeTables.AddOrUpdateRefines` | src/s2f/management/cloudprovider/NodeTable.cc:6-63 | A report changes the resources of a known node and nothing else, or adds the topic and the zone member to the maps and one node at the end. |
| `NodeTables.TopicsPointBackIff` | src/s2f/management/cloudprovider/NodeTable.cc:31-39 | Adding a node keeps every topic position right if and only if its topic sorts after all others. |
| `NodeTables.ZonesPointBackIff` | src/s2f/management/cloudprovider/NodeTable.cc:41-61 | Zone positions stay right if and only if the zone is known or sorts after all others. |
| `NodeTables.ReturnedIdIff` | src/s2f/management/cloudprovider/NodeTable.cc:31-62 | The id handed back is the new node's own if and only if its topic sorts last. |
| `NodeTables.NamedAfterReport` | src/s2f/management/cloudprovider/NodeTable.cc:6-63 | Whatever the order of arrival, each node's recorded position is its own id, and the lookup of the name it reported under finds it. |
| `NodeTables.PointBackMeansAscending` | src/s2f/management/cloudprovider/NodeTable.cc:31-39 | If all recorded positions are right, the names arrived in ascending order. |
| `CloudProvider.Broker.CalculateRequestedCores` | src/s2f/management/cloudprovider/CloudProvider.cc:192-204 | The cores of all VMs of the request. |
| `CloudProvider.TotalMeans` | src/s2f/management/cloudprovider/CloudProvider.cc:192-204 | The total of one VM is its cores, and the totals of parts add up. |
| `CloudProvider.Broker.SelectNodeInPool` | src/s2f/management/cloudprovider/CloudProvider.cc:147-190 | Nothing changes when no node of the zone fits; otherwise one estimate goes down by the request's cores and the node's recorded topic is returned. |
| `CloudProvider.Broker.SelectNode` | src/s2f/management/cloudprovider/CloudProvider.cc:126-145 | The request's own zone first, then the default zone, whose absence is the error. |
| `CloudProvider.Broker.HandleVmRequest` | src/s2f/management/cloudprovider/CloudProvider.cc:48-79 | One answer about that very request, or the error and nothing changed; dispatched if and only if nobody waits (or it has priority and priorities count) and it fits somewhere, and rejected otherwise. |
| `CloudProvider.AskOutcome` | src/s2f/management/cloudprovider/CloudProvider.cc:48-79 | The same as a law of the provider: exactly when a request is dispatched, rejected with nothing changed, or ends in the error (its own zone has no room and the default zone is unknown). |
| `CloudProvider.DispatchOutcome` | src/s2f/management/cloudprovider/CloudProvider.cc:126-190 | A dispatched request goes to a node of its own zone, or of the default zone when the own has no room; that node's cores go down by what it asks, and nothing else changes. |
| `CloudProvider.Broker.HandleVmSubscription` | src/s2f/management/cloudprovider/CloudProvider.cc:81-96 | Joins the back of the queue with a timeout of its own, due when the request's patience ends. |
| `CloudProvider.Broker.HandleSubscriptionTimeout` | src/s2f/management/cloudprovider/CloudProvider.cc:98-124 | The subscription of that timeout leaves the queue with a timeout notice; not finding it is the error. |
| `CloudProvider.Broker.AttemptDispatching` | src/s2f/management/cloudprovider/CloudProvider.cc:216-238 | The loop is the recursive service of the queue: heads leave for a node and lose their timers until one fits nowhere. |
| `CloudProvider.Broker.HandleNodeUpdate` | src/s2f/management/cloudprovider/CloudProvider.cc:36-46 | A report replaces the estimate, then the queue is served. |
| `CloudProvider.ScanFinds` | src/s2f/management/cloudprovider/CloudProvider.cc:147-190 | A node is chosen if and only if some node of the zone has enough cores, and more than none; it is one of those. |
| `CloudProvider.ScanIsBest` | src/s2f/management/cloudprovider/CloudProvider.cc:147-190 | With estimates up to 2^31, no node of the zone has more cores than the chosen one, and it is the lowest of the equals. |
| `CloudProvider.PicksMostIff` | src/s2f/management/cloudprovider/CloudProvider.cc:147-190 | The bound is exact: the scan picks a node with most cores in every zone whose estimates are at most c if and only if c <= 2^31. |
| `CloudProvider.LargeEstimateIsForgotten` | src/s2f/management/cloudprovider/CloudProvider.cc:165-177 | A node with 2^32 cores loses to any small one scanned later, because the best count is kept in an int. |
| `CloudProvider.SelectMeans` | src/s2f/management/cloudprovider/CloudProvider.cc:126-145 | A selected node has the cores and belongs to the request's zone, or to the default zone when its own is full or unknown; no selection means both are full. |
| `ProviderRuns.ProviderAlwaysSound` | src/s2f/management/cloudprovider/CloudProvider.cc:36-124 | In every run: queued subscriptions and timers correspond one to one with the right due times, no timer fails to find its subscription, each subscription is waiting, dispatched or expired exactly once, dispatches follow the order of arrival, and each estimate is the last report less the requests sent to the node since. |
| `ProviderRuns.EstimatesFollowDispatches` | src/s2f/management/cloudprovider/CloudProvider.cc:126-204 | In every run each estimate equals the cores last reported less the cores of all requests assigned to the node since, and the assignments are exactly the requests dispatched, in order. |
| `ProviderRuns.StepLogs` | src/s2f/management/cloudprovider/CloudProvider.cc:48-79 | Each event charges nodes for exactly the requests it sends out, and sends them to the topic the charged node's entry points to. |
| `ProviderClock.PatienceIsKept` | src/s2f/management/cloudprovider/CloudProvider.cc:81-124 | On the clock, in every run: no subscription waits longer than its patience, whoever expires does so at the very moment it ends, and whoever is dispatched is so before or then. |
| `ProviderClock.LeavingIsBooked` | src/s2f/management/cloudprovider/CloudProvider.cc:98-124 | The subscriptions that leave in a step are exactly those the step counts as expired or as dispatched. |
| `ProviderRuns.TimeoutFindsItsRequest` | src/s2f/management/cloudprovider/CloudProvider.cc:98-124 | The "does not exist in the queue" error is unreachable: a timer removes exactly its own subscription and sends one notice about it. |
| `ProviderRuns.DrainServesQueue` | src/s2f/management/cloudprovider/CloudProvider.cc:216-238 | Serving sends a prefix of the queue, in order, and stops with an empty queue, a head that fits nowhere, or no default zone. |
| `ProviderRuns.ReportServesQueue` | src/s2f/management/cloudprovider/CloudProvider.cc:36-46 | So after a report without error the queue is empty or its head fits nowhere. |
| `ProviderAnswers.EveryRequestIsAnsweredOnce` | src/s2f/management/cloudprovider/CloudProvider.cc:48-124 | In every run, for any way of counting requests: the messages sent and the subscriptions still waiting are about exactly the requests asked or subscribed, each once. |
| `ProviderAnswers.AskedAreAnsweredAtOnce` | src/s2f/management/cloudprovider/CloudProvider.cc:48-79 | In every run each request asked is answered while it is handled: the i-th answer is about the i-th request. |
| `ProviderRuns.AskKeeps` | src/s2f/management/cloudprovider/CloudProvider.cc:48-79 | A request without priority is never dispatched past a non-empty queue. |
| `ProviderRuns.StepKeeps` | src/s2f/management/cloudprovider/CloudProvider.cc:36-124 | Each event keeps the whole invariant. |
| `ProviderRoutes.TopicsPointBackIffAscending` | src/s2f/management/cloudprovider/NodeTable.cc:31-39 | Over a whole run, every node's recorded topic position is right if and only if the nodes reported for the first time in strictly ascending order of their topics. |
| `ProviderRoutes.RoutesRightIffAscending` | src/s2f/management/cloudprovider/CloudProvider.cc:179-187 | For every order in which distinct topics may report first: all runs with that order send every request to the node that was charged for it if and only if the order is ascending. |
| `ProviderRoutes.RequestGoesAstray` | src/s2f/management/cloudprovider/CloudProvider.cc:179-187 | For example: node b reports four cores, node a then one; a request for two is charged to b and sent to a, which has too few. |
| `Disk.DiskManager.HandleRequest` | src/s2f/architecture/disk/DiskManager.cc:39-61 | A request joins its VM's queue and starts the disk when it was idle; an unknown VM is an error and changes nothing. |
| `Disk.DiskManager.HandleFinished` | src/s2f/architecture/disk/DiskManager.cc:39-61 | The head is answered and the next request, if any, is scheduled. |
| `Disk.DiskManager.ScheduleIo` | src/s2f/architecture/disk/DiskManager.cc:63-77 | The completion is set ahead by the size over the read bandwidth for a read and over the write bandwidth for anything else; an empty queue changes nothing. |
| `Disk.DiskManager.StopVmQueue` | src/s2f/architecture/disk/DiskManager.cc:79-93 | Flushing empties the VM's queue and cancels its completion. |
| `Disk.DiskFollowsRecurrence` | src/s2f/architecture/disk/DiskManager.cc:39-93 | In every run, flushes included, a VM's k-th surviving request is the k-th answered, at max(its arrival, previous completion) + size / bandwidth, whatever other VMs do; a completion is scheduled exactly while its queue is non-empty. |
| `Disk.RequestsTakeTheirTime` | src/s2f/architecture/disk/DiskManager.cc:39-77 | In every run the k-th completion is max(its arrival, previous completion) plus size / read bandwidth for a read, plus size / write bandwidth for a write. |
| `Disk.HeadIsDueInTime` | src/s2f/architecture/disk/DiskManager.cc:63-77 | The same of the request being served: when its scheduled completion is due. |
| `Disk.OtherBandwidthIsIrrelevant` | src/s2f/architecture/disk/DiskManager.cc:63-77 | Two runs of a VM with the same arrivals, all reads (or all writes), complete them at the same times whatever the other bandwidth is. |
| `Disk.StepKeeps` | src/s2f/architecture/disk/DiskManager.cc:39-93 | Each event keeps the invariant behind it for every VM. |
| `MessageQueue.MessageQueueOut.PushIncomingMessage` | src/s2f/architecture/messagequeue/MessageQueueOut.cc:73-94 | Effect of a push on its topic; the error arises exactly for a topic without a queue when none is allocated in advance; other topics untouched. |
| `MessageQueue.MessageQueueOut.HandleIncomingMessage` | src/s2f/architecture/messagequeue/MessageQueueOut.cc:136-156 | Effect of an ack or a registration on its topic; the error arises exactly for something else than an ack from a registered topic; other topics untouched. |
| `MessageQueue.MessageQueueOut.AttemptToSend` | src/s2f/architecture/messagequeue/MessageQueueOut.cc:158-181 | The head goes out, addressed to the registered consumer's socket, exactly when there is a consumer and a message; readiness is written, never asked. |
| `MessageQueue.MessageQueueOut.CreateOrFindQueue` | src/s2f/architecture/messagequeue/MessageQueueOut.cc:58-65 | A missing queue is created empty, an existing one kept. |
| `MessageQueue.PullClient.HandlePacket` | src/s2f/architecture/net/stack/queue/PullClient.cc:49-75 | Every message of the packet is forwarded in order, then one ack goes back. |
| `MessageQueue.PullClient.Bootstrap` | src/s2f/architecture/net/stack/queue/PullClient.cc:49-75 | The start-up event sends the first ack, the one that registers the client, and forwards nothing. |
| `MessageQueue.NothingIsLost` | src/s2f/architecture/messagequeue/MessageQueueOut.cc:73-181 | In every run, per topic: pushed = received, then on the wire, then waiting, in order; and a registered consumer with messages waiting always has a packet or an ack in flight. |
| `MessageQueue.FirstAckGetsEverything` | src/s2f/architecture/messagequeue/MessageQueueOut.cc:136-181 | In every run the first ack to reach the queue settles the consumer: everything handed out, received or on the wire, is addressed to the socket that ack came from, and with what waits it is what was pushed. |
| `MessageQueue.StepRegisters` | src/s2f/architecture/messagequeue/MessageQueueOut.cc:136-156 | Only an ack registers a consumer, under its own socket, and a registered one keeps its socket. |
| `MessageQueue.StepKeeps` | src/s2f/architecture/messagequeue/MessageQueueOut.cc:73-181 | Each step keeps that; the error arises exactly for a push to an unknown topic without pre-allocation. |
| `MessageQueue.PushesNeedNoAck` | src/s2f/architecture/messagequeue/MessageQueueOut.cc:158-181 | However many messages are pushed to a registered consumer with nothing waiting, all go out at once with no ack between them: readiness is not asked for. |
| `MessageQueue.QuietRunsAreShort` | src/s2f/architecture/net/stack/queue/PullClient.cc:49-75 | Without pushes a run ends after at most as many steps as its measure says. |
| `MessageQueue.StuckMeansDelivered` | src/s2f/architecture/net/stack/queue/PullClient.cc:49-75 | When nothing more can happen, a registered consumer has received everything pushed, all of it addressed to its socket. |
| `DnsTree.Tree.InsertRecord` | src/s2f/architecture/dns/db/DnsTree.cc:98-122 | The tree after an insert is the flat map after adding the path and the record. |
| `DnsTree.Tree.MakePath` | src/s2f/architecture/dns/db/DnsTree.cc:98-122 | The loop creates what is missing of the last two labels and returns their node. |
| `DnsTree.Tree.SearchRecordsForUpdate` | src/s2f/architecture/dns/db/DnsTree.cc:31-57 | The loop is the best-effort search of the flat map: an empty tree, or a top-level node without children, answers for everything below. |
| `DnsTree.Tree.RemoveRecord` | src/s2f/architecture/dns/db/DnsTree.cc:124-133 | The tree after a removal is the flat map after it, the null dereference included. |
| `DnsTree.InsertThenSearch` | src/s2f/architecture/dns/db/DnsTree.cc:31-57 | A zone just inserted is found at its own key with the record. |
| `DnsTree.InsertChangesOneKey` | src/s2f/architecture/dns/db/DnsTree.cc:98-122 | An insert adds the record to its own key and changes no other key's records. |
| `DnsTree.RemoveUndoesInsert` | src/s2f/architecture/dns/db/DnsTree.cc:124-133 | Removing a fresh insert finds it and restores every key's records. |
| `DnsTree.SearchesRestoredIff` | src/s2f/architecture/dns/db/DnsTree.cc:124-133 | Removing a fresh insert restores every search if and only if the zone had a node before. |
| `DnsTree.CreatedNodesStay` | src/s2f/architecture/dns/db/DnsTree.cc:124-133 | The nodes created stay: after insert and remove, a search the empty tree answered finds nothing. |
| `DnsTree.RemoveTakesExactlyThis` | src/s2f/architecture/dns/db/DnsTree.cc:124-133 | A record that its zone has is found and removed, and no other zone's records change. |
| `DnsTree.RemovalOutcome` | src/s2f/architecture/dns/db/DnsTree.cc:124-133 | After any history, what a removal answers and changes: true and that record alone when it is among those the inserts lead to, false and nothing when it is not. |
| `DnsTree.SameKeyIff` | src/s2f/architecture/dns/db/DnsTree.cc:98-122 | Two zones share a node if and only if their last two labels are the same. |
| `DnsTree.NodesOfHistory` | src/s2f/architecture/dns/db/DnsTree.cc:98-122 | After any history of inserts and removals, the nodes there are those of the last two labels of the zones ever inserted. |
| `DnsTree.TargetIsFound` | src/s2f/architecture/dns/db/DnsTree.cc:31-57 | After any history, the search ends where the inserts alone decide. |
| `DnsTree.RemovalStraysIff` | src/s2f/architecture/dns/db/DnsTree.cc:124-133 | After any history, a removal takes another zone's record if and only if nothing but the root was ever inserted and the root has the record, or nothing was ever inserted below the zone's top-level domain and that domain has it. |
| `DnsTree.ParentLosesItsRecord` | src/s2f/architecture/dns/db/DnsTree.cc:124-133 | A removal under a.com empties com when com was the only zone inserted. |
| `DnsTree.RemovalCrashesIff` | src/s2f/architecture/dns/db/DnsTree.cc:124-133 | After any history, a removal follows a null pointer if and only if the zone the inserts lead it to has no record left. |
| `DnsTree.SecondRemovalCrashes` | src/s2f/architecture/dns/db/DnsTree.cc:124-133 | Removing a zone's only record twice follows a null pointer the second time. |
| `Smoothing.SingleSmoother.PushToPop` | src/s2f/management/algorithms/ExponentialSmoothing.h:238-259 | One push of the single smoother, coordinate by coordinate, with the tolerance test. |
| `Smoothing.DoubleSmoother.PushToPop` | src/s2f/management/algorithms/ExponentialSmoothing.h:331-370 | One push of the double smoother, for its first, second and later observations. |
| `Smoothing.DoubleSmoother.Reset` | src/s2f/management/algorithms/ExponentialSmoothing.h:376-386 | Everything but the tolerance goes back to its default. |
| `Smoothing.SingleStaysInRange` | src/s2f/management/algorithms/ExponentialSmoothing.h:238-259 | For any series, dimension and tolerance, every smoothed coordinate stays between the least and the greatest value observed. |
| `Smoothing.SingleOnALine` | src/s2f/management/algorithms/ExponentialSmoothing.h:238-259 | One coordinate, one push: the new value is the weighted mean, unless the change is smaller than the tolerance. |
| `Smoothing.DoubleOnALine` | src/s2f/management/algorithms/ExponentialSmoothing.h:331-370 | The same for the double smoother with a given correction. |
| `Smoothing.SquaredNormMeans` | src/s2f/management/algorithms/ExponentialSmoothing.h:132-138 | The squared norm adds up the squares of the coordinates. |
| `Smoothing.SingleIsWeightedSum` | src/s2f/management/algorithms/ExponentialSmoothing.h:238-259 | Without a tolerance the smoothed value is the geometric weighted sum of all observations. |
| `Smoothing.DoubleFollowsLines` | src/s2f/management/algorithms/ExponentialSmoothing.h:331-370 | Without a tolerance every linear series is reproduced exactly and the correction is its slope. |
| `Smoothing.DoubleCommutesWithAffine` | src/s2f/management/algorithms/ExponentialSmoothing.h:331-370 | Without a tolerance smoothing commutes with affine maps of the observations, and corrections only scale. |
| `Smoothing.CoordinatesAreIndependent` | src/s2f/management/algorithms/ExponentialSmoothing.h:331-370 | Without a tolerance the coordinates do not influence each other. |

## Left out

- `CpuSafety.NoCoreIsOverwritten`: restarts are assumed drained, because without that the claim is false (`CpuRestart.RestartIsSafeIffDrained`).
- `CpuFairness.SentWithinKPlusOneResponses`: stated for one scheduler whose steps raise no error; `CpuService` carries it to runs of the whole node.
- `ProviderRuns.ProviderAlwaysSound`: holds of runs in which a scheduled timeout may fire at any moment; `ProviderClock` adds the clock.
- `DnsTree.RemovalStraysIff`: a removal that follows a null pointer leaves the tree as it was in the histories it speaks of, although the program would stop there.
- `Strategies.SelectBestFit`: minimality is stated when the three differences and their sum fit in an `int`; beyond that the C++ addition is undefined.
- `TwoLevel.AlwaysAccounted`: grants are limited to templates that never overcommit cores, by the exact bound of `ResourceManager.NeverOvercommitsIff`; memory and disk agree modulo 2^32 (exactly under best fit with moderate templates, `TwoLevel.BestFitNeverWraps`).
- `Merkle.RootBinds`: the digest is an abstract injective function; SHA-256, RIPEMD-160 and signatures are not part of this model.
- `Disk.DiskFollowsRecurrence`: bandwidths are positive and sizes not negative; the flush flag that marks answers as aborted is not modelled.
- `NodeTables.SortAppended`: stands for `std::sort` on a sorted vector with one entry appended, the only way it is called.
- `Strategies.MakeHeap`: stands for `std::make_heap`; any algorithm with the same order and contents gives the same claims, but ties may be broken differently.
- `Smoothing.SingleStaysInRange`: rounding of doubles is not modelled; the norm is compared through its square.
- `DnsTree.Tree.InsertRecord`: zones arrive as label sequences, splitting at dots and parent pointers are left out, and the record set is a mathematical set because the source's order on records is not a strict weak order.
- `CloudProvider.ScanIsBest`: counts are unbounded naturals, so the 64-bit sum of a request's cores does not wrap.
- Simulation plumbing: gates, sockets, message ownership, parameters, signals, logs and statistics; sending appends to an output or to the messages in flight.
- The queue of aborts in the scheduler, which is filled and never consulted.
- Scheduler start-up without virtual hardware, which reads parameters only.
- Release of a VM through the hypervisor and the VM control table; release is modelled at the hardware manager's interface.
- Pool-wide totals and available resources, which allocation does not change.
- Network addresses of data-centre nodes; a VM is delivered by node index.
- Cost-based node selection, which is commented out in the source.
- Block difficulty, targets, signatures and the transaction format.
- The DNS resolver and its question bookkeeping.
- Equality operators of the smoothing vectors.
- User models, applications, peer discovery, configuration loading and result scripts.

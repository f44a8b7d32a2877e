# proxmox-cpu-affinity: a verified model

proxmox-cpu-affinity pins virtual machines to CPUs. It measures the latency between every two
CPUs, ranks each CPU's neighbours, hands every VM a primary CPU (in rotation) with its nearest
neighbours, and applies that choice to all threads of the VM. A watchdog recalculates the ranking
when CPUs come or go, and a heatmap shows it.

This project models those parts in Dafny and proves what they are for. `dafny verify dfyconfig.toml`
checks all of it.

| file | what it models |
|---|---|
| `HotplugMachine.dfy`, `Hotplug.dfy` | the hotplug reactor: two lossy channels, debounce timer, batcher, worker |
| `PingPongMachine.dfy`, `PingPong.dfy` | the two-goroutine latency measurement with its error-aware barrier |
| `FairTermination.dfy` | termination under fair scheduling, for any step function |
| `Ranking.dfy` | topology, measurement, the flattened matrix and the published ranking |
| `Allocator.dfy`, `Nearest.dfy`, `CpuInfo.dfy` | CPU selection: as a function, over runs, and as the object with its fields |
| `Calculation.dfy` | overlapping and timed-out calculations, interleaved with requests |
| `Watchdog.dfy` | the reactor and its calculations together, as the service runs them |
| `Summary.dfy` | the ranking statistics |
| `Bits.dfy`, `Affinity.dfy` | the affinity mask and its application to a VM's processes |
| `HeatmapTables.dfy`, `Heatmap.dfy` | reading the matrix back from the ranking, and drawing it |
| `Collections.dfy`, `Modular.dfy`, `Wrappers.dfy` | sorting, permutations, sums, remainders, optional results |

Where the program updates fields, the model has a class with those fields; each method is one atomic
section and is proved against a function on the field values, and the theorems are about those
functions and about all runs of them. Where it runs goroutines, the model is a step relation in which
any enabled step may come next.

What the model takes as given:

- The detector reports each CPU number once, as its one-directory-per-CPU source does.
- `rounds` is at least 1. With 0 the program divides by zero and publishes NaN.
- Latencies are real numbers; rounding is not modelled. No bound on them is assumed.
- The standard library's sorts return a sorted rearrangement. Nothing is assumed about ties: the theorems
  hold for every sorted rearrangement.
- A stopped or reset timer delivers no stale tick (Go 1.23 and later; `go.mod` asks for 1.25.5).
- The detector, the measurer, pinning, process lookup and the affinity system call are oracles that may fail
  at every call.

Where the code does not do what one might expect, the model follows the code and says exactly when:

- Summaries of a single-CPU machine report 0 sockets (`CountsOfPublished`).
- The summary's minimum and maximum start from 1e18 and -1 (`ExtremesAreAttained`).
- The heatmap's vertical separators run past its bottom edge when the affinity table is taller
  (`VerticalLinesEndAtHeatmap`, `SeparatorRunsOver`), although the horizontal ones are made to stop at the edge.
- In affinity mode the canvas is wider than it need be when a text is wider than the heatmap (`CanvasIsLeast`).
- A calculation that timed out may still replace a newer ranking (`LateCommitReplacesNewerRanking`); that cannot
  happen when each starts after the one before has ended (`FreshWhenStartedAlone`), and can happen exactly when a
  calculation under way has been or can be overtaken (`StaleExactlyWhenOvertaken`).
- Events that keep coming less than a window apart postpone the recalculation for as long as they last
  (`SteadyEventsPostponeTheHandler`); a pause of one window ends that (`PauseOfAWindowFlushes`).
- CPUs numbered 1024 and above are dropped from a mask without an error (`MaskOf`).
- `SelectCPUs` hands out the stored slice itself (`WriteToSelection`), `GetSelections` a copy (`WriteToCopy`).

## Model

| member | source | states |
|---|---|---|
| HotplugMachine.NoLostWakeup | pkg/cpuinfo/hotplug.go:185-246 | in every reachable state, stopped or not, if an event was offered (accepted or dropped) and no handler call has started since, some queue, batch or hand still holds work |
| HotplugMachine.WorkLeadsToHandler | pkg/cpuinfo/hotplug.go:193-246 | from held work in an unstopped reactor, every run without new events that has not come to a handler call can still go on and has only boundedly many steps left, so no schedule misses the call |
| HotplugMachine.HandlerCallInReach | pkg/cpuinfo/hotplug.go:193-246 | from held work in an unstopped reactor some run of its own steps and passing time ends in a handler call |
| HotplugMachine.EveryEventIsFollowedByAHandlerCall | pkg/cpuinfo/hotplug.go:69-78 | when an unstopped run can make no further progress, every event it was ever offered is followed by a handler call, that is by a recalculation |
| HotplugMachine.SettledIffNoProgress | pkg/cpuinfo/hotplug.go:193-246 | a reachable unstopped reactor is stuck, however long one waits, if and only if queues and batch are empty and both goroutines idle |
| HotplugMachine.DrainBound | pkg/cpuinfo/hotplug.go:193-246 | without new events every schedule takes at most Measure further steps: draining terminates |
| HotplugMachine.MeasureStep | pkg/cpuinfo/hotplug.go:200-246 | each step of batcher, timer or worker strictly lowers the measure, and passing time does not raise it |
| HotplugMachine.Reachable | pkg/cpuinfo/hotplug.go:165-247 | every reachable state, stopped or not, is bounded, conserves events and jobs in order, and has its batch non-empty iff the timer runs; no empty batch is ever closed |
| HotplugMachine.EventsConservedStep | pkg/cpuinfo/hotplug.go:185-235 | every step keeps: accepted events = closed batches + batch being sent + open batch + queued events, in arrival order |
| HotplugMachine.JobsConservedStep | pkg/cpuinfo/hotplug.go:227-246 | every step keeps: jobs that reached the queue = handled + in hand + queued, first in, first out |
| HotplugMachine.EachEventHandledAtMostOnce | pkg/cpuinfo/hotplug.go:221-246 | two handler calls get disjoint, ordered, contiguous stretches of the accepted events |
| HotplugMachine.HandlerCallsDoNotOverlap | pkg/cpuinfo/hotplug.go:238-247 | between two handler starts in any run there is a handler return |
| HotplugMachine.QuietWindowBeforeFlush | pkg/cpuinfo/hotplug.go:205-225 | the tick that closes a batch comes at least one window after every event taken before it, in every run, and the batch it closes is not empty |
| HotplugMachine.SteadyEventsPostponeTheHandler | pkg/cpuinfo/hotplug.go:205-219 | for every number of events there is a run in which they come less than a window apart, all that time passes, and no handler call starts |
| HotplugMachine.PauseOfAWindowFlushes | pkg/cpuinfo/hotplug.go:208-233 | from any unstopped state, if no event comes and goroutines run when they can, all accepted events are flushed by the time more than a window has passed |
| HotplugMachine.EventDroppedOnlyWhenFull | pkg/cpuinfo/hotplug.go:185-191 | in every run an offered event is queued last unless exactly 100 wait, and only then dropped |
| HotplugMachine.BatchDroppedOnlyWhenFull | pkg/cpuinfo/hotplug.go:227-232 | in every run a closed batch is queued last unless exactly 10 jobs wait, and only then dropped |
| HotplugMachine.BurstIsQueued | pkg/cpuinfo/hotplug.go:185-191 | events offered one after another are all queued, in order, as long as 100 are not exceeded |
| HotplugMachine.BurstIsHandledAsOne | pkg/cpuinfo/hotplug.go:185-246 | up to 100 events that come before the batcher runs reach the handler in one batch, all and in order, one window later |
| HotplugMachine.StopLetsBothLeave | pkg/cpuinfo/hotplug.go:181-242 | after a stop both goroutines can leave from wherever they are, within five steps, whatever is still queued |
| Hotplug.HotplugReactor.constructor | pkg/cpuinfo/hotplug.go:165-199 | a new reactor is in the initial state, with its timer stopped, and satisfies the invariant |
| Hotplug.HotplugReactor.Ingest | pkg/cpuinfo/hotplug.go:185-191 | never blocks; enqueues below the buffer size and otherwise drops; keeps the invariant |
| Hotplug.HotplugReactor.StopReactor | pkg/cpuinfo/hotplug.go:181-183 | closes the stop channel once; the rest of the state stays |
| Hotplug.HotplugReactor.TakeEvent | pkg/cpuinfo/hotplug.go:205-206 | moves the oldest event to the end of the batch; keeps the invariant |
| Hotplug.HotplugReactor.Extend | pkg/cpuinfo/hotplug.go:208-219 | re-arms the timer a full window from now whether or not it was running; keeps the invariant |
| Hotplug.HotplugReactor.TakeTick | pkg/cpuinfo/hotplug.go:221-225 | stops the timer and closes the batch; keeps the invariant |
| Hotplug.HotplugReactor.OfferJob | pkg/cpuinfo/hotplug.go:227-232 | enqueues the job below the buffer size and otherwise drops it; keeps the invariant |
| Hotplug.HotplugReactor.TakeJob | pkg/cpuinfo/hotplug.go:243-243 | the worker takes the oldest job; keeps the invariant |
| Hotplug.HotplugReactor.CallHandler | pkg/cpuinfo/hotplug.go:244-244 | the handler is called with the job in hand; keeps the invariant |
| Hotplug.HotplugReactor.Exit | pkg/cpuinfo/hotplug.go:203-242 | a goroutine leaves only after the stop channel was closed and only from its select; keeps the invariant |
| Hotplug.HotplugReactor.BatcherTurn | pkg/cpuinfo/hotplug.go:201-235 | on its turn the batcher takes one enabled step of its own, any ready select case, and does nothing only when none of its steps is enabled |
| Hotplug.HotplugReactor.WorkerTurn | pkg/cpuinfo/hotplug.go:238-247 | the same of the worker |
| Hotplug.HotplugReactor.Interleave | pkg/cpuinfo/hotplug.go:176-191 | for any sequence of turns and any choices of the selects, what happened to the object is a run of the step relation in which each turn in order took one enabled step of its own, or had none; the run offers exactly the listener's events, and from a new reactor, once nothing is left to do and it was not stopped, each of them was followed by a handler call |
| Hotplug.EveryListenedEventIsOffered | pkg/cpuinfo/hotplug.go:116-139 | a run that follows a sequence of turns offers the listener's events, all of them, in order and no others |
| PingPongMachine.HandoffIsExclusive | pkg/cpuinfo/cpuinfo.go:348-375 | in all interleavings the signal is A's stores minus B's and 0 or 1, the threads are never both between load and store, nor both in the mutex, and stores alternate starting with A |
| PingPongMachine.NoHandoffAfterFailure | pkg/cpuinfo/cpuinfo.go:334-370 | if either pinning fails no thread ever enters the handoff loop and nothing is stored |
| PingPongMachine.FirstErrorStays | pkg/cpuinfo/cpuinfo.go:335-364 | the first error recorded is never replaced |
| PingPongMachine.Outcome | pkg/cpuinfo/cpuinfo.go:378-386 | on return the result is the first error recorded; there is one iff some pinning failed, and it is of one that did; otherwise exactly 2 * iter stores were made (none for a negative count) and the signal is 0 |
| PingPongMachine.NoDeadlock | pkg/cpuinfo/cpuinfo.go:332-376 | while a thread is unfinished one of the two has a step that neither blocks nor spins, even when pinning failed on one or both sides |
| PingPongMachine.StepsDescend | pkg/cpuinfo/cpuinfo.go:332-380 | every step changes nothing or lowers a measure, so only boundedly many steps are not spins or waits |
| PingPongMachine.AlwaysReturns | pkg/cpuinfo/cpuinfo.go:321-387 | under every fair scheduler the measurement returns, for every iteration count and whichever pinnings fail |
| PingPongMachine.Reachable | pkg/cpuinfo/cpuinfo.go:321-387 | the barrier, group and mutex counts always agree with where the threads are, and a thread past the barrier is pinned and sees every recorded error |
| PingPong.Link.GoroutineA | pkg/cpuinfo/cpuinfo.go:332-353 | the first goroutine's next statement on the shared variables is its step of the relation |
| PingPong.Link.GoroutineB | pkg/cpuinfo/cpuinfo.go:355-376 | the second goroutine's next statement on the shared variables is its step of the relation |
| PingPong.Link.MeasureSingleLink | pkg/cpuinfo/cpuinfo.go:321-387 | on any schedule the object follows the relation, and if it has returned it answers with the first recorded error, which is of a CPU that could not be pinned, or has made 2 * iter handoffs, alternating from the first goroutine on |
| FairTermination.ReachesGoal | pkg/cpuinfo/cpuinfo.go:348-375 | steps that change nothing (spins) cannot prevent progress when every agent runs again and again |
| Ranking.Accumulate | pkg/cpuinfo/cpuinfo.go:125-146 | after the triple loop every entry of the flattened matrix is the sum over rounds of its pair, zero on the diagonal; otherwise the reported pair is the first failing measurement in call order |
| Ranking.IndexInjective | pkg/cpuinfo/cpuinfo.go:143-143 | different pairs have different places in the flattened matrix |
| Ranking.CollectNeighbors | pkg/cpuinfo/cpuinfo.go:152-167 | the unsorted row of core i lists exactly the other cores with their mean latencies from i |
| Ranking.ComputeRankings | pkg/cpuinfo/cpuinfo.go:118-178 | succeeds iff the detector and all measurements do; then row i is a sorted rearrangement of the measured means from core i |
| Ranking.MeanIsAverage | pkg/cpuinfo/cpuinfo.go:139-159 | the mean of a pair times the number of rounds is the sum of what the measurer answered for it in all rounds |
| Ranking.PublishedEntry | pkg/cpuinfo/cpuinfo.go:151-178 | row i of a published ranking is core i's, and for every other core has an entry with that core's own number, socket and core and the average of the answers measured from i to it |
| Ranking.InPublishedRow | pkg/cpuinfo/cpuinfo.go:154-167 | the row has no other entries |
| Ranking.SucceedsIfAllAnswer | pkg/cpuinfo/cpuinfo.go:129-146 | the measuring succeeds iff every pair of different cores answers in every round |
| Ranking.FailsAtFirstFailingCall | pkg/cpuinfo/cpuinfo.go:129-142 | the pair an error names is source and destination of the first failing call, counted round by round, row by row |
| Ranking.PublishedIsValid | pkg/cpuinfo/cpuinfo.go:149-178 | a published ranking has one row per core and each row lists exactly the other cores, once each, nearest first |
| Ranking.RowLength | pkg/cpuinfo/cpuinfo.go:154-157 | each row has one entry fewer than there are cores |
| Allocator.SelectResult | pkg/cpuinfo/cpuinfo.go:206-243 | a request succeeds iff 0 < k <= core count, despite the early return, with exactly k distinct CPUs of the current topology, remembered for that VM; others' selections stay; an error changes nothing |
| Allocator.SelectAnswers | pkg/cpuinfo/cpuinfo.go:210-242 | which refusal a request gets, in the program's order; and a request not answered from what is stored gets the CPU of the row after the cursor followed by that row's neighbours in the row's order |
| Allocator.SelectKeepsInv | pkg/cpuinfo/cpuinfo.go:206-243 | selecting keeps: cursor in range, every stored selection non-empty and equal to a primary plus a ranking prefix of a row of the current cache |
| Allocator.CommitKeepsInv | pkg/cpuinfo/cpuinfo.go:180-190 | a commit of any valid ranking, larger, smaller or empty, restores the invariant from any state |
| Allocator.RotationGoesOnAfterCommit | pkg/cpuinfo/cpuinfo.go:182-189 | a commit forgets all selections, and the next row is the one after the old cursor modulo the new number of rows, whether the machine grew, shrank or stayed |
| Allocator.RunKeepsInv | pkg/cpuinfo/cpuinfo.go:180-243 | the invariant holds after every sequence of requests and commits |
| Allocator.PickedSelection | pkg/cpuinfo/cpuinfo.go:232-238 | a pick of size k has length k, starts with the row's own CPU and names no CPU twice |
| Allocator.SelectionSticks | pkg/cpuinfo/cpuinfo.go:214-219 | between commits a selection is returned unchanged after any calls without a successful different-size request for that VM |
| Allocator.RepeatedRequest | pkg/cpuinfo/cpuinfo.go:203-219 | a VM that asks again for as many CPUs as it got is told the same CPUs |
| Allocator.ReplacedSelectionIsGone | pkg/cpuinfo/cpuinfo.go:183-240 | the sticking condition is exact: a call ends it iff it is a commit or a successful request of another size for that VM |
| Allocator.RoundRobin | pkg/cpuinfo/cpuinfo.go:185-232 | the j-th allocating request uses row (start + j) mod n across commits that keep n; sticky hits and errors do not advance the cursor |
| Allocator.EveryRowGetsItsTurn | pkg/cpuinfo/cpuinfo.go:182-232 | after m allocations every row has been primary floor(m/n) or ceil(m/n) times, across commits that keep the core count |
| Allocator.EveryCpuGetsItsTurn | pkg/cpuinfo/cpuinfo.go:203-242 | as long as commits keep the machine's CPUs, each CPU comes first in floor(m/n) or ceil(m/n) of the m answers that allocate |
| Nearest.LeastTotalLatency | pkg/cpuinfo/cpuinfo.go:169-238 | the selected neighbours have the least total latency from the primary among all sets of as many other cores, whatever the tie-breaking |
| Nearest.LeastGreatestLatency | pkg/cpuinfo/cpuinfo.go:169-238 | and the least greatest latency |
| Nearest.TotalToIsMeasured | pkg/cpuinfo/cpuinfo.go:159-172 | the totals compared are totals of the measured means, independent of how the row is sorted |
| CpuInfo.CPUInfo.constructor | pkg/cpuinfo/cpuinfo.go:48-54 | a new allocator is empty and satisfies the invariant |
| CpuInfo.CPUInfo.Update | pkg/cpuinfo/cpuinfo.go:118-191 | on any error nothing changes and the error names the failure; on success the cache is the measured ranking, selections are cleared and the cursor is reduced modulo the new core count |
| CpuInfo.CPUInfo.Install | pkg/cpuinfo/cpuinfo.go:180-190 | the critical section replaces cache and selections together and brings the cursor into range |
| CpuInfo.CPUInfo.GetCoreRanking | pkg/cpuinfo/cpuinfo.go:194-201 | the cache, or an error iff it is empty |
| CpuInfo.CPUInfo.SelectCPUs | pkg/cpuinfo/cpuinfo.go:206-243 | the object's whole new state and result are those of the selection function; the returned slice is the stored one, new iff the request allocated |
| CpuInfo.CPUInfo.Append | pkg/cpuinfo/cpuinfo.go:232-238 | the append loop yields the primary followed by its nearest k - 1 neighbours |
| CpuInfo.CPUInfo.GetSelections | pkg/cpuinfo/cpuinfo.go:247-258 | all selections, each in a new slice that no other VM's result shares, in whatever order the map is walked |
| CpuInfo.WriteToCopy | pkg/cpuinfo/cpuinfo.go:247-258 | a write into one VM's slice of the result of GetSelections changes that slice at that place and neither the other slices nor the allocator's state |
| CpuInfo.WriteToSelection | pkg/cpuinfo/cpuinfo.go:240-242 | writing into a result of SelectCPUs changes what the allocator has stored |
| Calculation.AllocatorSurvivesOverlap | pkg/cpuinfo/cpuinfo.go:81-102 | over all interleavings of overlapping, failing, timed-out and late-committing calculations with requests, the allocator's invariant holds and the cache is the complete ranking of the last calculation to commit |
| Calculation.OutcomeMeans | pkg/cpuinfo/cpuinfo.go:95-111 | nil means the caller's own ranking was committed, an update error that it never is, and no calculation commits twice |
| Calculation.DeliverAnswers | pkg/cpuinfo/cpuinfo.go:95-99 | a caller whose update ended in time gets an error iff the detector or a measurement failed, and else goes on to read |
| Calculation.ReadAnswers | pkg/cpuinfo/cpuinfo.go:104-111 | a caller that reads the ranking gets nil iff the topology of the calculation that committed last has a core, else that there is no ranking |
| Calculation.NoRankingOnlyWithoutCpus | pkg/cpuinfo/cpuinfo.go:104-107 | in every run, a caller is told that there is no ranking only if some committed calculation found a machine without CPUs |
| Calculation.Linearizes | pkg/cpuinfo/cpuinfo.go:180-208 | every interleaving is for the allocator one sequence of whole critical sections with valid rankings |
| Calculation.FairUnderOverlap | pkg/cpuinfo/cpuinfo.go:91-242 | in every interleaving that keeps the machine's CPUs, late commits included, each CPU comes first in its floor or ceiling share of the answers |
| Calculation.RowsFairUnderOverlap | pkg/cpuinfo/cpuinfo.go:91-232 | in every interleaving that keeps the core count, each row has its floor or ceiling share of the turns |
| Calculation.LateCommitReplacesNewerRanking | pkg/cpuinfo/cpuinfo.go:91-102 | a run in which a timed-out calculation replaces the ranking of one that started later and finished in time |
| Calculation.FreshWhenStartedAlone | pkg/cpuinfo/cpuinfo.go:91-102 | if every calculation of a run starts while none is computing, the cache never holds an older ranking than one committed before, in spite of timeouts and failures |
| Calculation.StaleExactlyWhenOvertaken | pkg/cpuinfo/cpuinfo.go:91-190 | from a fresh state, some continuation without a new calculation ends with an older ranking in the cache iff a calculation that is computing and will succeed has a later-started one that has committed or is computing and will succeed |
| Watchdog.WatchdogKeepsUp | pkg/cpuinfo/hotplug.go:69-81 | end to end: when the reactor is at rest and no calculation timed out, then after every event offered on the way, dropped or not, a calculation has started, and the cache is the complete ranking of one that started after it iff one of those succeeded |
| Watchdog.InvStep | pkg/cpuinfo/hotplug.go:72-77 | in every interleaving of reactor and calculations, stopped or timed out or not, either work is held or a calculation has started since the last event offered |
| Watchdog.StartupIsQuiet | cmd/service/main.go:74-82 | a service whose first calculation returned nil starts its watchdog with that calculation over and its ranking in the cache |
| Summary.SummarizeRankings | pkg/cpuinfo/cpuinfo.go:412-470 | the pass computes the counts of mentioned CPUs and sockets, the running extremes, the mean and a median of all listed latencies, and zeros for an empty ranking |
| Summary.ExtremesAreAttained | pkg/cpuinfo/cpuinfo.go:418-444 | the reported minimum is the least latency iff some latency is at most 1e18, the maximum the greatest iff some latency is at least -1 |
| Summary.MeanLiesBetween | pkg/cpuinfo/cpuinfo.go:436-457 | the mean lies between the reported extremes, for all inputs |
| Summary.MedianLiesBetween | pkg/cpuinfo/cpuinfo.go:455-456 | so does the median; more than half of the values are at most it and at least half are at least it, which makes it the upper middle value |
| Summary.MeanOfLatencies | pkg/cpuinfo/cpuinfo.go:436-457 | the mean times the number of latencies is their sum |
| Summary.LatenciesOfPublished | pkg/cpuinfo/cpuinfo.go:412-453 | an update's statistics are over n * (n - 1) latencies, and with fewer than two CPUs they are all 0 |
| Summary.CountsOfPublished | pkg/cpuinfo/cpuinfo.go:425-449 | for an update's ranking the CPU count is the core count, and the socket count is the topology's iff there is not exactly one CPU |
| Affinity.CPUSet.Set | pkg/scheduler/affinity_other.go:14-18 | adds exactly the given CPU to the set the words stand for, by its bit in word cpu/64 alone, and changes nothing if it is outside 0..1023 |
| Affinity.CPUSet.IsSet | pkg/scheduler/affinity_other.go:21-26 | true iff the CPU is in the set the words stand for |
| Affinity.CPUSet.SetAll | pkg/scheduler/affinity.go:107-110 | setting all CPUs of a list adds exactly those with a bit |
| Bits.SetBit | pkg/scheduler/affinity_other.go:16-16 | or-ing one shifted bit into a word changes that bit and no other |
| Bits.MaskOrder | pkg/scheduler/affinity_other.go:16-23 | bits are numbered from the least significant: the mask of position 0 is 1, and each next one is the one before shifted up |
| Affinity.MaskOf | pkg/scheduler/affinity.go:104-110 | the mask built for a selection stands for its CPUs that have a bit, hence for exactly the selection iff all are within 0..1023 |
| Affinity.AffinityProvider.CollectPidsToUpdate | pkg/scheduler/affinity.go:132-157 | returns exactly the process's threads (or the process when they cannot be read), its children and their readable threads |
| Affinity.InPidClosure | pkg/scheduler/affinity.go:132-157 | in terms of the lookups alone: collected are the process's threads, or the process itself if they cannot be read, the children, and the threads readable lookups of children list, and nothing else |
| Affinity.InChildThreads | pkg/scheduler/affinity.go:146-154 | which identifiers the children contribute: those some readable lookup lists |
| Affinity.AffinityProvider.SetAffinities | pkg/scheduler/affinity.go:117-124 | one call per process, none twice, all with the same mask, in any map order and whichever calls fail |
| Affinity.OneCallPerProcess | pkg/scheduler/affinity.go:118-120 | as many calls as there are processes |
| Affinity.AffinityProvider.ApplyAffinity | pkg/scheduler/affinity.go:91-130 | a zero core count is an error and a failed selection a skip, both without any call; otherwise each process of the closure gets one call with the selection's mask |
| HeatmapTables.LatenciesAreRecovered | pkg/svg/svg.go:40-52 | the latency table rebuilt from the sorted rows is the measured matrix, zero on the diagonal |
| HeatmapTables.SocketsAreRecovered | pkg/svg/svg.go:48-49 | with at least two CPUs every CPU gets the socket the topology gives it |
| HeatmapTables.AxisIsPermutation | pkg/svg/svg.go:42-54 | the axis is a rearrangement of the topology's CPUs |
| HeatmapTables.AxisIsOrdered | pkg/svg/svg.go:54-63 | the axis is in order of socket, then CPU number |
| HeatmapTables.SocketsAreContiguous | pkg/svg/svg.go:54-63 | CPUs of one socket sit together |
| HeatmapTables.OneBoundaryPerSocket | pkg/svg/svg.go:153-185 | socket changes along the axis number one fewer than the sockets |
| HeatmapTables.SeparatorCount | pkg/svg/svg.go:153-185 | separators number the topology's sockets less one, and the summary's socket count less one iff there is more than one CPU |
| Heatmap.Heatmap.constructor | pkg/svg/svg.go:24-38 | a new heatmap has its tables, axis and canvas ready |
| Heatmap.Heatmap.PrepareData | pkg/svg/svg.go:40-64 | reads sockets and latencies from all rows and sorts the axis by socket and number |
| Heatmap.Heatmap.CalculateDimensions | pkg/svg/svg.go:66-110 | the branches give the canvas of which CanvasIsLeast speaks |
| Heatmap.CanvasIsLeast | pkg/svg/svg.go:66-110 | the canvas holds texts, heatmap and table with the heatmap centred; no lower canvas does; no narrower one does iff the mode is the default one or the texts are no wider than the heatmap |
| Heatmap.Heatmap.Generate | pkg/svg/svg.go:131-245 | fails iff there are no rankings; otherwise draws every cell row by row, coloured by its share of the reported maximum, labels, separators at all socket boundaries and, in affinity mode, the table |
| Heatmap.Heatmap.DrawAffinity | pkg/svg/svg.go:220-244 | one table row per VM with that VM's CPUs, ascending, 40 pixels apart, every other one shaded, whatever the map order |
| Heatmap.HeatmapShowsMeasurements | pkg/svg/svg.go:145-213 | n * n cells; the cell of row r and column s stands in that row and column and shows the mean latency measured between those two CPUs, zero and grey exactly on the diagonal, elsewhere coloured by its share of the greatest latency |
| Heatmap.LabelsNameTheirCpus | pkg/svg/svg.go:145-175 | each row and column is labelled with the CPU whose measurements its cells show, and the label is level with them |
| Heatmap.SeparatorsAreSocketChanges | pkg/svg/svg.go:153-185 | horizontal and vertical separators stand at the same indices, at every socket change along the axis and nowhere else |
| Heatmap.SeparatorsOfRanking | pkg/svg/svg.go:153-185 | for an update's ranking, a line runs above row k, and left of column k, iff that CPU and the one before it are on different sockets of the machine |
| Heatmap.EverythingFits | pkg/svg/svg.go:66-244 | in a drawing for any number of CPUs and VMs, none included, title and statistics fit the width, and all cells, separators, label anchors and table rows, or the empty table's frame, lie within the canvas |
| Heatmap.VerticalLinesEndAtHeatmap | pkg/svg/svg.go:94-184 | for an update's ranking, all vertical separators drawn end at the heatmap's bottom iff the machine has at most one socket, the affinity table is hidden, or it lists at most n - 2 VMs (an empty one counting as one row); horizontal ones always end at its edge |
| Heatmap.SeparatorRunsOver | pkg/svg/svg.go:177-184 | a ranking an update can publish, two CPUs on two sockets, whose separator runs ten pixels past the heatmap when one VM is listed, whatever the CPU's name of up to 40 characters |
| Heatmap.RatiosAreFractions | pkg/svg/svg.go:191-196 | with non-negative latencies the colour ratio of every cell lies in 0..1 |

## Left out

- Hotplug.HotplugReactor.StopReactor: a second stop panics in the program; here it is not an enabled step. After a stop remaining events may be abandoned, and only conservation, the debounce conditions and non-overlap are claimed.
- PingPong.Link.MeasureSingleLink: the duration and its division by the number of handoffs are wall-clock floating point; the weak-memory effects of the spin loops are not modelled beyond sequential consistency.
- Calculation.OutcomeMeans: nothing is claimed for a caller that timed out, since its update may or may not commit.
- Affinity.CPUSet.Set: the Linux build uses the mask type of golang.org/x/sys instead; that package is not part of this model.
- Affinity.AffinityProvider.ApplyAffinity: the result is the list of CPUs, not the comma-joined string; the overflow of cores * sockets in 64 bits is not modelled.
- Heatmap.EverythingFits: labels and a VM's list of CPUs are placed but not measured; the program does not measure them either, and a long list runs past the canvas.
- Heatmap.Heatmap.CalculateDimensions: the lengths of the CPU name and of the formatted statistics are parameters.
- Netlink messages, sysfs and /proc reading, thread pinning and sched_setaffinity: outside the program; they appear as oracles.
- Whether a mask is still right after a concurrent commit: the program does not guarantee it.
- The Unix-socket service, the hook, the command line, JSON, logging and configuration: plumbing with easy claims only.
- Colour interpolation, label texts and the SVG template: presentation.
- Measurement rounds of 0 and iteration counts of 0 in the final division: NaN and infinities have no real counterpart.

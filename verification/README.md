# Operating-systems simulators, verified

A Dafny model of a set of small C simulators: four CPU schedulers, CLOCK page replacement, two-level
demand paging over a sparse physical memory, shortest-seek-first disk scheduling, a TLB, and four
multithreaded programs. Code that works in place is modelled by methods and classes over arrays, linked
nodes and fields; each is tied to a function or a predicate of the state, and the theorems are about
those. Concurrent programs are state machines whose steps are single semaphore, lock, queue or buffer
operations, interleaved in any order by any number of threads.

| file | what it models |
|---|---|
| `Schedule.dfy`, `Optimality.dfy` | charts (who holds the CPU in each time unit), legal schedules, the optimality of least-remaining-first, minimal makespan |
| `Processes.dfy` | the process array, the shared selection scan and the bookkeeping of the loops |
| `Srtf.dfy`, `Sjf.dfy`, `ArrivalOrder.dfy`, `Fifo.dfy`, `RoundRobin.dfy`, `Policies.dfy` | the four schedulers, what each is best at and how they compare |
| `Clock.dfy`, `Conservative.dfy`, `SecondChance.dfy`, `Competitive.dfy` | CLOCK, its conservativeness and cold start, the second chance of a page requested again, its competitive ratio |
| `Paging.dfy`, `Mmu.dfy` | demand paging as a function of the state, and in place |
| `Sstf.dfy` | the disk scheduler |
| `Servers.dfy`, `Trylock.dfy` | the servers round a table, the nested trylocks |
| `Warehouse.dfy`, `WarehouseRuns.dfy` | the warehouse, and what its threads have done after a run |
| `Matrices.dfy`, `ThreadPool.dfy` | the matrix product and its laws, the thread pool that computes it |
| `Tlb.dfy` | the translation buffer in front of a page table |
| `MachineTypes.dfy`, `Sums.dfy`, `Arithmetic.dfy` | the C integer types, sums and counts over sequences, set sizes, products and ceilings by repeated addition |

`dafny verify dfyconfig.toml` checks the whole project.

## How the main results go

- **SRTF.** A schedule is a chart. After any history, for every set of jobs left out of account there is
  a set no larger, for the SRTF chart, that leaves no more work. One tick and any arrivals keep this, so
  SRTF never has more unfinished jobs than another schedule; turnaround is unfinished jobs summed over
  time.
- **CLOCK.** While a page stays loaded, whatever the hand leaves behind is unreferenced or was requested
  since, and on a second trip only the latter. The page can be chosen as victim only once every other
  frame holds a page requested since, so n distinct other pages were requested by then.
  Cutting a run into phases of n distinct pages bounds the faults against any policy with as many frames
  or fewer. None of this minds requests for page 255, the mark of an empty frame: of the frames so marked
  only the first is ever found. What 255 does upset, a page's first request being a fault, is settled
  exactly (`FirstRequestsFault`). What sets CLOCK apart from first in, first out is the bit a request
  sets: a page keeps its frame until the hand has been over it (`StaysUntilPassed`).
- **FIFO.** Up to the end of any process the schedule is one of that process and those before it alone,
  and never idles while one of them is ready. Any other schedule of those ends no sooner.
- **Paging.** Frame numbers come from a counter that equals the number of mapped pages, at most 2^20, so
  the 20-bit field never cuts one; translation is injective, and the list then behaves as flat memory.
- **SSTF.** Movement stays within the width swept plus twice the last jump across it.
- **Round robin.** The clock moves only with work done. The loop ends exactly if work never runs dry;
  the code has no branch for an idle CPU, so one late arrival makes it spin (`LateArrivalSpins`).
- **Warehouse.** Tokens and stock balance at every step, so nothing is lost and nothing gets stuck. Where
  a thread stands depends only on its own steps and draws, which fixes what is stored and how long the
  run is.
- **Thread pool.** The ring has m x p slots and equal front and rear read as empty. If all tasks are
  added before any is taken they are all lost; the run then computes nothing. That is the only way it
  can fail (`CompleteIffTakenInTime`), and whenever there is a cell to compute some run does fail so
  (`CompleteIffEmpty`).

## Model

| member | source | states |
|---|---|---|
| `Optimality.DominatesStep` | Fork, Wait, Exec, Process Scheduling/q4.c:146-164 | One tick under least-remaining-first keeps the comparison with any other schedule: for every set of jobs left out, some set no larger leaves no more work, whatever the other schedule ran in that tick |
| `Optimality.DominatesArrivals` | Fork, Wait, Exec, Process Scheduling/q4.c:147 | Arrivals keep that comparison: the same new jobs join both schedules |
| `Optimality.DominanceOverTime` | Fork, Wait, Exec, Process Scheduling/q4.c:142-182 | The comparison holds at every time of every pair of runs |
| `Optimality.FewestUnfinished` | Fork, Wait, Exec, Process Scheduling/q4.c:142-182 | Hence at every time least-remaining-first has no more unfinished jobs than any other preemptive schedule |
| `Optimality.TurnaroundByTime` | Fork, Wait, Exec, Process Scheduling/q4.c:168-173 | The summed turnaround times equal the summed numbers of unfinished jobs over time, less the arrivals |
| `Optimality.ShortestFirstOptimal` | Fork, Wait, Exec, Process Scheduling/q4.c:142-182 | No preemptive single-CPU schedule of the same processes has a smaller total turnaround than one that always serves a process of least remaining time, however ties are broken |
| `Optimality.MostWorkDone` | Fork, Wait, Exec, Process Scheduling/q4.c:142-182 | A schedule that never idles while a process is ready has at all times done at least as much work as any other |
| `Optimality.MakespanMinimal` | Fork, Wait, Exec, Process Scheduling/q4.c:142-182 | Such a schedule, if it does not end idle, finishes as early as any schedule can |
| `Schedule.RunForKeepsConserving` | Fork, Wait, Exec, Process Scheduling/q4.c:104-117 | Running one ready process for a while keeps a schedule legal and never idle while a process is ready |
| `Schedule.LegalRan` | Fork, Wait, Exec, Process Scheduling/q4.c:147-164 | In any legal schedule no process gets more CPU than its burst, nor any before it arrives |
| `Processes.SelectShortest` | Fork, Wait, Exec, Process Scheduling/q4.c:143-157 | Returns -1 exactly when no process is ready, and otherwise a ready process with the least key; among those the earliest arrival; among those the lowest index |
| `Processes.AllCounted` | Fork, Wait, Exec, Process Scheduling/q4.c:110-117 | When the counter of completed processes reaches n, every process has had its whole burst and the two accumulators are the sums of turnaround and response times |
| `Processes.ReportAccurate` | Fork, Wait, Exec, Process Scheduling/q4.c:54-58 | The times reported are those of the schedule: the process holds the CPU at its start time and just before its completion time and never outside; turnaround and response count from its arrival |
| `Processes.TotalsOfRecords` | Fork, Wait, Exec, Process Scheduling/q4.c:57-63 | With the times of the records so right, the two totals are the sums of the turnaround and response times in them |
| `ShortestRemainingTime.SrtfIsShortestFirst` | Fork, Wait, Exec, Process Scheduling/q4.c:146-157 | The code's tie-breaking is one instance of serving a process of least remaining time |
| `ShortestRemainingTime.SrtfPreempts` | Fork, Wait, Exec, Process Scheduling/q4.c:150-157 | A running process that is not finished gives way only to a process that arrives at that moment with strictly less time left |
| `ShortestRemainingTime.SrtfTies` | Fork, Wait, Exec, Process Scheduling/q4.c:153-156 | While a process runs, every other ready one with as much time left arrived later, or together with it and stands later in the array |
| `ShortestRemainingTime.SrtfAlike` | Fork, Wait, Exec, Process Scheduling/q4.c:146-157 | Of two processes with equal arrival and burst the first in the array ends before the other starts |
| `ShortestRemainingTime.SrtfServe` | Fork, Wait, Exec, Process Scheduling/q4.c:159-178 | One tick given to the chosen process keeps array, flags, counters and totals those of the extended schedule |
| `ShortestRemainingTime.Srtf` | Fork, Wait, Exec, Process Scheduling/q4.c:128-182 | The loop ends; every record shows the times of a schedule that serves by least remaining time with ties to the earlier process, preempts only for a newcomer with less left, and runs like processes in order; the totals are its totals, and no preemptive schedule has a smaller total turnaround or finishes earlier |
| `ShortestJob.SimultaneousRun` | Fork, Wait, Exec, Process Scheduling/q4.c:86-121 | When all processes arrive together, serving the shortest whole never leaves one with less remaining waiting |
| `ShortestJob.SjfOrder` | Fork, Wait, Exec, Process Scheduling/q4.c:90-101 | A process ready when another starts, with a larger burst, or an equal one and a later arrival or higher index, starts only after it; so equal bursts go in order of arrival |
| `ShortestJob.SjfServe` | Fork, Wait, Exec, Process Scheduling/q4.c:104-117 | Serving the chosen process whole keeps array, flags, counters and totals those of the extended schedule |
| `ShortestJob.Sjf` | Fork, Wait, Exec, Process Scheduling/q4.c:72-121 | The loop ends; every record shows the times of a schedule that runs each pick whole, a shorter ready process first and equal bursts in order of arrival; it finishes as early as any schedule, and when all arrive together no schedule, preemptive or not, has a smaller total turnaround |
| `FirstCome.BubblePass` | Fork, Wait, Exec, Process Scheduling/q4.c:33-40 | One pass of the sort permutes the array and puts one more record in its final place |
| `FirstCome.SortByArrival` | Fork, Wait, Exec, Process Scheduling/q4.c:32-41 | The in-place sort leaves the same processes, each once, in order of arrival and then pid |
| `FirstCome.ShuffleOnto` | Fork, Wait, Exec, Process Scheduling/q4.c:32-41 | No process is lost by the sort: each original record is at some position |
| `FirstCome.FifoServe` | Fork, Wait, Exec, Process Scheduling/q4.c:54-64 | Serving the record at one position keeps array and totals those of the extended schedule |
| `ArrivalOrder.DoneInOrder` | Fork, Wait, Exec, Process Scheduling/q4.c:32-65 | Served in order of arrival, when a process ends it and all before it are done and nothing later has run |
| `ArrivalOrder.SomeoneAsLate` | Fork, Wait, Exec, Process Scheduling/q4.c:32-65 | In any legal schedule that process or one before it ends no sooner |
| `ArrivalOrder.LargestTurnaroundMinimal` | Fork, Wait, Exec, Process Scheduling/q4.c:32-65 | So no schedule, preemptive or not, has a smaller largest turnaround than service in order of arrival |
| `FirstCome.Fifo` | Fork, Wait, Exec, Process Scheduling/q4.c:30-65 | The array is left in order of arrival and then pid, each process done before the next starts and each record showing the times of its process in a schedule that serves whole bursts; totals are its totals, no schedule finishes earlier, and none has a smaller largest turnaround |
| `RoundRobin.StepProgress` | Fork, Wait, Exec, Process Scheduling/q4.c:206-239 | A pass either moves the clock or brings the queue position closer to any ready process |
| `RoundRobin.TurnsInOrder` | Fork, Wait, Exec, Process Scheduling/q4.c:206-239 | Pass k is the turn of process k mod n: if it has arrived and is unfinished it gets a whole quantum, or all it has left if that is less, and otherwise the clock stands still |
| `RoundRobin.SomeReady` | Fork, Wait, Exec, Process Scheduling/q4.c:211 | If arrivals leave no idle gap, an unfinished run always has a ready process |
| `RoundRobin.FinishedMeansNoGap` | Fork, Wait, Exec, Process Scheduling/q4.c:206-239 | A run that finishes shows there was no gap, since the clock reads exactly the work done |
| `RoundRobin.TerminatesIff` | Fork, Wait, Exec, Process Scheduling/q4.c:206-239 | The loop ends if and only if, for every t below the total burst, the bursts of processes arriving by t sum to more than t |
| `RoundRobin.LateArrivalSpins` | Fork, Wait, Exec, Process Scheduling/q4.c:206-239 | One process arriving at time 1 keeps the loop spinning for ever, whatever the quantum |
| `RoundRobin.RunBounded` | Fork, Wait, Exec, Process Scheduling/q4.c:206-239 | At every pass each waiting process has waited at most one quantum per queue position passed, and its delays so far are within its rounds |
| `RoundRobin.LatencyBound` | Fork, Wait, Exec, Process Scheduling/q4.c:206-239 | In every run a process first gets the CPU within (n-1) quanta of its arrival and completes within burst + ceil(burst/quantum) x (n-1) quanta |
| `RoundRobin.RrServe` | Fork, Wait, Exec, Process Scheduling/q4.c:212-233 | The branch that runs a process keeps array, flags, counters and totals those of the next state |
| `RoundRobin.RrPass` | Fork, Wait, Exec, Process Scheduling/q4.c:206-238 | One pass of the loop, whether or not it finds a process to run, moves array, flags, counters and totals to the next state |
| `RoundRobin.RrPasses` | Fork, Wait, Exec, Process Scheduling/q4.c:189-239 | Cut off after any number of passes, even where the loop would never end, the array shows the state of the pass-by-pass model, and the loop is over exactly when that is finished |
| `RoundRobin.Rr` | Fork, Wait, Exec, Process Scheduling/q4.c:189-239 | Without an idle gap the loop ends in a state of the pass-by-pass model with everything finished; every record shows the times of its schedule and nothing left to run, the totals are its totals, both latency bounds hold for every process, and no schedule finishes earlier |
| `Policies.SameMakespan` | Fork, Wait, Exec, Process Scheduling/q4.c:30-239 | On the same processes complete runs of any two of the four policies end at the same time |
| `Policies.LeastTurnaround` | Fork, Wait, Exec, Process Scheduling/q4.c:30-239 | The total turnaround of SRTF is at most that of FIFO, SJF and round robin |
| `ClockReplacement.Clock.constructor` | Segmentation, Paging, IPC/q5.c:22-28 | Every frame starts with page 255, the 8-bit value of -1, and both bits clear |
| `ClockReplacement.Clock.IsPageInMemory` | Segmentation, Paging, IPC/q5.c:29-36 | True exactly when some frame holds the page |
| `ClockReplacement.Clock.FindEmptyFrame` | Segmentation, Paging, IPC/q5.c:38-45 | Never finds a frame: the 8-bit page number is compared with -1 as an int |
| `ClockReplacement.Clock.ClockAlgorithm` | Segmentation, Paging, IPC/q5.c:47-70 | Ends within one revolution, with the victim, hand and bits of the sweep function |
| `ClockReplacement.Clock.HandlePageRequest` | Segmentation, Paging, IPC/q5.c:72-92 | One request changes memory, hand and exactly one counter as the request function says |
| `ClockConservative.SweepKeeps` | Segmentation, Paging, IPC/q5.c:47-70 | A sweep moves no page and sets no bit, and leaves the victim unreferenced |
| `ClockConservative.AfterKeeps` | Segmentation, Paging, IPC/q5.c:72-92 | At every point of a run no page but 255 is in two frames, no dirty bit is set, and of several frames holding 255 only the first is ever referenced |
| `ClockConservative.TrackSweep` | Segmentation, Paging, IPC/q5.c:47-70 | While a page stays loaded, the hand leaves behind on its first trip only frames unreferenced or with pages requested since, on later trips only the latter |
| `ClockConservative.EvictionNeedsAll` | Segmentation, Paging, IPC/q5.c:50-68 | When the frame of a page is chosen as victim, all frames hold different pages requested since it was loaded, none of them the page now requested |
| `ClockConservative.Conservative` | Segmentation, Paging, IPC/q5.c:47-92 | Between two faults on the same page more than n distinct pages were requested; so in a window of at most n distinct pages none faults twice |
| `ClockConservative.FaultsInWindow` | Segmentation, Paging, IPC/q5.c:72-92 | In such a window the faults are on distinct pages, all from the window |
| `ClockConservative.ColdFill` | Segmentation, Paging, IPC/q5.c:38-45 | Until page 255 is first requested, the first n faults fill frames 0, 1, 2, ... in order although no frame is ever recognised as empty, and afterwards no frame is empty |
| `ClockConservative.ColdFault` | Segmentation, Paging, IPC/q5.c:82-91 | Each of those faults loads into the first unused frame and changes nothing else, so evicts nothing |
| `ClockConservative.FirstRequestFor255` | Segmentation, Paging, IPC/q5.c:24-31 | The first request for page 255, which the mark of an empty frame looks like, is taken for a hit exactly when fewer than n distinct pages were requested before it |
| `ClockConservative.FirstRequestsFault` | Segmentation, Paging, IPC/q5.c:72-92 | Every page's first request is a fault if and only if page 255 is not first requested before n distinct other pages |
| `ClockSecondChance.SweepMeans` | Segmentation, Paging, IPC/q5.c:47-70 | With some frame unreferenced the victim is the first such from the hand on, and exactly the frames before it lose their bit; otherwise it is the frame at the hand, and all lose theirs |
| `ClockSecondChance.ServedIsReferenced` | Segmentation, Paging, IPC/q5.c:74-91 | A page just requested is in memory with its bit set, whether it was a hit or loaded |
| `ClockSecondChance.SecondChance` | Segmentation, Paging, IPC/q5.c:57-66 | A page requested just before a fault survives it if any frame is unreferenced |
| `ClockSecondChance.StaysUntilPassed` | Segmentation, Paging, IPC/q5.c:50-68 | A page requested stays in its frame, referenced, until the hand has gone over that frame |
| `ClockCompetitive.WindowForcesMisses` | Segmentation, Paging, IPC/q5.c:72-92 | Of the distinct pages in a window any demand-paging policy with h frames misses all but h after the first request |
| `ClockCompetitive.Competitive` | Segmentation, Paging, IPC/q5.c:47-92 | On every request sequence, against any policy with h <= n frames, even one that knows the future: (n - h + 1) x faults <= n x (misses + n - h) |
| `ClockCompetitive.SameSizeCompetitive` | Segmentation, Paging, IPC/q5.c:47-92 | With as many frames as the policy, the faults are at most n times its misses |
| `ClockCompetitive.ClockIsPaging` | Segmentation, Paging, IPC/q5.c:72-92 | CLOCK is itself such a policy; it faults exactly when it misses if and only if page 255 is not first requested before n distinct other pages |
| `ClockCompetitive.Simulate` | Segmentation, Paging, IPC/q5.c:94-116 | The counters printed are the faults and hits of the run, their sum is the number of requests, and whatever is requested the competitive bound holds against every policy with as many frames or fewer, and while some frame is unreferenced a page just requested survives the next fault |
| `Paging.AddressParts` | Segmentation, Paging, IPC/q4.c:55-57 | Directory index and table index, both below 1024, and offset below 4096 make up the whole 32-bit address |
| `Paging.MapPageKeeps` | Segmentation, Paging, IPC/q4.c:38-52 | A fault on an unmapped page gives it the next frame number, uncut by the 20-bit field, and changes no other page's frame |
| `Paging.PhysicalInjective` | Segmentation, Paging, IPC/q4.c:65-66 | In every state kept by the operations two mapped addresses translate to the same physical address only if they are equal |
| `Paging.TouchKeeps` | Segmentation, Paging, IPC/q4.c:54-67 | Translating an address, with the frames that allocates, changes the byte seen at no address |
| `Paging.ReadAfterWrite` | Segmentation, Paging, IPC/q4.c:81-97 | In the list keyed by physical address a write is seen at its own address and nowhere else |
| `Paging.StoreKeeps` | Segmentation, Paging, IPC/q4.c:81-97 | A store changes the byte seen at exactly its own virtual address and keeps list addresses distinct |
| `Paging.RunInv` | Segmentation, Paging, IPC/q4.c:33-97 | In every reachable state the frame counter, the fault counter and the number of mapped pages agree, are at most 2^20, frames are distinct and below the counter, and no table is empty |
| `Paging.RefinesFlatMemory` | Segmentation, Paging, IPC/q4.c:69-97 | After any loads and stores a load returns the value last stored at that very address, or 0 if there was none |
| `Paging.RunTallies` | Segmentation, Paging, IPC/q4.c:59-63 | Each operation counts as one fault or one hit, the counters being 32 bits wide |
| `Paging.LastStoredIs` | Segmentation, Paging, IPC/q4.c:81-97 | What a load returns is the value of the last operation that stores at its address, and 0 if no operation does |
| `Paging.MappedAreTouched` | Segmentation, Paging, IPC/q4.c:54-67 | The pages mapped are exactly the 4 KiB pages of the addresses named so far |
| `Paging.FaultsArePages` | Segmentation, Paging, IPC/q4.c:104-107 | Faults equal the number of different 4 KiB pages named, and allocated tables are no more than faults, so the table size printed is an upper bound |
| `Mmu.Unit.AllocateFrame` | Segmentation, Paging, IPC/q4.c:33-36 | Returns the old frame counter and changes nothing else |
| `Mmu.Unit.HandlePageFault` | Segmentation, Paging, IPC/q4.c:38-52 | On the directory of tables in place, does what the fault function says: counts, allocates a missing table, and maps the page unless it is mapped |
| `Mmu.Unit.TranslateAddress` | Segmentation, Paging, IPC/q4.c:54-67 | On the directory in place, does what the translation function says and returns its address |
| `Mmu.Unit.FindNode` | Segmentation, Paging, IPC/q4.c:71-77 | The walk down the list stops at the first node with the address, or at its end |
| `Mmu.Unit.Load` | Segmentation, Paging, IPC/q4.c:69-79 | Returns and leaves what the load function says |
| `Mmu.Unit.Store` | Segmentation, Paging, IPC/q4.c:81-97 | Overwrites the node found or puts a new one at the head, as the store function says |
| `Mmu.Session` | Segmentation, Paging, IPC/q4.c:111-138 | At the prompt every store echoes its value, every load shows the value of the last store before it to that address or 0 if there is none, and the fault counter ends as the number of different pages named |
| `DiskScheduling.FindNearestRequest` | Hard Disk and File IO/q2.c:49-66 | Returns the first of the unserved requests nearest to the head, and -1 exactly when all are served |
| `DiskScheduling.JumpPaid` | Hard Disk and File IO/q2.c:76-102 | Total movement stays within the width swept plus twice the last jump across it |
| `DiskScheduling.StillOutside` | Hard Disk and File IO/q2.c:76-102 | After a move every unserved request no nearer than the one served is still outside the interval swept, and at least the last jump beyond the end just left |
| `DiskScheduling.SweepTo` | Hard Disk and File IO/q2.c:76-102 | Both facts hold after every request served nearest first |
| `DiskScheduling.GreedyBound` | Hard Disk and File IO/q2.c:76-102 | Serving nearest first moves the head at most three times the width of any band containing start and requests |
| `DiskScheduling.AnyOrderCrosses` | Hard Disk and File IO/q2.c:76-102 | Any order that serves everything crosses the whole band |
| `DiskScheduling.WithinThreeOfBest` | Hard Disk and File IO/q2.c:76-102 | Hence nearest first moves the head at most three times as far as any order of service |
| `DiskScheduling.RotationBound` | Hard Disk and File IO/q2.c:35-46 | With sector numbers not negative the rotational latency is at most 825 ms a request |
| `DiskScheduling.TrackOfSector` | Hard Disk and File IO/q2.c:19-21 | The track computed for a sector is the one track of 100 it lies on, counting from 0 and mirrored for negative numbers, and the remainder is its place on it |
| `DiskScheduling.GreedyTies` | Hard Disk and File IO/q2.c:53-63 | Of two requests equally far from the head when one of them is served, the one given first goes first |
| `DiskScheduling.SimulateSstf` | Hard Disk and File IO/q2.c:69-102 | Serves every request exactly once, nearest first, ties in the order given; the tracks are those the sectors lie on and the head starts on track 1; the seek time is 2 ms for each track moved over, with both bounds, and the rotational latency 25/3 ms for each sector turned past |
| `ServerTable.NextInv` | Multithreading/q2.c:22-34 | Every semaphore operation of any server keeps each channel either free or held by exactly one of the two servers beside it |
| `ServerTable.ExclusiveChannels` | Multithreading/q2.c:22-34 | A channel reads 0 exactly when some server holds it, and never two do |
| `ServerTable.NeighboursExclude` | Multithreading/q2.c:30-31 | Neighbouring servers never process at the same time |
| `ServerTable.Unblock` | Multithreading/q2.c:22-28 | While a server is unfinished some server can move: following holders leads to ever higher channels |
| `ServerTable.StuckIsDone` | Multithreading/q2.c:14-40 | No server can move only when all tasks are done and every channel is back at 1 |
| `ServerTable.EveryRunFinishes` | Multithreading/q2.c:14-40 | For any number of servers from two up, every interleaving has at most 4 steps per task, and one that can go no further has taken exactly that many with all tasks done and every channel free |
| `ServerTable.Table.Step` | Multithreading/q2.c:19-34 | One operation on the shared arrays is the step of the model |
| `ServerTable.Serve` | Multithreading/q2.c:43-58 | Letting any server move that can, the program ends after exactly 4 steps per task with everything done and put back |
| `WarehouseThreads.InsertKeeps` | Multithreading/q3.c:40-42 | Inserting keeps the cells holding 1 exactly the count cells from out, and in = (out + count) mod 25 |
| `WarehouseThreads.RemoveKeeps` | Multithreading/q3.c:70-75 | Removing up to k products keeps that, and removes exactly the smaller of k and the count |
| `WarehouseThreads.RoomToInsert` | Multithreading/q3.c:36-42 | A truck in its critical section always finds room |
| `WarehouseThreads.TruckCounts` | Multithreading/q3.c:36-47 | A truck's step keeps empty + full + tokens in flight = 25, and the stock covered by full tokens, trucks yet to post and managers yet to remove |
| `WarehouseThreads.ManagerCounts` | Multithreading/q3.c:66-83 | A manager's step keeps both, however many products it removes for its one token |
| `WarehouseThreads.ManagerTakes` | Multithreading/q3.c:70-75 | In its critical section a manager takes the number of products it chose, from 1 to 3, or all there are if fewer, and stores as many |
| `WarehouseThreads.NextConserves` | Multithreading/q3.c:26-83 | Products drawn are always those still to insert, those on the shelf and those taken off it |
| `WarehouseThreads.NextInv` | Multithreading/q3.c:23-88 | Every step of any thread keeps all of this and the mutex with the thread whose position says so |
| `WarehouseThreads.Progress` | Multithreading/q3.c:30-48 | With at least one manager and a truck not yet gone, some thread can move in every reachable state |
| `WarehouseThreads.StuckIsSettled` | Multithreading/q3.c:63-86 | With a manager at work nothing can move only when every truck has made its deliveries, every product is stored and the warehouse is empty |
| `WarehouseThreads.EveryRunEnds` | Multithreading/q3.c:23-88 | Whatever the interleaving and the random numbers: 0 <= count <= 25, products are conserved, the run is finite, and with a manager it ends only as just described |
| `WarehouseRuns.EveryRunRecorded` | Multithreading/q3.c:23-88 | After any run every thread stands where its own steps and draws put it: a manager goes round in six steps holding the number it drew in the first of them, a truck makes two deliveries of the sizes it drew at five steps a product and is gone, and the products ordered are those drawn |
| `WarehouseRuns.StoredIsDrawn` | Multithreading/q3.c:23-88 | With a manager at work a run that can go no further has stored exactly the two numbers each truck drew, each from 1 to 6 |
| `WarehouseRuns.ExactLength` | Multithreading/q3.c:23-88 | However the threads interleave, such a run has taken exactly eleven steps for each product, two for each truck and one for each manager |
| `WarehouseRuns.AnyDrawsStored` | Multithreading/q3.c:26-64 | Whatever two numbers from 1 to 6 each truck draws and whatever number from 1 to 3 each manager keeps drawing, some run stores it all |
| `WarehouseThreads.Warehouse.PutProduct` | Multithreading/q3.c:40-42 | The truck's critical section on the buffer in place inserts one product |
| `WarehouseThreads.Warehouse.TakeProducts` | Multithreading/q3.c:70-75 | The manager's loop on the buffer in place removes the smaller of its number and the count |
| `WarehouseThreads.Warehouse.MoveTruck` | Multithreading/q3.c:26-57 | A truck's step on the shared variables is the step of the model |
| `WarehouseThreads.Warehouse.MoveManager` | Multithreading/q3.c:64-86 | A manager's step on the shared variables is the step of the model; in the critical section the count drops by the number it chose, or to 0, and the stored products grow by as much |
| `MatrixThreadPool.PushIffRoom` | Multithreading/q4p2.c:71-72 | Adding a task appends it to the queue seen from front to rear if and only if two slots were free; on the last free slot the queue reads as empty |
| `MatrixThreadPool.EveryCellHasTask` | Multithreading/q4p2.c:167-178 | The tasks made by the main loops cover every cell of the product |
| `MatrixThreadPool.TaskCount` | Multithreading/q4p2.c:152 | There are exactly as many tasks as the ring has slots, m x p |
| `MatrixThreadPool.AddKeepsFifo` | Multithreading/q4p2.c:68-76 | Adding a task in any reachable state keeps the ring a queue of the pending tasks in order, unless all tasks are added before any was taken |
| `MatrixThreadPool.TakeKeepsFifo` | Multithreading/q4p2.c:33-38 | A worker that finds the queue not empty takes the oldest pending task |
| `MatrixThreadPool.NextAwake` | Multithreading/q4p2.c:33-40 | No wake-up is lost: while tasks can be seen, a worker is awake or about to be signalled |
| `MatrixThreadPool.SleepersChange` | Multithreading/q4p2.c:33-35 | A signal wakes exactly one worker if any is asleep; only a worker that finds the queue empty falls asleep |
| `MatrixThreadPool.NextInv` | Multithreading/q4p2.c:29-76 | Every step keeps the queue, the lock with its holder, and each task taken in one worker's hands or run once, its cell written with the right value |
| `MatrixThreadPool.StuckIsAsleep` | Multithreading/q4p2.c:31-35 | The pool stops only with all tasks added, all workers waiting and the ring reading as empty |
| `MatrixThreadPool.EveryRunEnds` | Multithreading/q4p2.c:29-87 | Every interleaving with any number of workers, spurious wake-ups allowed: queue order, no lost wake-up, a bound on its length, and at its end either the product complete with every task run once or nothing run at all; a one-cell product is never computed |
| `MatrixThreadPool.CompleteIffTakenInTime` | Multithreading/q4p2.c:167-178 | The finished result is the product if and only if some worker had taken a task by the time the last was added |
| `MatrixThreadPool.SingleTaskNeverTaken` | Multithreading/q4p2.c:71-72 | With one task the one-slot ring always reads as empty |
| `MatrixThreadPool.LosingRun` | Multithreading/q4p2.c:167-178 | For every product with a cell and any number of workers some interleaving adds all tasks before any is taken and ends with nothing computed |
| `MatrixThreadPool.CompleteIffEmpty` | Multithreading/q4p2.c:122-178 | Every interleaving computes the product if and only if it has no rows or no columns |
| `MatrixThreadPool.Pool.AddTask` | Multithreading/q4p2.c:68-76 | On the array in place: the queue grows by the task, or vanishes if only one slot was free |
| `MatrixThreadPool.Pool.TakeTask` | Multithreading/q4p2.c:37-38 | On the array in place: returns the oldest task and leaves the rest |
| `Matrices.ProductIsSum` | Multithreading/q4p2.c:82-84 | A cell of the product is the sum over k of a[i][k] x b[k][j] |
| `Matrices.IdentityLeft` | Multithreading/q4p2.c:78-87 | Multiplying by the identity matrix gives back the other factor; `IdentityRight` is the mirror image |
| `Matrices.SumSwap` | Multithreading/q4p2.c:82-84 | The cells of a grid add up to the same by rows and by columns |
| `Matrices.Associative` | Multithreading/q4p2.c:78-87 | The product as computed is associative, for matrices of any fitting sizes |
| `MatrixThreadPool.RunTask` | Multithreading/q4p2.c:89-98 | A task writes the sum over k of a[row][k] x b[k][col] into its cell and touches no other |
| `MatrixThreadPool.SequentialMatrixMultiplication` | Multithreading/q4p2.c:78-87 | The triple loop leaves in every cell the sum over k of a[i][k] x b[k][j], the same product |
| `TranslationBuffer.LookupFinds` | Segmentation, Paging, IPC/q3.c:47-58 | A page is found exactly when it is among the last four missed, and then with the page table's own entry |
| `TranslationBuffer.EntriesDistinct` | Segmentation, Paging, IPC/q3.c:60-66 | Valid entries are for different pages |
| `TranslationBuffer.InsertKeeps` | Segmentation, Paging, IPC/q3.c:60-66 | Round-robin replacement leaves exactly the last four pages missed |
| `TranslationBuffer.Transparent` | Segmentation, Paging, IPC/q3.c:68-98 | With any page table each translation, faults included, is what the page table alone gives; it hits exactly for the last four pages missed, and counts so |
| `TranslationBuffer.RunKeeps` | Segmentation, Paging, IPC/q3.c:47-98 | After any translations the buffer holds what is said, and the counters, 32 bits wide, are the numbers of hits and of misses |
| `TranslationBuffer.InitialTableIsIdentity` | Segmentation, Paging, IPC/q3.c:33-39 | Under the table the program sets up every address translates to itself |
| `TranslationBuffer.Outcomes` | Segmentation, Paging, IPC/q3.c:79-97 | By the table alone: a segmentation fault exactly for an invalid page, a protection fault exactly for a valid one without access, and otherwise the offset kept under the low 4 bits of the frame number |
| `TranslationBuffer.NothingCutOff` | Segmentation, Paging, IPC/q3.c:97 | With frames below 16 the 16-bit result loses nothing |
| `TranslationBuffer.Mmu.constructor` | Segmentation, Paging, IPC/q3.c:33-45 | Sets up the identity table and an empty buffer |
| `TranslationBuffer.Mmu.CheckTlb` | Segmentation, Paging, IPC/q3.c:47-58 | The scan of the array returns the first matching entry and counts one hit or one miss |
| `TranslationBuffer.Mmu.UpdateTlb` | Segmentation, Paging, IPC/q3.c:60-66 | Overwrites the next entry in turn |
| `TranslationBuffer.Mmu.TranslateAddress` | Segmentation, Paging, IPC/q3.c:68-98 | On the array in place returns the page table's answer and whether the page was among the last four missed |
| `TranslationBuffer.Session` | Segmentation, Paging, IPC/q3.c:100-139 | At the prompt every address comes back unchanged |
| `NestedTrylocks.NextInv` | Multithreading/q1.c:14-38 | Every step of any thread keeps each lock with the thread whose position says so, and none at the branch that waits for lock B |
| `NestedTrylocks.BInsideA` | Multithreading/q1.c:16-30 | Lock B is only held by the holder of lock A |
| `NestedTrylocks.EveryRunEnds` | Multithreading/q1.c:14-38 | For any number of threads and any interleaving the branch that waits for lock B is never reached, and the run ends within 15 steps a thread with every try made and both locks free |
| `NestedTrylocks.ThreeTriesEach` | Multithreading/q1.c:12-38 | A run that can go no further has made exactly three tries a thread, and taken two steps for each and three more for each that found lock A free |
| `NestedTrylocks.Locks.Step` | Multithreading/q1.c:14-38 | One operation on the shared mutexes is the step of the model |
| `NestedTrylocks.RunThreads` | Multithreading/q1.c:44-55 | Letting any thread move that can, the program ends with every counter at 0 and both locks free |

## Left out

- RoundRobin.Rr: requires that arrivals leave no idle gap, because otherwise the loop never ends, as `RoundRobin.TerminatesIff` shows exactly; `RoundRobin.RrPasses` is free of that. Bursts are at least 1, for the reason given for `ShortestJob.Sjf`.
- Processes.SelectShortest: keys are below INT_MAX, where the scan starts from; a key of INT_MAX makes it compare with element -1.
- ShortestRemainingTime.Srtf: bursts are at least 1; a burst of 0 makes the countdown pass below zero.
- ShortestJob.Sjf: bursts are at least 1; a process of burst 0, which the loop completes at once, holds no time unit that a chart could show.
- FirstCome.Fifo: bursts are at least 1, for the same reason.
- MatrixThreadPool.SequentialMatrixMultiplication: sums are unbounded integers, while the C sums are undefined on overflow.
- MatrixThreadPool.EveryRunEnds: a signal wakes one waiting worker, any others it may wake being spurious wake-ups; the one-second sleep is taken to last until nothing more can happen.
- WarehouseThreads.EveryRunEnds: managers are followed until they wait for ever; the program cancels them once the trucks have left.
- ServerTable.EveryRunFinishes: for any number of tasks and two servers or more (the program has five with three tasks each); a single server would wait for ever for the channel it already holds.
- ClockReplacement.Clock.constructor: needs at least one frame; with none the program divides by zero.
- DiskScheduling.SimulateSstf: seek time and rotational latency are real numbers, not rounded.
- Scheduler clocks and totals, semaphores and counts of the threaded programs are unbounded; averages are left as totals, FIFO's float accumulators as integers.
- `MAX_FRAMES`, `MAX_REQUESTS` and other input limits, parsing, printing, random numbers as such (any value in range is allowed), sleeping and timing.
- Shifts and masks are written as division and remainder by powers of two.
- The `deliveries` array of the warehouse, indexed from 1 with one cell too few: each truck has its own counter.
- The unsynchronised read of `count` that only decides whether a message is printed.
- Creation and joining of threads, and cancellation: threads not yet created are threads not yet scheduled.
- The earlier-address scan in the TLB program's main loop, whose result is overwritten.
- `Segmentation, Paging, IPC/q1.c`: merge sort over forked children and pipes, whose sortedness and permutation are standard.
- `Segmentation, Paging, IPC/q2.c`: segment translation, a few one-branch computations.
- `Multithreading/q4p1.c`: the same matrix product with one thread per cell, as `MatrixThreadPool.RunTask` describes it.
- `Fork, Wait, Exec, Process Scheduling` q1 to q3 and `Hard Disk and File IO` q1, q3, q4 and q5: process and file-system calls, text parsing and a textbook search.

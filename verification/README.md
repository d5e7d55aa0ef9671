# Verified models of the XiTAO runtime and its algorithms

XiTAO executes graphs of moldable tasks: every task is run jointly by a contiguous gang of workers. The repository
also holds a reuse-distance profiler and several task-parallel algorithms. This project models these parts and proves
what they are for.

- **The runtime protocol** (`Runtime*.dfy`). One state machine whose labels are the atomic steps of the workers and of
  the client: taking and stealing from the ready queues, inserting into the assembly queues under ordered locks, the
  start rendezvous of a gang, execution, commit, release and wake-up of successors, batched accounting of
  `pending_tasks`, exit. The place of a task is any range of workers. Results are about every run of every length,
  with any number of workers: nothing is lost or done twice, nobody waits forever for somebody who cannot move, and the
  work in a run is bounded.
- **The primitives below it** (`SpinBarrier.dfy`, `LockFreeQueue.dfy`). The reusable spin barrier with its wrapping
  step counter, and the linked FIFO with two-step pushes and stepwise pops.
- **Task graphs that mean the serial program** (`DagExecution.dfy`). If every two conflicting tasks are joined by a
  path, all topological orders end in the same store. `SparseLu*.dfy` and `BlockKernels.dfy` apply this to blocked
  sparse LU, whose graph comes from a last-writer table, and prove that the result is a factorization; `HeatStencil.dfy` and
  `HeatDag.dfy` apply it to the Jacobi stencil.
- **The reuse-distance profiler** (`Reuse*.dfy`, `BinaryLog.dfy`). The doubly linked list of intervals with its splices,
  refined to operations on a sequence of entries, which are then proved to be a byte-level LRU stack. What a probe makes
  of every byte and which words every histogram counter counts is said in terms of that stack and of the trace.
- **The 13-unit merge sort** (`SortLib.dfy`, `MergeLib.dfy`, `MergeSort*.dfy`). The sequential kernels, the inner graph
  whose units hand parameters to later units, and the worker loop as a state machine over every schedule. The task is
  described for every size; it turns out to sort exactly the sizes that are divisible by 8.
- **FMM geometry** (`Quad*.dfy`, `CellTree.dfy`, `InteractionLists.dfy`, `TraversalOrder.dfy`, `FmmTree.dfy`,
  `Hilbert.dfy`). The bounding square, the in-place quadtree build, the dual-tree interaction lists and the Hilbert curve.
- **Breadth-first search** (`BreadthFirst.dfy`), level by level, in any order inside a level.

Code that changes state in place is a class or a method over arrays and node objects; each is proved against a function
or a predicate on values, and the lemmas are about that. Integers are unbounded except where 32-bit wrap-around is
written out (`ReuseStack.Add32`, `ReuseStack.Sub32`, the step counter of the barrier).

Many predicates are written `var holds := ...; holds`. The named value keeps the verifier from taking the conjunction
apart at every use, which keeps each proof small.

In one place a comment and its code disagree, and the model follows the code. `binsplit` is described as finding the
greatest element that is at most the value (`benchmarks/randomDAGs/sortlib.cxx:210-213`); its comparison sends equal
elements to the upper half, so it stops before the elements equal to the value unless the very first element is one. The
model computes that position, and the merge needs no more than that it separates smaller from larger elements.

Three restrictions that the code leaves to its callers are stated as exact conditions. The merge sort task sorts a size if
and only if it is positive and divisible by 8 (`MergeSortSizes.SizesThatSort`); the quadtree build ends if and only if
no more than `ncrit` bodies lie at any one point (`FmmTree.BuildEnds`); an invalidation probe invalidates all of its range
that is on the stack if and only if counting the bytes of an end match twice does not stop it short of a valid entry
(`ReuseProbes.ProbeInvalidates`).

## Model

| member | source | states |
|---|---|---|
| RuntimeSteps.StepKeepsInv | src/tao_sched.cpp:293-418 | Every step of the worker loop and of the client keeps the whole invariant: each task is in exactly one place, lock holders hold a contiguous range, gangs, reference counts and `pending_tasks` agree with the graph. |
| RuntimeProgress.AheadIsAcyclic | include/queue_manager.h:53-66 | "Ahead of in some assembly queue" has no cycle over tasks, for overlapping places and half-finished insertions too. |
| RuntimeProgress.LockProgress | include/queue_manager.h:58-65 | Workers that wait for assembly locks never block each other in a circle: from any of them the chain of lock owners goes up the locks and ends at a worker that waits for nobody and can move. |
| RuntimeProgress.GangProgress | src/tao_sched.cpp:338-341 | A completely placed unfinished task implies some worker that is in neither a closed rendezvous nor a lock queue. |
| RuntimeProgress.GangDeadlockFreedom | src/tao_sched.cpp:321-361 | While a distributed task is unfinished, some worker is stuck neither in a lock nor in the start rendezvous. |
| RuntimeProgress.DeadlockFreedom | src/tao_sched.cpp:293-418 | With an acyclic graph whose sources were pushed, as long as a task is uncommitted some worker can take a useful step. |
| RuntimeProgress.AdvanceIsEnabled | src/tao_sched.cpp:299-392 | A worker that "can advance" has an enabled step of the machine, so the progress results are about real steps. |
| RuntimeRuns.NoCycleInAnyRun | include/queue_manager.h:53-66 | The acyclicity result after every run from the start. |
| RuntimeRuns.NoGangDeadlockInAnyRun | src/tao_sched.cpp:321-361 | Gang deadlock freedom after every run from the start. |
| RuntimeRuns.NoDeadlockInAnyRun | src/tao_sched.cpp:293-418 | Global deadlock freedom after every run that built an acyclic graph and pushed its sources. |
| RuntimeTermination.WorkIsBounded | src/tao_sched.cpp:293-418 | Every run, of any length, holds at most 7n + 5 working steps for each task (n workers) and one for each edge; all other steps of workers are polls that find nothing. |
| RuntimeTermination.WorkSoon | src/tao_sched.cpp:293-418 | A worker that can advance does a working step after at most five polls of its own. |
| RuntimeTermination.CanFinish | src/tao_sched.cpp:293-418 | From every state with the invariant, so every reachable one, with an acyclic graph whose sources were pushed, the workers alone can commit every task, within a bound on the number of steps. |
| RuntimeRuns.ExactlyOnce | src/tao_sched.cpp:299-363 | In every run a task is pushed at most once on each assembly queue, executed at most once by each worker and committed at most once; a committed task exactly once by each worker of its place and by no other. |
| RuntimeRuns.DependencyOrder | src/poly_task.cpp:125-148 | When a worker starts a task, every worker of the place of each predecessor has executed that predecessor, once. |
| RuntimeRuns.RefcountMeansEdges | src/poly_task.cpp:102-107 | In every reachable state `refcount` is the number of incoming edges that no commit has released. |
| RuntimeQuiescence.PendingZero | src/poly_task.cpp:62-69 | `pending_tasks` is never negative, and it is zero exactly when all created tasks are committed and all completions and pool credits are flushed; then all queues are empty. |
| RuntimeRuns.ExitIsSafe | src/tao_sched.cpp:394-417 | When a worker leaves its loop or the drain condition holds, every created task was committed exactly once and nothing is queued or in progress. |
| RuntimeRuns.CountIsRecord | src/tao_sched.cpp:299-363 | Over any run an event (execution, push, commit) is produced once if the run makes it happen, never otherwise. |
| RuntimeQueues.LastInFirstOut | include/queue_manager.h:68-101 | A task put on a ready queue, by the client or by a wake-up, is the one handed out by the take, own or stolen, that brings the queue back to its length before, whatever the run does in between; the queue is then what it was. |
| RuntimeQueues.FirstInFirstOut | include/queue_manager.h:53-82 | Over every run, what an assembly queue held followed by what was pushed on it is what its worker took from it followed by what it still holds, in order. |
| RuntimeCritical.OnlyAssembliesQueued | src/poly_task.cpp:125-148 | In every run, whatever is in an assembly queue is an assembly task, as the cast in the worker loop takes for granted. |
| RuntimeCritical.WokenIsQueued | src/poly_task.cpp:130-133 | Whoever wakes a critical simple task puts it into an assembly queue, from any state. |
| RuntimeCritical.GuardIsNeeded | src/poly_task.cpp:130-133 | So a program that creates such a task, which the guard on creation excludes, reaches a state with a simple task in an assembly queue. |
| SpinBarrier.BarrierSafety | src/barriers.cpp:64-78 | For any number of threads and rounds: nobody leaves a round before all entered it, exactly one thread per round returns true, and the wrapped counter never aliases. |
| SpinBarrier.BarrierOpens | src/barriers.cpp:66-73 | When all threads have entered the round, some thread can reset or release it. |
| LockFreeQueue.LFQueue.Publish | include/lfq-fifo.h:108-112 | The first half of `push` appends one item and writes only to a node that has not been freed and is not about to be. |
| LockFreeQueue.LFQueue.Unlink | include/lfq-fifo.h:84-91 | Moving `first` takes exactly the oldest item off, for `pop` and `pop_front`. |
| LockFreeQueue.LFQueue.Take | include/lfq-fifo.h:97-98 | After the unlink `pop_front` reads exactly the item that was taken off. |
| LockFreeQueue.LFQueue.Delete | include/lfq-fifo.h:101 | The freed node is the retired one; without a push in flight `last` is not freed. |
| LockFreeQueue.Interleave | include/lfq-fifo.h:73-114 | Any interleaving of the producers' steps with the consumer's, by `front` and `pop` or by `pop_front`: items handed out, then the one on its way, then those queued are exactly the items published, in order. |
| DagExecution.ScheduleIndependence | src/poly_task.cpp:125-148 | If every conflicting pair is joined by a path, any two topological orders give the same store. |
| DagExecution.ForwardTopological | benchmarks/sparselu/sparselu.cpp:341-367 | When all edges go forward, creation order is a topological order. |
| SparseLu.ConflictsReach | benchmarks/sparselu/sparselu.cpp:128-289 | Any two tasks that touch a block one of them writes are joined by a path of last-writer edges. |
| SparseLu.ReadIsFinal | benchmarks/sparselu/sparselu.cpp:341-367 | A block that a task only reads is written by no task of the same or a later stage. |
| SparseLu.DagMeansSerial | benchmarks/sparselu/sparselu.cpp:114-294 | For every number of blocks, null pattern and kernels, every topological order of the graph leaves the blocks of the serial loop. |
| SparseLuDag.DagBuilder.Build | benchmarks/sparselu/sparselu.cpp:114-294 | The parallel loop creates the tasks of the serial loop in order, makes each last-writer edge exactly once and pushes exactly the sources, each once. |
| SparseLuLoops.Serial | benchmarks/sparselu/sparselu.cpp:341-367 | The serial loop, with fill-in, runs the kernel calls of the task list and ends with the pattern of the last step. |
| BlockKernels.Lu0InPlace | benchmarks/sparselu/sparselu.h:44-54 | The in-place triple loop computes the function `Lu0`. |
| BlockKernels.FwdInPlace | benchmarks/sparselu/sparselu.h:56-64 | The in-place triple loop computes the function `Fwd`. |
| BlockKernels.BdivInPlace | benchmarks/sparselu/sparselu.h:66-76 | The in-place triple loop computes the function `Bdiv`. |
| BlockKernels.BmodInPlace | benchmarks/sparselu/sparselu.h:78-89 | The in-place triple loop computes the function `Bmod`. |
| BlockKernels.Lu0Factors | benchmarks/sparselu/sparselu.h:44-54 | With nonzero pivots the unit lower times the upper triangle of the result is the input block. |
| BlockKernels.FwdSolves | benchmarks/sparselu/sparselu.h:56-64 | The result X satisfies L X = col. |
| BlockKernels.BdivSolves | benchmarks/sparselu/sparselu.h:66-76 | With nonzero pivots the result X satisfies X U = row. |
| BlockKernels.BmodSubtracts | benchmarks/sparselu/sparselu.h:78-89 | The result is the old block minus the matrix product. |
| SparseLuFactors.SparseIsDense | benchmarks/sparselu/sparselu.cpp:341-367 | With null blocks read as zero, skipping them and filling in changes nothing: the sparse run ends with the blocks of dense block elimination. |
| SparseLuFactors.DenseFactors | benchmarks/sparselu/sparselu.cpp:341-367 | The block triangles of dense elimination multiply back to the original matrix. |
| SparseLuFactors.SerialFactors | benchmarks/sparselu/sparselu.cpp:341-367 | The serial loop is a factorization, for every null pattern that keeps the diagonal. |
| SparseLuFactors.DagFactors | benchmarks/sparselu/sparselu.cpp:114-294 | So is every execution of the task graph, in any topological order. |
| HeatStencil.ChunksCover | benchmarks/heat/heat-tbb.cxx:99-102 | The ceil-divided chunks cover each inner position exactly once and nothing else. |
| HeatStencil.DagIsJacobi | benchmarks/heat/heat-tbb.cxx:272-348 | For every grid, decomposition and iteration count, any topological order leaves `u` as `maxiter` full Jacobi sweeps do, border included. |
| HeatDag.Builder.Build | benchmarks/heat/heat-tbb.cxx:272-348 | The loops create every task once, phase after phase, with exactly the edges to the same and the four neighbouring chunks of the next phase. |
| HeatDag.Jacobi2D | benchmarks/heat/heat-tbb.cxx:90-114 | One chunk: inner cells of the chunk get the average of their neighbours, nothing else changes. |
| HeatDag.Copy2D | benchmarks/heat/heat-tbb.cxx:131-149 | One chunk is copied, nothing else changes. |
| HeatDag.Solve | benchmarks/heat/heat-tbb.cxx:272-348 | Running the tasks on the arrays in any topological order leaves the iterates in `u`. |
| ReuseList.EntryStack.Remove | loi/krd.c:347-364 | Unlinking any entry, head and tail included, keeps `next` and `prev` consistent, takes exactly that entry out and leaves the cursor on the one before it, or null. |
| ReuseList.EntryStack.Split | loi/krd.c:370-390 | Splicing a second part behind an entry keeps the links and puts exactly the two parts in its place. |
| ReuseList.EntryStack.SplitInThree | loi/krd.c:463-490 | The same for the three parts of an interior probe. |
| ReuseList.EntryStack.DropTail | loi/krd.c:535-540 | Freeing the last entry keeps the links and drops exactly that entry. |
| ReuseList.EntryStack.PushFront | loi/krd.c:401-412 | The new entry becomes the head, in front of all others. |
| ReuseProfiler.Profiler.Access | loi/krd.c:312-435 | The walk on the linked list, with its steps back to a possibly null `prev`, leaves exactly the list and the histograms of the sequence functions, whose meaning the rows on `ReuseDistance` and `ReuseCounters` state. |
| ReuseProfiler.Profiler.Probe | loi/krd.c:447-542 | So does the walk of an invalidation probe, cutting off an invalid tail; the rows on `ReuseProbes` state what that makes of every byte. |
| ReuseProfiler.Profiler.Process | loi/krd.c:231-580 | Over any trace of positive sizes the profiler is `RunTrace`. |
| ReuseProbes.ProbeIs | loi/krd.c:447-542 | For every stack and probe, the exact fate of every byte: inside the range it becomes invalid with the core of the probe unless the walk stopped by a miscount above it, otherwise it keeps its bit and core, and it leaves exactly if it is on an invalid last piece, below another one, when the walk gets to the bottom. |
| ReuseProbes.ProbeInvalidates | loi/krd.c:447-542 | Every byte of the range still on the stack ends up invalid with the core of the probe if and only if the walk stops short of no entry of the range that is not so already; without an end match this always holds. |
| ReuseProbes.OutsideStays | loi/krd.c:447-542 | A byte outside the range keeps its bit and core, or was invalid and goes with the tail; so valid bytes outside stay. |
| ReuseProbes.EndMatchStopsShort | loi/krd.c:506-533 | Accesses of [8, 12) and [0, 8) and a probe of [4, 12): the end match is subtracted twice, and byte 8 stays valid. |
| ReuseCounters.CountersMean | loi/krd.c:318-343 | For every trace of accesses and probes: each bucket of the distance, shared and invalidation histograms, and the miss counters, are the numbers of accessed words found valid, found valid with another core, found in an invalid entry, or not found, at a distance whose bucket it is; the distance is the bytes on the stack down to and with the entry of the word. |
| ReuseCounters.ReusesMean | loi/krd.c:332-343 | In terms of the trace, if no probe stops short: bucket k counts the accessed words accessed before and not probed since, at a distance there; the shared histogram counts those of them that another core accessed last. |
| ReuseCounters.AccessesMean | loi/krd.c:318-432 | Without probes: no invalidation misses, four times the cold misses is the number of distinct bytes accessed, and the two histograms count every access of a word accessed before. |
| ReuseCounters.DistanceMeans | loi/krd.c:318-320 | That distance is more than the distinct bytes accessed since the last access of the byte, and at most those accessed at or after it. |
| ReuseTraces.Conservation | loi/krd.c:312-542 | For 4-byte-aligned traces of accesses and probes: entries stay disjoint, reuses plus cold misses are exactly the words accessed, shared reuses never exceed reuses in any bucket, invalidation misses never exceed cold misses. |
| ReuseDistance.ReuseDistanceBound | loi/krd.c:318-343 | In any trace of accesses and probes, at a match of byte `b` the distance is strictly more than the distinct bytes accessed since, and at most those accessed at or after its last access; it is kept modulo 2^32, hence exact while the latter count is below 2^32. |
| ReuseDistance.ColdIffNew | loi/krd.c:419-432 | A byte is matched exactly if it was accessed before; the bytes counted cold are as many as the new ones. |
| ReuseDistance.SlotBrackets | loi/krd.c:320-342 | The bucket y of a match satisfies 2^(y-1) < max(distance, size) <= 2^y. |
| BinaryLog.CeilLog2 | loi/krd.c:144-167 | The bit-mask loop computes the base-2 ceiling of every positive 64-bit number. |
| BinaryLog.BucketUnique | loi/krd.c:144-167 | Only one y brackets a number, so the bracket determines the bucket. |
| SortLib.SeqPart | benchmarks/randomDAGs/sortlib.cxx:68-103 | No scan leaves [low, high]; low <= p < high; everything up to p is at most the pivot and everything after at least; only the range is rearranged. |
| SortLib.InsertionSort | benchmarks/randomDAGs/sortlib.cxx:105-116 | The range, possibly empty, ends sorted and rearranged; the rest of the array stays. |
| SortLib.SeqQuick | benchmarks/randomDAGs/sortlib.cxx:121-132 | Loop, recursion and insertion sort terminate with the range sorted and a permutation, for every threshold of at least 1. |
| MergeLib.SeqMerge | benchmarks/randomDAGs/sortlib.cxx:134-206 | The fast loop, the slow loop and the final copy write exactly the merge of the two ranges, empty ranges included. |
| MergeLib.BinSplit | benchmarks/randomDAGs/sortlib.cxx:208-228 | The binary search returns the position given by `SplitCount`, and one before the range if the value is below all. |
| MergeLib.SplitCountSplits | benchmarks/randomDAGs/sortlib.cxx:208-228 | In a sorted range that position separates smaller from larger elements. |
| MergeLib.MergeHalvesSorts | benchmarks/randomDAGs/sortlib.cxx:329-350 | Splitting both ranges at one value and merging the halves gives a sorted arrangement of all elements. |
| MergeSortSteps.RunKeepsInv | benchmarks/randomDAGs/taosort.h:251-255 | Any unit whose predecessors have run finds its inputs in place, and running it keeps the invariant. |
| MergeSortSteps.AllRunSorts | benchmarks/randomDAGs/taosort.h:232-270 | When all units have run, the array is the sorted arrangement of the input. |
| MergeSortFootprints.FootprintsDisjoint | benchmarks/randomDAGs/taosort.h:119-221 | What a runnable unit writes, no other runnable unit reads or writes. |
| MergeSortFootprints.RunsCommute | benchmarks/randomDAGs/taosort.h:119-221 | Two units that may run at the same time leave the same memory in both orders. |
| MergeSortTao.RunsOnceInOrder | benchmarks/randomDAGs/taosort.h:232-270 | For every size, width and schedule, a unit runs at most once and only after the units it waits for. |
| MergeSortTogether.NoRaces | benchmarks/randomDAGs/taosort.h:232-270 | For every width and schedule, two workers that have a unit at the same time have different ones, with disjoint footprints, and both orders leave the same memory. |
| MergeSortTao.NoStall | benchmarks/randomDAGs/taosort.h:236-269 | While units remain, some worker on its own makes progress within four steps. |
| MergeSortTao.DoneLeaves | benchmarks/randomDAGs/taosort.h:236-237 | When nothing remains, every worker reaches the loop test and leaves. |
| MergeSortTao.LeavingMeansSorted | benchmarks/randomDAGs/taosort.h:232-270 | For every size divisible by 8: when any worker has left, all 13 units have run, once each and in order, and the array is the sorted input. |
| MergeSortTask.QuickMerge.constructor | benchmarks/randomDAGs/taosort.h:110-227 | For every size, the 13 descriptions written by the constructor are the starting state of the model. |
| MergeSortTask.QuickMerge.ExecuteUnit | benchmarks/randomDAGs/taosort.h:251-255 | For every size, executing a unit whose ranges lie inside the arrays is the step of the model, with its parameters handed on. |
| MergeSortAlone.Execute | benchmarks/randomDAGs/taosort.h:232-270 | The loop as code, for one worker and the sizes divisible by 8: it terminates with the array sorted and a permutation. |
| MergeSortOrders.ExecutionIsOrder | benchmarks/randomDAGs/taosort.h:232-270 | For every size, width and schedule the memory is what the units make of it in the order they ran in, and when a worker has left that order is the whole task. |
| MergeSortSolo.SoloRuns | benchmarks/randomDAGs/taosort.h:232-270 | A gang of one runs the units in the order 3, 2, 5, 8, 9, 1, 0, 4, 6, 7, 10, 11, 12 and leaves, for every size and input. |
| MergeSortInTurn.InTurnResult | benchmarks/randomDAGs/taosort.h:110-270 | For sizes from 8 on that leave 0 to 5 and inputs with sorted quarters, it leaves the merge of halves of halves, with each search over two fourths of the range only. |
| MergeSortSizes.SizesThatSort | benchmarks/randomDAGs/taosort.h:110-270 | For all inputs of a size, any number of workers and any schedule, the task keeps to its buffers and a worker that has left leaves the array sorted, if and only if the size is positive and divisible by 8. |
| MergeSortSizes.FailsOn | benchmarks/randomDAGs/sortlib.cxx:329-350 | Sizes from 8 on that leave 1 to 5 after division by 8: a single worker leaves the input 1...1 0...0 2...2 (for size 12: 111000222222), or 1...1 0...0 if 4 does not divide the size, unsorted, because a search stops short of the end of its range. |
| MergeSortSizes.LeavesBuffers | benchmarks/randomDAGs/taosort.h:131-194 | Sizes below 8 or that leave 6 or 7: with every input and every order of the units, unit 4 searches an empty range or unit 9 writes beyond the end of the buffer. |
| MergeSortSizes.EmptySearchStays | benchmarks/randomDAGs/sortlib.cxx:216-222 | On an empty range a round of `binsplit` changes nothing and its loop goes on, so below size 8 the task does not end. |
| MergeSortSizes.NarrowSearches | benchmarks/randomDAGs/sortlib.cxx:216-222 | That round is the one of the loop: on a range of two or more elements it keeps what is searched for. |
| QuadBuild.Count | benchmarks/fmm-2d/build_tree.h:43-50 | The counters hold the number of bodies of each quadrant. |
| QuadBuild.Permute | benchmarks/fmm-2d/build_tree.h:59-67 | The counting sort puts the bodies of each quadrant, in order, into its range of the buffer, and writes nowhere else. |
| QuadBuild.Builder.BuildCells | benchmarks/fmm-2d/build_tree.h:24-90 | The recursion with exchanged arrays leaves the bodies of the range in the original array in their final order and builds exactly the cells below; nothing outside changes. |
| QuadTree.OrderPermutes | benchmarks/fmm-2d/build_tree.h:59-67 | The final order is a permutation of the bodies. |
| QuadDepth.SplitsIffFew | benchmarks/fmm-2d/build_tree.h:35-41 | From any cell that contains its bodies, some number of levels separates them into leaves if and only if no more than `ncrit` coincide. |
| QuadForest.TreeIsProper | benchmarks/fmm-2d/build_tree.h:69-89 | The built cells are a tree: children behind their parent, every other cell has exactly one parent, and each child covers a quadrant of its parent's square. |
| QuadContents.EveryCellHolds | benchmarks/fmm-2d/build_tree.h:24-90 | Every cell has its own index, points into the original array, and its range holds exactly the input bodies in its square; a cell is a leaf exactly if they are at most `ncrit`, and otherwise nonempty children partition the parent's range in quadrant order. |
| FmmTree.RootBounds | benchmarks/fmm-2d/build_tree.h:7-21 | The centre is as far from the lowest as from the highest body in each dimension, and the radius is 1.00001 times the distance of the body furthest off in any dimension. |
| FmmTree.BoundingUnique | benchmarks/fmm-2d/build_tree.h:7-21 | That determines the centre and the radius. |
| FmmTree.GetBounds | benchmarks/fmm-2d/build_tree.h:7-21 | The loop over the bodies computes this square. |
| FmmTree.BuildEnds | benchmarks/fmm-2d/build_tree.h:24-90 | The recursion on a set of bodies ends if and only if no more than `ncrit` of them lie at any one point. |
| FmmTree.BuildTree | benchmarks/fmm-2d/build_tree.h:92-101 | For every nonempty set of bodies of which no more than `ncrit` coincide, the build ends with a proper tree below the bounding square whose cells all hold what they promise, and a permuted body array. |
| FmmTree.BuildLists | benchmarks/fmm-2d/fmm.cxx:42-50 | After build and traversal with theta 0.4 the lists hold exactly the pairs that `TraversalOrder.LargerFirst` names, and every leaf is on its own P2P list. |
| CellTree.NestedNotFar | benchmarks/fmm-2d/traverse.h:134-136 | Cells of which one contains the other are never far, for any theta whose square is at most one half. |
| InteractionLists.ExactCover | benchmarks/fmm-2d/traverse.h:133-149 | For any two trees and any far test, exactly one entry covers each pair of leaves below the two cells, and none covers another pair. |
| InteractionLists.EntriesProper | benchmarks/fmm-2d/traverse.h:136-139 | M2L entries passed the far test; P2P entries failed it and are pairs of leaves. |
| InteractionLists.LeafMeetsItself | benchmarks/fmm-2d/traverse.h:191 | On one tree cut into quadrants every leaf is on its own P2P list, as the later lookup needs. |
| TraversalOrder.LargerFirst | benchmarks/fmm-2d/traverse.h:133-149 | On one tree the larger cell is opened first: an entry is a pair on one level, or with the target one level below the source, or further apart only where the larger cell is a leaf; it is on a list if and only if it is far or joins two leaves and no such pair above it is far. |
| InteractionLists.Traversal.GetList | benchmarks/fmm-2d/traverse.h:133-149 | The in-place recursion terminates and appends exactly the entries of the pair to the lists, in order; `TraversalOrder.LargerFirst` says which they are on one tree. |
| Hilbert.IndexOfCurve | benchmarks/fmm-2d/hilbert.h:16-61 | Every position leads to a cell of the square and back. |
| Hilbert.CurveOfIndex | benchmarks/fmm-2d/hilbert.h:233-282 | Every cell leads to a position of the range and back. |
| Hilbert.CurveSteps | benchmarks/fmm-2d/hilbert.h:16-61 | Consecutive positions are cells at distance one. |
| Hilbert.LowBitsMatter | benchmarks/fmm-2d/hilbert.h:274-280 | `xy2d` calls `rot` with the side of the quadrant, so coordinates may go negative or stay too large: whatever they are, a round sees the leading bit and leaves the right bits below it. |
| Hilbert.D2xy | benchmarks/fmm-2d/hilbert.h:16-61 | The loop over the last digits computes the curve. |
| Hilbert.Xy2d | benchmarks/fmm-2d/hilbert.h:233-282 | The loop over the first bits computes the inverse of the curve. |
| BreadthFirst.NextLevel | benchmarks/bfs/bfs.cpp:206-220 | What a round finds is exactly the set of nodes one step further. |
| BreadthFirst.NothingBeyond | benchmarks/bfs/bfs.cpp:225-236 | An empty level means that everything reachable has been reached. |
| BreadthFirst.Search.Run | benchmarks/bfs/bfs.cpp:197-236 | For every graph and every processing order inside a round the search terminates; `cost` is the length of a shortest walk, and -1 exactly for unreachable nodes. |

## Left out

- Thread creation, affinity, options, environment, printing, statistics, clocks and trace files: input and output.
- The performance model and the layout tables: the place of a task is any range inside the workers.
- Weak memory orders: every atomic operation, and every short locked section on a ready queue, is one step. Incrementing and comparing `threads_out_tao` is one step.
- Deletion of tasks after their commit, and tasks created or graphs extended behind the machine's guards: the client adds an edge only while its source has not begun to commit and its target has not been released, pushes each task without incoming edges at most once, and creates tasks for existing pools.
- In the runtime, a task without the critical flag goes to a ready queue and a critical assembly task straight to the assembly queues; runs with a critical simple task are left out, since `RuntimeCritical.GuardIsNeeded` shows how they break the assembly queues.
- Flushing completions and pool credits of a worker is one step each.
- Fairness: that a scheduler lets every worker move again and again. `RuntimeTermination` bounds the working steps of every run and shows that useful steps can always be found; which of them are taken is open.
- The condition variable of `xitao_drain` and `cxx_barrier`: they depend on the wake-up behaviour of the operating system. The drain condition itself is covered.
- The destructor of `LFQueue` and the choice of another queue type.
- SparseLU's initialisation tasks and placement hints (the path without `NO_STA`), and the splitting of one kernel among the workers of a gang: kernels are atomic.
- SparseLuFactors.SerialFactors: says nothing when a pivot is zero, because the division then has no value; `BlockKernels.Quot` gives 0 for such a division. Reals are exact.
- The heat chunks address two-dimensional arrays instead of flat ones, and the average of four neighbours is any function, so that rounding does not matter. The chunk table inside one task of the TAO version is not modelled.
- The profiler's warm-up phase, partition limit, kernel filter and the Bloom-filtered exact-match models; histogram counters are unbounded, addresses do not wrap at 2^64.
- ReuseProfiler.Profiler.Probe: follows the code, which after an end match visits the piece it has just inserted and subtracts it a second time, so that a probe can stop short of a part of its range; `ReuseProbes.ProbeInvalidates` says exactly when, and `ReuseProbes.EndMatchStopsShort` gives an input.
- ReuseCounters.ReusesMean: for traces in which no probe stops short; `ReuseCounters.CountersMean` holds for all. Both, like `ReuseTraces.Conservation`, are for ranges aligned to words of 4 bytes, as the counters count words.
- ReuseTraces.Conservation: for sizes of at least one word; a zero-size access is outside of it.
- ReuseDistance.ColdIffNew: for traces without probes, since with them an invalid tail leaves the stack; what is new then is `ReuseCounters.CountersMean`.
- MergeSortTask.QuickMerge.ExecuteUnit: says nothing about a unit whose ranges leave the arrays or are empty; `MergeSortSizes.LeavesBuffers` says for which sizes there is one.
- MergeSortAlone.Execute: the loop as code has one worker; any number of workers is the state machine of `MergeSortTao`, in which running a unit is one step. `MergeSortTogether.NoRaces` is why that step can be taken as one. Sizes not divisible by 8 are outside of it, as the task does not sort them.
- FmmTree.BuildTree: for bodies of which more than `ncrit` coincide the recursion has no end (`FmmTree.BuildEnds`), so they are outside of it. Coordinates are exact reals; the radius of a level is a repeated half. Potential and force fields, `reserve` and the capacity of the cell vector are not modelled. An empty body set is outside of it, as `getBounds` reads the first body.
- FMM expansions, and the pushing of the FMM task graph: floating-point kernels.
- Hilbert.D2xy: integers are unbounded, so a position beyond 32 bits (m above 15) is not distinguished.
- BreadthFirst.Search.Run: the iterations of a parallel loop run in any order but one after the other. Two iterations of the first loop only ever write the same values to a node; that they may write at the same time is not modelled.
- The remaining benchmarks (matrix product, Fibonacci, dot product, synthetic and random graphs) and the tracing library: they use the runtime in the same way as the benchmarks above.

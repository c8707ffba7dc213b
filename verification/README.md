# PaStiX analysis phase, thread scheduler and block CSC: a verified model

PaStiX is the sparse direct solver in `PaStiX4CalculiX`. Before any number is computed, its
analysis phase turns the block structure of the matrix into a static schedule. This project
models that phase for one process, up to the tables of the solver, the pool of threads that
later runs the schedule, and the storage of the matrix with its products by vectors, and proves
what each of them promises.

The steps and where they are:

* `Symbol.dfy`: column blocks, blocks, what makes a structure valid, and the search of the
  block that receives an update.
* `Split.dfy`, `SplitProps.dfy`, `Merge.dfy`, `Counters.dfy`, `SplitSmart.dfy`,
  `SplitCount.dfy`, `SplitResult.dfy`: wide column blocks are cut where the fewest blocks are
  added, and the structure is rebuilt along the cuts. It stores the same positions, its blocks
  are valid and sorted, a complete factorization stays complete, and the number of blocks is
  what the counting pass and the counters of the cuts say.
* `ElimTree.dfy`, `Candidates.dfy`, `LongestPath.dfy`: the elimination tree, its costs, levels
  and critical paths, the check of the candidate intervals.
* `Shares.dfy`, `PropRuns.dfy`, `PropMap.dfy`: the proportional mapping of processors over the
  tree, round by round, and what follows for the intervals.
* `Queue.dfy`, `Contributions.dfy`, `Schedule.dfy`, `Makespan.dfy`, `CriticalPath.dfy`,
  `ProcHeaps.dfy`, `Turns.dfy`, `Simulation.dfy`, `LateMove.dfy`: the simulation that maps every
  column block to a processor, in a topological order with exact dates, as a run of turns.
* `Blend.dfy`: the whole analysis, step after step.
* `Isched.dfy`: the fork-join protocol of the threads, as a step relation.
* `Sort.dfy`: the sort template.
* `BuildRowtab.dfy`, `RowTable.dfy`, `CoefTable.dfy`, `SolverGen.dfy`, `IndTable.dfy`,
  `SolverFields.dfy`, `Solver.dfy`: the tables of the solver: which blocks face a column block,
  where coefficients are stored, which task receives an update.
* `Csc.dfy`, `PermuteCsc.dfy`, `Coltab.dfy`, `SortRows.dfy`, `Bcsc.dfy`: transposition,
  permutation and sort of a matrix stored by columns, with the tables kept from one call to the
  next.
* `RowPermutation.dfy`: rows permuted in place along the cycles of a permutation.
* `Spmv.dfy`, `Dense.dfy`, `Product.dfy`, `TaskLists.dfy`: the products of the stored matrix by a
  vector, in the numbering of the caller and by the task lists of the schedule.

Conventions. Costs, dates and values are exact reals, and integers have no bound unless a
width is named. With one process every processor belongs to cluster 0 and every contribution
is local. A task is the column block with the same number. Methods that update tables in place
are classes with those tables as fields; a table that is filled by a moving cursor is a
sequence whose length is the cursor. The artificial root of the elimination tree is node -1,
stored first. The cost model of the solver is a parameter. The library sort behind `cppSort` is
any sort of a part of a table, here the sort template.

What turned out to be false of the code, and when it holds:

* The comment of `simu_pushToReadyHeap` (`blend/simu_run.c:866-888`) promises that only tasks
  whose ready date has passed move to the ready heap. With one cluster the date it compares
  with is never set, and all the future tasks move. `LateMove.RunSoFar` is a run of two processors
  from the start of the main loop, `LateMove.LateTaskMoves` the task that then moves at clock
  2 with date 10. The promise is kept exactly when every date in the future heap on entry is
  at most the clock of the processor (`Schedule.MovesDueOnlyWhen`, for every state). The
  schedule is right all the same, because dates are checked again when a task is chosen.
* `bvec_zlapmr` without its private copy promises to restore the permutation on exit
  (`bcsc/bvec_zcompute.c:1070-1075`). In the forward direction line 1039 marks an entry before
  the test of line 1042 and so takes back the mark of a cycle already seen. The rows are
  permuted all the same, but the permutation comes back, and the assertion of line 1072 holds,
  exactly when the copy is used, the direction is backward, or the permutation is the identity
  (`RowPermutation.Lapmr`, `RowPermutation.ForwardLosesPermutation`). The default uses the copy.

A precondition that the code does not state: the assertions after the trimming in
`propMappSubtree` need column blocks that cost something, as those of the cost model do. They
fail exactly for a node whose sons cost nothing, entered with two candidates of equal work
(`Shares.TrimFailsExactly`, and `Shares.TrimFailsForFreeSon` for an input). All results about
the mapping ask that every column block costs something.

## Model

| member | source | states |
|---|---|---|
| SymbolMatrix.GetFacingBloknum | PaStiX4CalculiX/symbol/symbol.c:233-287 | from any valid hint the search answers the first block of the facing column block that shares a row with the update, and without the ILU flag it exists |
| SymbolMatrix.FacingCovers | PaStiX4CalculiX/symbol/symbol.c:262-286 | in a complete factorization the facing block exists and contains the rows of the update |
| SymbolMatrix.FacesLater | PaStiX4CalculiX/symbol/symbol_check.c:46-112 | off-diagonal blocks of a valid structure face later column blocks |
| SymbolMatrix.HintStays | PaStiX4CalculiX/blend/simu_run.c:774-812 | the block found for one update is a valid hint for the next one of the same row |
| Queue.RootIsLeast | PaStiX4CalculiX/blend/queue.c:43-56 | no item of a heap has a smaller pair of keys than its head |
| Queue.PushedIsHeap | PaStiX4CalculiX/blend/queue.c:174-216 | sifting up restores the heap order after an insertion |
| Queue.PoppedIsHeap | PaStiX4CalculiX/blend/queue.c:262-308 | sifting down restores the heap order after a removal |
| Queue.PushedItems | PaStiX4CalculiX/blend/queue.c:174-216 | an insertion adds the item and keeps all the others |
| Queue.PoppedItems | PaStiX4CalculiX/blend/queue.c:262-308 | a removal takes the head and keeps all the others |
| Queue.DrainedIsSorted | PaStiX4CalculiX/blend/queue.c:262-308 | removing until the queue is empty yields its items sorted by both keys |
| Queue.PopOrder | PaStiX4CalculiX/blend/queue.c:43-56 | of two items of a heap the one with the smaller first key leaves first, and with equal first keys the one with the smaller second key |
| Queue.Queue.Grow | PaStiX4CalculiX/blend/queue.c:179-195 | growth from any size, zero included, keeps the items |
| Queue.Queue.Push2 | PaStiX4CalculiX/blend/queue.c:174-216 | the array changes as the specification of the insertion says, in heap order |
| Queue.Queue.Pop2 | PaStiX4CalculiX/blend/queue.c:262-308 | answers an item with the smallest first key, and the smallest second key among those, and removes it; an empty queue answers -1 and is left alone |
| Contributions.EdgeUpdates | PaStiX4CalculiX/blend/simu_run.c:194-251 | an edge between column blocks produces an update of the later one |
| Contributions.PendingDone | PaStiX4CalculiX/blend/simu_run.c:757-863 | running a column block takes exactly its own updates off the pending ones |
| Schedule.StepCounts | PaStiX4CalculiX/blend/simu_run.c:774-812 | when an update is applied the counter of its block is positive, and it stays the number of pending updates |
| Schedule.CountsNonNegative | PaStiX4CalculiX/blend/simu_run.c:774-812 | counters are never negative |
| Schedule.ReadyMeans | PaStiX4CalculiX/blend/simu_run.c:852-860 | a column block whose counter is zero has all its contributions applied |
| Schedule.SomeReady | PaStiX4CalculiX/blend/simu_run.c:1079-1105 | while a column block is left, one of them is ready: the main loop cannot get stuck |
| Schedule.QueuesStep | PaStiX4CalculiX/blend/simu_run.c:336-389 | each candidate of a ready column block holds it once |
| Schedule.ReadyOrder | PaStiX4CalculiX/blend/simu_run.c:386-386 | of two tasks of a ready heap the one further from the root leaves first, and at equal levels the one whose blocks come first |
| Schedule.FutureOrder | PaStiX4CalculiX/blend/simu_run.c:382-382 | of two tasks of a future heap the one that is ready first leaves first, and at equal dates the one further from the root |
| Schedule.PutWhere | PaStiX4CalculiX/blend/simu_run.c:336-389 | exactly the future heaps of the processors whose clock is behind the date of the task, and the ready heaps of the others, hold it once more |
| Schedule.TopoStep | PaStiX4CalculiX/blend/simu_run.c:1097-1105 | numbering tasks as they are chosen is a topological order |
| Schedule.TimesStep | PaStiX4CalculiX/blend/simu_run.c:788-794 | ready dates are exactly the latest date of a contribution |
| Schedule.ProcsStep | PaStiX4CalculiX/blend/simu_run.c:1115-1121 | tasks of one processor do not overlap and its clock is the end of the last one |
| Schedule.OwnersStep | PaStiX4CalculiX/blend/simu_run.c:1094-1101 | a column block and its blocks get one owner, among its own candidates |
| Makespan.HistoryStep | PaStiX4CalculiX/blend/simu_run.c:1079-1187 | a step of the main loop keeps order, dates and work |
| Makespan.WorkBound | PaStiX4CalculiX/blend/simu_run.c:1189-1199 | the predicted time times the number of cores is at least the whole cost |
| Makespan.ChainBound | PaStiX4CalculiX/blend/simu_run.c:1189-1199 | the predicted time is at least the cost of any chain of dependent tasks |
| Makespan.EndBelow | PaStiX4CalculiX/blend/simu_run.c:1189-1199 | every task ends before the predicted time |
| ProcHeaps.Heaps.Push | PaStiX4CalculiX/blend/simu_run.c:336-389 | pushing to the heap of one processor leaves those of the others alone |
| ProcHeaps.Heaps.Pop | PaStiX4CalculiX/blend/simu_run.c:442-473 | popping from the heap of one processor leaves those of the others alone |
| Simulation.Simulation.ComputeBlockCtrbNbr | PaStiX4CalculiX/blend/simu_run.c:194-251 | the counters start as the numbers of updates of each block and column block |
| Simulation.Simulation.PutInAllReadyQueues | PaStiX4CalculiX/blend/simu_run.c:336-389 | a ready task enters exactly one heap of each candidate and no other: the future heap, keyed by date and level, where the clock is behind its date, the ready heap, keyed by level and block, elsewhere |
| Simulation.Simulation.GetNextTaskNextProc | PaStiX4CalculiX/blend/simu_run.c:421-535 | heads that are mapped are dropped; the couple chosen is a task not yet mapped and one of its candidates, no head could start earlier, and of several with that date it is the one the comparisons prefer; its task leaves its heap when the removal inside the assertion is executed, and when no couple is found every processor is out of tasks |
| Simulation.Simulation.ComputeTask | PaStiX4CalculiX/blend/simu_run.c:756-863 | counters, dates, clock and heaps are those that the updates of the task, one after the other, leave |
| Simulation.Simulation.PushToReadyHeap | PaStiX4CalculiX/blend/simu_run.c:889-925 | every future task of the processor moves to its ready heap, in the order of the future heap; only tasks that are due move if and only if every key of that heap is at most the clock |
| Schedule.MovesDueOnlyWhen | PaStiX4CalculiX/blend/simu_run.c:866-925 | in any state whose heaps have the keys of the source, the moved tasks are all due exactly when no date in the future heap is beyond the clock |
| LateMove.RunSoFar | PaStiX4CalculiX/blend/simu_run.c:1079-1187 | the first three turns of a run of the main loop, with the tables, counters and heaps after each of them; in the first two no future task is there to move |
| LateMove.LateKeeps | PaStiX4CalculiX/blend/simu_run.c:1079-1187 | in the state after the third turn all that the main loop keeps holds: counts, queues, keys, order and dates |
| LateMove.LateTaskMoves | PaStiX4CalculiX/blend/simu_run.c:899-912 | in the state that the run leads to, a task whose date is 10 moves to the ready heap at clock 2 |
| Simulation.Simulation.Execute | PaStiX4CalculiX/blend/simu_run.c:1097-1180 | the state after a task is mapped and run, and its start date |
| Simulation.Simulation.MainLoop | PaStiX4CalculiX/blend/simu_run.c:1079-1187 | the loop ends in the last state of a run from its start: in each turn a couple is chosen with the heads that are not mapped, its task runs, and the future tasks of that processor move to its ready heap; there is one turn for each column block, and no processor has a task left |
| Simulation.Simulation.Run | PaStiX4CalculiX/blend/simu_run.c:957-1223 | the state is the last one of a run of the main loop from the counted contributions; every column block is mapped to a candidate of its own, in topological order, with exact dates, without overlap, and the predicted time is the largest clock |
| Turns.SecondWinsTie | PaStiX4CalculiX/blend/simu_run.c:485-503 | of two processors that could start a task at the same date the second one is chosen, whatever their clocks are |
| Turns.HistoryGoesOn | PaStiX4CalculiX/blend/simu_run.c:1079-1187 | a turn of a run keeps order, dates and work |
| Turns.RunGoesOn | PaStiX4CalculiX/blend/simu_run.c:1079-1187 | a turn makes a run longer |
| Isched.BarrierArrive | PaStiX4CalculiX/common/isched.c:68-77 | a thread that is not the last one to arrive counts itself and keeps the invariant |
| Isched.BarrierComplete | PaStiX4CalculiX/common/isched.c:68-71 | the last thread to arrive starts a new generation, which releases all that wait, and keeps the invariant |
| Isched.BarrierBroadcast | PaStiX4CalculiX/common/isched.c:72-74 | the broadcast of the last thread keeps the invariant |
| Isched.MasterKeepsInv | PaStiX4CalculiX/common/isched.h:80-93 | every access of a call, or of the finalization after the last one, outside barriers and the broadcast, keeps the invariant |
| Isched.WorkerKeepsInv | PaStiX4CalculiX/common/isched.c:155-186 | every access of the loop of a worker keeps the invariant |
| Isched.StepKeepsInv | PaStiX4CalculiX/common/isched.c:63-186 | every step of every thread keeps the invariant of barrier, status word, logs and locks |
| Isched.SpuriousKeepsInv | PaStiX4CalculiX/common/isched.c:77-82 | a wake-up without broadcast keeps the invariant |
| Isched.BarrierIsSafe | PaStiX4CalculiX/common/isched.c:63-86 | in every run no thread passes its n-th barrier before all have reached it, and numbers of barriers passed differ by at most one |
| Isched.CallsAreExact | PaStiX4CalculiX/common/isched.h:80-93 | in every run each thread runs exactly the calls made so far, once and in order, with their own function and arguments; the master goes on only when all have finished |
| Isched.NoDeadlock | PaStiX4CalculiX/common/isched.c:310-331 | until the threads are joined some thread can take a step, in every reachable state |
| Isched.EveryRunEnds | PaStiX4CalculiX/common/isched.c:288-331 | the steps of a run are bounded by the numbers of threads, calls and spurious wake-ups |
| Sorting.CutKept | PaStiX4CalculiX/common/common_sort.c:136-176 | reordering a segment keeps the cuts that are not inside it |
| Sorting.WallsSwap | PaStiX4CalculiX/common/common_sort.c:160-169 | an exchange lets both walls move on |
| Sorting.StackFits | PaStiX4CalculiX/common/common_sort.c:59-67 | a stack of as many entries as an integer has bits is never full |
| Sorting.SplitOk | PaStiX4CalculiX/common/common_sort.c:183-206 | segments stay disjoint, halved along the stack, and separated by cuts |
| Sorting.Partition | PaStiX4CalculiX/common/common_sort.c:130-176 | elements left of the walls do not come after the pivot, those on the right not before it, at most one is in between; the unguarded scans stay inside |
| Sorting.NextSegment | PaStiX4CalculiX/common/common_sort.c:183-206 | pushes and pops leave the stack and the current segment as the pending segments |
| Sorting.QuickSort | PaStiX4CalculiX/common/common_sort.c:113-207 | elements more than the threshold apart are in order, and the depth of the stack is logarithmic |
| Sorting.NothingPendingIsNearly | PaStiX4CalculiX/common/common_sort.c:113-207 | without pending segments elements more than the threshold apart are in order |
| Sorting.LeastOfAll | PaStiX4CalculiX/common/common_sort.c:223-233 | the least of the first window is the least of all, which guards the insertion sort |
| Sorting.PlaceLeast | PaStiX4CalculiX/common/common_sort.c:216-233 | the array starts with an element that comes after none |
| Sorting.Place | PaStiX4CalculiX/common/common_sort.c:239-246 | the unguarded search stops inside the array, at the place of the element |
| Sorting.Rotate | PaStiX4CalculiX/common/common_sort.c:245-259 | the element moves down and those it passes move up by one |
| Sorting.InsertedSorts | PaStiX4CalculiX/common/common_sort.c:235-261 | the prefix stays sorted |
| Sorting.Sort | PaStiX4CalculiX/common/common_sort.c:103-262 | a sorted permutation, for any strict weak order and any length an integer can count |
| Sorting.ComparisonsAreStrictWeak | PaStiX4CalculiX/common/integer.c:280-372 | the comparisons of the instances are strict weak orders |
| ElimTree.CountAll | PaStiX4CalculiX/blend/elimintree.c:494-502 | every node is counted as a son once |
| ElimTree.SlotsDiffer | PaStiX4CalculiX/blend/elimintree.c:142-153 | two nodes have different places in the table of sons |
| ElimTree.TablesMakeTree | PaStiX4CalculiX/blend/elimintree.c:109-156 | each slice of the table lists exactly the sons of its node, in increasing order |
| ElimTree.SonsApart | PaStiX4CalculiX/blend/elimintree.h:105-110 | the subtrees of two sons are disjoint |
| ElimTree.EliminTree.SetSonsIndex | PaStiX4CalculiX/blend/elimintree.c:108-122 | the slices start at the sums of the numbers of sons, which add up to the number of nodes |
| ElimTree.EliminTree.SetSons | PaStiX4CalculiX/blend/elimintree.c:136-156 | filling with the start as a cursor and restoring it leaves a valid tree |
| ElimTree.EliminTree.Build | PaStiX4CalculiX/blend/elimintree.c:469-509 | the father of a column block is the one its first off-diagonal block faces, and the tree is valid |
| ElimTree.EliminTree.ComputeLevels | PaStiX4CalculiX/blend/elimintree.c:244-262 | every node of the subtree gets its depth plus the offset, and the largest one is answered |
| ElimTree.EliminTree.NodeLevel | PaStiX4CalculiX/blend/elimintree.c:283-300 | climbing from a node counts its depth |
| ElimTree.EliminTree.TreeLevel | PaStiX4CalculiX/blend/elimintree.c:203-219 | the largest depth, found by climbing from every node |
| ElimTree.MaximaAgree | PaStiX4CalculiX/blend/elimintree.c:203-262 | what the recursion from the root answers is the largest climbing count, and no other number is |
| ElimTree.EliminTree.LevelsBothWays | PaStiX4CalculiX/blend/elimintree.c:203-300 | on one tree the recursion from the root and the climbing loop answer the same maximum, and every stored level is the climbing count of its node |
| Candidates.CandTab.SubTreeBuild | PaStiX4CalculiX/blend/cand.c:268-329 | subtree cost is the sum of the costs of all descendants, the critical path that of the recursion over the sons, each level is one below that of the father, and nothing else changes |
| LongestPath.PathIsLongest | PaStiX4CalculiX/blend/cand.c:300-326 | the critical path of a node is the longest time of a chain of nodes, each the father of the one before, that ends there: no chain takes longer, and one takes as long |
| LongestPath.ChainBelow | PaStiX4CalculiX/blend/cand.c:300-302 | no chain that ends at a node takes longer than its critical path |
| LongestPath.ChainAttains | PaStiX4CalculiX/blend/cand.c:300-302 | some chain that ends at a node takes as long as its critical path |
| Candidates.LevelsAreCosts | PaStiX4CalculiX/blend/cand.c:289-297 | the cost level of a node is the opposite of the cost of all the nodes above it |
| Candidates.LevelsAreDepths | PaStiX4CalculiX/blend/cand.c:289-301 | the level of a node is minus its depth and its cost level is not positive |
| CriticalPath.LeadReachesFather | PaStiX4CalculiX/blend/cand.c:303-324 | the leading blocks of a column block that face its father delay the start of the father by their cost |
| CriticalPath.PathBeforeStart | PaStiX4CalculiX/blend/cand.c:300-326 | the critical path below a node has passed when the node starts |
| CriticalPath.CriPathBound | PaStiX4CalculiX/blend/cand.c:325-326 | the predicted time of a complete schedule is at least the critical path of the root |
| Candidates.FacingIsAbove | PaStiX4CalculiX/blend/cand.c:208-224 | in a complete factorization every block faces an ancestor |
| Candidates.NestedUp | PaStiX4CalculiX/blend/cand.c:208-224 | intervals nested in those of the fathers are nested in those of all ancestors |
| Candidates.CandCheck | PaStiX4CalculiX/blend/cand.c:201-227 | answers yes if and only if every interval is part of those that are faced |
| Candidates.NestedPasses | PaStiX4CalculiX/blend/cand.c:201-227 | intervals nested along the tree pass the check |
| Shares.TrimLeavesWork | PaStiX4CalculiX/blend/propmap.c:168-191 | with work left the assertions hold, all candidates in use have work, and the rescaling is dead |
| Shares.TrimFailsOnlyWithoutWork | PaStiX4CalculiX/blend/propmap.c:168-181 | without work left the assertion fails exactly for two candidates that have none |
| Shares.TrimFailsExactly | PaStiX4CalculiX/blend/propmap.c:158-181 | on the arguments of the function: an assertion fails if and only if two candidates enter with equal work for a node whose sons cost nothing |
| Shares.TrimFailsForFreeSon | PaStiX4CalculiX/blend/propmap.c:158-181 | an input outside the precondition: a father of cost 10, a free son, two candidates with 5 each |
| Shares.SubSharesSum | PaStiX4CalculiX/blend/propmap.c:281-302 | the shares of a subtree sum to its cost |
| Shares.RemainingSum | PaStiX4CalculiX/blend/propmap.c:281-302 | its candidates lose exactly that cost |
| Shares.SubSharesFlat | PaStiX4CalculiX/blend/propmap.c:281-302 | the subtree is entered with equal and maximal interior shares |
| PropMap.CostsAreValid | PaStiX4CalculiX/blend/cand.c:268-305 | the costs left by the recursion are those the mapping needs |
| PropMap.ShareKeeps | PaStiX4CalculiX/blend/propmap.c:256-302 | one step of the first stage keeps the shape of the shares for the subtree and for its candidates |
| PropMap.MapNext | PaStiX4CalculiX/blend/propmap.c:303-305 | mapping one son keeps what is known of the node and of the other sons |
| PropMap.BalanceNext | PaStiX4CalculiX/blend/propmap.c:338-356 | taking the largest son left from the candidate with most work keeps every earlier placement balanced |
| PropMap.PopLargest | PaStiX4CalculiX/blend/propmap.c:222-223 | the queue answers an element of largest cost among those left |
| PropMap.Mapper.SubtreeOn1P | PaStiX4CalculiX/blend/propmap.c:68-90 | every node of the subtree gets the interval once |
| PropMap.Mapper.Gather | PaStiX4CalculiX/blend/propmap.c:263-272 | the loop stops at the first candidate where the work left is below the threshold, and its assertion holds |
| PropMap.Mapper.Share | PaStiX4CalculiX/blend/propmap.c:281-302 | the two arrays of shares |
| PropMap.Mapper.Trim | PaStiX4CalculiX/blend/propmap.c:165-195 | both assertions hold and the rescaling is dead |
| PropMap.Mapper.FirstStage | PaStiX4CalculiX/blend/propmap.c:220-317 | the rounds of the stage, from the largest son left: each gets one candidate when its cost fits, else as many as it needs, from where the round before ended, and goes on with its share; the stage ends only when no son is left, a whole son was taken, or no candidate may be shared any more |
| PropMap.Mapper.SecondStage | PaStiX4CalculiX/blend/propmap.c:319-356 | each son left goes to one candidate, which is charged its cost, and where the work left plus that cost is at the end no less than the work left to any other |
| PropMap.Mapper.MapSons | PaStiX4CalculiX/blend/propmap.c:197-356 | every son is mapped once, in a round of the first stage or on one candidate of the second |
| PropMap.Mapper.Subtree | PaStiX4CalculiX/blend/propmap.c:120-361 | every node of the subtree gets one interval, not empty and part of that of its father; each inner node of several candidates goes through both stages with its share, and all the work is used up |
| PropMap.Mapper.MapTree | PaStiX4CalculiX/blend/propmap.c:412-449 | every node of the tree gets one interval, not empty and part of that of its father: that of everyone with allcand; else every inner node of several candidates goes through both stages from equal parts of the whole cost, sons of one node have at most one candidate in common and with nocrossproc none, but for smaller sons of one candidate, and if no son of the root costs more than an equal part each of them gets one candidate |
| PropRuns.SmallIsSingle | PaStiX4CalculiX/blend/propmap.c:225-254 | a son whose cost is at most the work left to the first candidate in use gets one candidate |
| PropRuns.SmallSonsAreSingle | PaStiX4CalculiX/blend/propmap.c:225-236 | when all the sons of a node fit on the first candidate in use each of them gets one candidate |
| PropRuns.RootIsFair | PaStiX4CalculiX/blend/propmap.c:427-446 | when no son of the root costs more than an equal part each of them gets one candidate |
| PropRuns.SeveralAreNeeded | PaStiX4CalculiX/blend/propmap.c:256-272 | a son of several candidates needs them all: the work left to all but the last is less than its cost |
| PropRuns.ShareIsCost | PaStiX4CalculiX/blend/propmap.c:281-302 | the share of a son of several candidates sums to its cost, and that is what they lose |
| PropRuns.RoundsGoUp | PaStiX4CalculiX/blend/propmap.c:306-317 | the candidates of a round do not come before those of an earlier one, and with nocrossproc they come after |
| PropRuns.NodeSeparates | PaStiX4CalculiX/blend/propmap.c:220-356 | two sons of a node have at most one candidate in common, and with nocrossproc none, but for sons of the second stage, which have one candidate and cost no more than the others |
| PropRuns.PlaceIsSmall | PaStiX4CalculiX/blend/propmap.c:319-356 | a son of the second stage has one candidate and costs no more than a son of the first |
| PropRuns.EveryNode | PaStiX4CalculiX/blend/propmap.c:303-305 | every inner node of several candidates goes through both stages with the share that its father gave it |
| PropRuns.ChargesNext | PaStiX4CalculiX/blend/propmap.c:352-355 | the work left after the second stage is that of the first less the costs of the sons placed |
| Split.CutSorted | PaStiX4CalculiX/blend/extracblk.c:446-480 | the parts of a block are sorted and disjoint |
| SplitProps.MergedIsValid | PaStiX4CalculiX/blend/extracblk.c:410-503 | blocks are sorted and disjoint in each column block, each inside the columns of the one it faces |
| SplitProps.SamePositions | PaStiX4CalculiX/blend/extracblk.c:217-519 | the same positions of the lower triangle are stored before and after |
| SplitProps.ClosedStays | PaStiX4CalculiX/blend/extracblk.c:410-503 | a complete factorization stays complete |
| Merge.CountParts | PaStiX4CalculiX/blend/extracblk.c:279-312 | counts the parts of a block without building them |
| Merge.CountColumn | PaStiX4CalculiX/blend/extracblk.c:271-322 | the extra blocks of a column block: triangle of the diagonal, pieces times parts |
| Merge.SlicesApart | PaStiX4CalculiX/blend/extracblk.c:354-363 | two split column blocks have different entries in the extra table |
| Merge.FirstPass | PaStiX4CalculiX/blend/extracblk.c:264-403 | new numbers, columns of the new column blocks, and the number of blocks the second pass will make |
| Merge.EmitParts | PaStiX4CalculiX/blend/extracblk.c:436-490 | appends exactly the parts of a block |
| Merge.BlocksInAll | PaStiX4CalculiX/blend/extracblk.c:406-407 | the number of blocks of the new structure is that of the formula |
| Merge.ExtraCblkMerge | PaStiX4CalculiX/blend/extracblk.c:217-519 | the new tables are those of the specification, and both final assertions on the cursors hold |
| Counters.CostAfterCut | PaStiX4CalculiX/blend/splitsymbol.c:468-481 | cutting a column block adds to the counters of the lines its off-diagonal blocks cross |
| Counters.CostOnlyBefore | PaStiX4CalculiX/blend/splitsymbol.c:403-407 | the counter of a line inside a column block depends on earlier cuts only |
| SplitCount.PartsAreCuts | PaStiX4CalculiX/blend/extracblk.c:292-309 | a block has one part more than the cuts that cross it |
| SplitCount.BlocksFromCounters | PaStiX4CalculiX/blend/splitsymbol.c:124-161 | blocks of the new structure: triangles, copies of the off-diagonal blocks, and for every cut its counter less one |
| SplitSmart.NbSplit | PaStiX4CalculiX/blend/splitsymbol.c:78-102 | number of pieces, each at least as wide as asked; the correction is dead |
| SplitSmart.NbBlocksPerLine | PaStiX4CalculiX/blend/splitsymbol.c:124-161 | each counter is the number of blocks that cross its line, and the last one is zero |
| SplitSmart.SmallestSplit | PaStiX4CalculiX/blend/splitsymbol.c:191-232 | the cut is the line asked for or the first one tried, upwards and then downwards, that the fewest blocks of the window cross |
| SplitSmart.PiecesNearStep | PaStiX4CalculiX/blend/splitsymbol.c:191-232 | every piece but the last is within the limit of the step, and none is longer |
| SplitSmart.ExtraCblk.Inc | PaStiX4CalculiX/blend/extracblk.c:81-109 | growth keeps the entries and leaves room for one more |
| SplitSmart.ExtraCblk.Add | PaStiX4CalculiX/blend/extracblk.c:182-194 | appends one entry |
| SplitSmart.CutPieces | PaStiX4CalculiX/blend/splitsymbol.c:428-463 | the pieces tile the column block and each ends at the best line |
| SplitSmart.UpdateCounters | PaStiX4CalculiX/blend/splitsymbol.c:473-482 | the counters are the costs of the lines after the cut |
| SplitSmart.SplitSmart | PaStiX4CalculiX/blend/splitsymbol.c:363-490 | all pieces tile their column blocks and all cuts are best, for the counters of the final cuts |
| SplitResult.LastPiece | PaStiX4CalculiX/blend/splitsymbol.c:191-232 | what is left of a column block stays whole exactly when it is not longer than step and limit together |
| SplitResult.MergedIsSplit | PaStiX4CalculiX/blend/splitsymbol.c:363-541 | the rebuilt structure: over the columns of each old column block its pieces in order, cut if it is wider than blcolmax and at least twice blcolmin, each piece ending where the fewest blocks are crossed, and each block the rows of an old one in the columns it faces |
| SplitResult.WholeIsSplit | PaStiX4CalculiX/blend/splitsymbol.c:520-541 | without extra column blocks the structure stays as it is, and no cut was asked for |
| Blend.SplitSymbol | PaStiX4CalculiX/blend/splitsymbol.c:520-570 | said of the new structure: the pieces of each old column block in order, which ones are cut and at which lines, the rows of every block; it is valid, stores the same positions, and is complete when the old one is |
| Blend.MapCandidates | PaStiX4CalculiX/blend/pastix_subtask_blend.c:227-293 | tree, costs, levels that are minus the depths and cost levels minus the cost of the nodes above, critical paths that are the longest chains, intervals nested along the tree, and mapped proportionally unless everyone is candidate |
| Blend.Analyze | PaStiX4CalculiX/blend/pastix_subtask_blend.c:227-423 | the intervals used by the simulation are those mapped, nested along the tree; they pass the check of the candidates for a complete factorization, and the schedule is complete, the last state of a run of the main loop, and no shorter than the critical path |
| Blend.SplitAndAnalyze | PaStiX4CalculiX/blend/pastix_subtask_blend.c:203-423 | the same for the structure after the split, which has the pieces of the old column blocks and stores the same positions |
| RowPermutation.DirectionsUndo | PaStiX4CalculiX/bcsc/bvec_zcompute.c:1006-1064 | moving rows backward and forward along a permutation undo each other |
| RowPermutation.Backward | PaStiX4CalculiX/bcsc/bvec_zcompute.c:1006-1034 | row x goes to row perm[x], every entry of the permutation is marked once, and the assertion of the loop holds |
| RowPermutation.Forward | PaStiX4CalculiX/bcsc/bvec_zcompute.c:1035-1064 | row perm[x] goes to row x and the assertion of the loop holds; on exit every entry is marked only for the identity |
| RowPermutation.AllMarked | PaStiX4CalculiX/bcsc/bvec_zcompute.c:1036-1046 | all entries are marked after the forward loops if and only if the permutation is the identity |
| RowPermutation.Restored | PaStiX4CalculiX/bcsc/bvec_zcompute.c:1070-1075 | the last loop gives the permutation back if and only if every entry is marked |
| RowPermutation.Lapmr | PaStiX4CalculiX/bcsc/bvec_zcompute.c:985-1077 | rows are permuted in both directions and modes; the permutation is unchanged on exit, and the last assertion holds, if and only if it was copied, or the direction is backward, or it is the identity |
| RowPermutation.ForwardLosesPermutation | PaStiX4CalculiX/bcsc/bvec_zcompute.c:1035-1075 | in place and forward, the exchange of two rows is not given back and the last assertion fails |
| Csc.TargetSlot | PaStiX4CalculiX/bcsc/bcsc_zinit.c:45-46 | the target of entry (r, c) is the entry (c, r) |
| Csc.TargetTwice | PaStiX4CalculiX/bcsc/bcsc_zinit.c:42-49 | the targets are an involution: no two parallel writes go to the same place |
| Csc.RowPrediction | PaStiX4CalculiX/bcsc/bcsc_zinit.c:31-40 | the prediction of an entry is its rank in its row |
| Csc.Transpose | PaStiX4CalculiX/bcsc/bcsc_zinit.c:25-50 | with a new or a kept prediction, the values written are those of the transposed matrix |
| Csc.TransposedTwice | PaStiX4CalculiX/bcsc/bcsc_zinit.c:25-50 | transposing twice gives the values back |
| PermuteCsc.OutEnd | PaStiX4CalculiX/bcsc/bcsc_zinit.c:63-66 | the lengths of the columns in their new order add up to the number of entries |
| PermuteCsc.SlotOf | PaStiX4CalculiX/bcsc/bcsc_zinit.c:68-77 | every place of the new columns is written by one entry |
| PermuteCsc.PlacesDiffer | PaStiX4CalculiX/bcsc/bcsc_zinit.c:68-89 | two entries go to different places, with and without a table |
| PermuteCsc.Permute | PaStiX4CalculiX/bcsc/bcsc_zinit.c:52-90 | row and value of every entry are where the starts of the columns, and the table if there is one, say |
| SortRows.CppSort | PaStiX4CalculiX/common/cpp_sort.cpp:12-23 | a part of the table is sorted by the rows it refers to, and the rest is not touched |
| SortRows.PermutationKept | PaStiX4CalculiX/bcsc/bcsc_zinit.c:514-531 | sorting a part of a permutation leaves a permutation |
| SortRows.SortedNext | PaStiX4CalculiX/bcsc/bcsc_zinit.c:514-531 | sorting one column more keeps the columns sorted so far and those still to come |
| SortRows.SortAll | PaStiX4CalculiX/bcsc/bcsc_zinit.c:504-548 | the loops over blocks and columns find a permutation that keeps the columns and sorts the rows of each |
| SortRows.Zsort | PaStiX4CalculiX/bcsc/bcsc_zinit.c:490-566 | the rows of every column are sorted, rows and values are gathered in that order, and the table kept is its inverse |
| PermuteCsc.FastIsSlow | PaStiX4CalculiX/bcsc/bcsc_zinit.c:79-89 | writing through the table gives the rows and values of permuting and sorting, for all values |
| PermuteCsc.Globcol | PaStiX4CalculiX/bcsc/bcsc.c:194-235 | the columns counted over the matrix start where the permuted columns do |
| Bcsc.EntryIn | PaStiX4CalculiX/bcsc/bcsc.c:376-379 | entry (r, c) of the matrix is stored at (perm[r], perm[c]) with its value |
| Bcsc.EntryOut | PaStiX4CalculiX/bcsc/bcsc.c:376-379 | every stored entry comes from an entry of the matrix |
| Bcsc.StoredSorted | PaStiX4CalculiX/bcsc/bcsc.c:378-379 | rows increase in every stored column |
| Bcsc.StoredIsSymmetric | PaStiX4CalculiX/bcsc/bcsc.c:376-392 | a matrix of symmetric structure, with rows in any order, is stored with sorted columns and symmetric structure, which the transposition needs |
| Bcsc.RowsAgain | PaStiX4CalculiX/bcsc/bcsc.c:376 | later calls on the same pattern store the same rows, so that the kept prediction stays right |
| Bcsc.OrderSorts | PaStiX4CalculiX/bcsc/bcsc.c:376-379 | the order found in one call sorts the rows of every call on the pattern |
| Bcsc.Storage.PermuteRows | PaStiX4CalculiX/bcsc/bcsc.c:376-379 | the first call sorts and makes the table, later calls use it, and both leave rows and values where the table says |
| Bcsc.Storage.Init | PaStiX4CalculiX/bcsc/bcsc.c:346-419 | after every call, the first or a later one, the block tables bound the stored columns, the lower values are the permuted matrix, the upper values its transpose, and the kept tables stay right; the values of the caller are overwritten by the transpose |
| Coltab.InitColtab | PaStiX4CalculiX/bcsc/bcsc.c:55-104 | the tables of the blocks hold the starts of their own columns and the end of the last one |
| Coltab.CentralizedColtab | PaStiX4CalculiX/bcsc/bcsc.c:171-242 | the tables of the blocks are the starts of the permuted columns, counted over the matrix |
| Coltab.StartsAgree | PaStiX4CalculiX/bcsc/bcsc.c:55-104 | these starts are the pointers that the permutation computes |
| Spmv.By | PaStiX4CalculiX/bcsc/bcsc_zspmv.c:35-52 | every component is multiplied by beta, which may be zero |
| Spmv.Ax | PaStiX4CalculiX/bcsc/bcsc_zspmv.c:54-74 | the components of one block of columns, and no other, get their sums |
| Spmv.AxInd | PaStiX4CalculiX/bcsc/bcsc_zspmv.c:76-99 | scattering the columns adds up the rows |
| Spmv.RowIsColumn | PaStiX4CalculiX/bcsc/bcsc_zspmv.c:68-73 | the sum along a column of the transposed values is the sum along the row of the matrix |
| Spmv.Loop | PaStiX4CalculiX/bcsc/bcsc_zspmv.c:184-190 | the blocks of a range are computed, the others untouched |
| Spmv.Tasktab | PaStiX4CalculiX/bcsc/bcsc_zspmv.c:427-437 | the blocks of the tasks of one thread are computed, the others untouched |
| Spmv.AllRanks | PaStiX4CalculiX/bcsc/bcsc_zspmv.c:544-562 | threads that share the blocks compute all of them once |
| Spmv.Products | PaStiX4CalculiX/bcsc/bcsc_zspmv.c:54-200 | through the transposed values in sequence, by the tasks of the threads, or by scattering, the result is y = alpha A x + beta y |
| Dense.RowIsDense | PaStiX4CalculiX/bcsc/bcsc_zspmv.c:54-74 | the sum over the entries of a row is alpha times the sum, over the columns, of coefficient times component |
| Dense.ProductIsDense | PaStiX4CalculiX/bcsc/bcsc_zspmv.c:54-200 | y is alpha A x + beta y in terms of the table of coefficients of the matrix |
| Product.RowMoves | PaStiX4CalculiX/bcsc/bcsc_zspmv.c:54-74 | row perm[r] of the stored matrix times the moved vector is row r of the matrix times the vector |
| Product.ProductMoves | PaStiX4CalculiX/bcsc/bcsc_zspmv.c:586-636 | the product in the new numbering, moved back, is the product with the matrix of the caller |
| Product.MultiplyStored | PaStiX4CalculiX/bcsc/bcsc_zspmv.c:544-562 | vectors moved forward, tasks of the threads, result moved backward: y = alpha A x + beta y in the numbering of the caller |
| Product.StoreAndMultiply | PaStiX4CalculiX/bcsc/bcsc.c:270-422 | for any matrix of symmetric structure and any permutation, after any call, the threads compute alpha A x + beta y, with the coefficients of the matrix of the caller |
| TaskLists.BlocksTile | PaStiX4CalculiX/bcsc/bcsc.c:65-72 | the column blocks of a valid structure follow one another over all the columns |
| TaskLists.ScheduleShares | PaStiX4CalculiX/blend/solver_matrix_gen.c:544-586 | the task lists of a complete schedule share the column blocks among the threads, each once, as the parallel product needs |
| BuildRowtab.EdgesInAll | PaStiX4CalculiX/symbol/symbol.c:336-344 | the starts of the slices end at the number of off-diagonal blocks, as asserted |
| BuildRowtab.SlotsApart | PaStiX4CalculiX/symbol/symbol.c:349-366 | two blocks go to different places |
| BuildRowtab.FilledIsRowTable | PaStiX4CalculiX/symbol/symbol.c:346-366 | once filled, each slice holds the blocks that face its column block, each once, and no block is missing |
| BuildRowtab.Build | PaStiX4CalculiX/symbol/symbol.c:303-375 | counting and filling through the cursors gives a row table, each slice in increasing order |
| RowTable.RankHolds | PaStiX4CalculiX/blend/solver_matrix_gen.c:362-394 | every entry of a slice is at its rank in the reordered slice |
| RowTable.RankOnto | PaStiX4CalculiX/blend/solver_matrix_gen.c:362-395 | every place of the reordered slice is the rank of an entry |
| RowTable.RanksIncrease | PaStiX4CalculiX/blend/solver_matrix_gen.c:345-351 | the reordering is a stable partition: of two entries the first stays first unless it has 2D tasks and the second has not |
| RowTable.FirstPass | PaStiX4CalculiX/blend/solver_matrix_gen.c:362-380 | the entries without 2D tasks are copied in order and marked, and the first of the others is found |
| RowTable.SecondPass | PaStiX4CalculiX/blend/solver_matrix_gen.c:385-395 | the entries that are not marked follow, and the final assertion on their number holds |
| RowTable.CopyRow | PaStiX4CalculiX/blend/solver_matrix_gen.c:352-402 | the slice is copied or partitioned, and the 2D part starts after the entries without 2D tasks |
| CoefTable.OffsetInRange | PaStiX4CalculiX/blend/solver_matrix_gen.c:257-263 | every coefficient of a column block is inside its storage, in both layouts |
| CoefTable.OffsetOnto | PaStiX4CalculiX/blend/solver_matrix_gen.c:257-263 | no gap: every place of the storage holds a coefficient, in both layouts |
| CoefTable.OffsetsApart | PaStiX4CalculiX/blend/solver_matrix_gen.c:257-263 | no overlap: different coefficients have different places, in both layouts |
| SolverGen.LimitsMeet | PaStiX4CalculiX/blend/solver_matrix_gen.c:275-286 | the final assertion on the limits of 1D and 2D tasks holds for all types, and the limits enclose them |
| SolverGen.SolverMatrix.FillBloks | PaStiX4CalculiX/blend/solver_matrix_gen.c:232-266 | the blocks of a column block get their coefficients after those above |
| SolverGen.SolverMatrix.AddCblk | PaStiX4CalculiX/blend/solver_matrix_gen.c:211-414 | one column block more keeps all that is known of the tables; the assertion on its first column holds |
| SolverGen.SolverMatrix.Fill | PaStiX4CalculiX/blend/solver_matrix_gen.c:203-445 | all column blocks, blocks and slices are as specified, and the sizes add up |
| SolverGen.NewTableOk | PaStiX4CalculiX/blend/solver_matrix_gen.c:352-402 | the new row table lists the blocks that face each column block, each once |
| SolverGen.SplitAtBrown2d | PaStiX4CalculiX/blend/solver_matrix_gen.c:381-395 | in a slice of 2D tasks, brown2d separates the blocks without 2D tasks from the others, each group in its old order |
| SolverGen.FillBrowind | PaStiX4CalculiX/blend/solver_matrix_gen.c:473-482 | the block at every place of the row table learns this place |
| SolverGen.PlacesAreRight | PaStiX4CalculiX/blend/solver_matrix_gen.c:473-482 | every off-diagonal block knows its place in the slice of the column block it faces, diagonal blocks have none |
| IndTable.CountIsFill | PaStiX4CalculiX/blend/solver_matrix_gen.c:512-518 | the triangles counted are the entries written |
| IndTable.CountEntries | PaStiX4CalculiX/blend/solver_matrix_gen.c:493-536 | where the entries of each task start, and how many there are |
| IndTable.EntryAt | PaStiX4CalculiX/blend/solver_matrix_gen.c:661-713 | the place of a pair, computed from the numbers of its blocks, holds the entry of the pair |
| IndTable.EntryIsRight | PaStiX4CalculiX/blend/solver_matrix_gen.c:661-713 | the entry of a pair is minus the number of the column block faced when one of its blocks shares a row with the second block, and 1 when none does |
| IndTable.FillIndtab | PaStiX4CalculiX/blend/solver_matrix_gen.c:655-715 | the table is that of the specification, and the assertions on its cursor hold |
| Solver.Generate | PaStiX4CalculiX/blend/solver_matrix_gen.c:80-715 | the fields of the solver agree with one another and with the structure: owner, rows and faced column block of every block, where its coefficients start and end, its place in the row table; columns, first block and stride of every column block; what faces it, in order on each side of brown2d; limits and sizes; and the table of contributions names the column block of each update |
| SolverFields.BlokIsRight | PaStiX4CalculiX/blend/solver_matrix_gen.c:242-248 | a block belongs to its column block, has the rows of the structure inside the columns of the one it faces, and its place in the row table holds it; the diagonal block has none |
| SolverFields.CoefIsRight | PaStiX4CalculiX/blend/solver_matrix_gen.c:246-256 | the coefficients of a block start where those of the block above end, and the last one ends with the column block, in both layouts |
| SolverFields.RowIsRight | PaStiX4CalculiX/blend/solver_matrix_gen.c:352-402 | an entry of the slice of a column block is an off-diagonal block that faces it and knows its place, before brown2d exactly when its own column block has no 2D tasks |
| SolverFields.RowIsSorted | PaStiX4CalculiX/blend/solver_matrix_gen.c:362-395 | on each side of brown2d the entries of a slice increase |
| SolverFields.CblkIsRight | PaStiX4CalculiX/blend/solver_matrix_gen.c:318-340 | columns, first block, first column index and slice of a column block, which the next one, virtual at the end, closes |
| SolverGen.SolverMatrix.Close | PaStiX4CalculiX/blend/solver_matrix_gen.c:417-436 | the virtual column block starts where the last one ends |

## Left out

- Several clusters: fan-in targets, their costs and receive times, and the distribution of the
  matrix over processes.
- The rest of solver_matrix_gen.c: supernode indexes, Schur and low-rank marks, sizes of the
  buffers, fan-in targets; and the numerical factorization and solve themselves.
- common_sort2.c: the template with more tables moved along the first one.
- The byte by byte rotation of the insertion sort: elements move as a whole.
- eTreeGetLevelMinIdx, the drawings of the tree, and the distribution of 2D and low-rank types
  over the tree (candSubTreeDistrib): they do not change intervals, costs or levels.
- The other split strategies, computeSmallestSplit_max and the constant split, and the selection
  marks that the split copies (selevtx).
- The cost model: costs are parameters, positive for column blocks and not negative for blocks.
- Integer overflow of costs and counters, and the rounding of dates, shares and values.
- A generation number of the barrier that wraps around, and the creation and binding of threads.
- bvec_zlapmr on several columns: a row is one element, since the loop over the columns
  exchanges two rows column by column; the leading dimension is not modelled.
- Matrices that are not general with one degree of freedom: conjugated and symmetric products,
  and the choice of the values from the type of the matrix; the product with the transposed
  matrix uses the same loops on the other values.
- The indirect fill of the block CSC (bcsc_zinit_centralized), which is not called any more,
  and the initialization for factorizations other than LU, where the upper values are the lower ones.
- The balanced partition of the blocks (bcsc_zspmv_get_balanced_indexes), which is not compiled in.
- Allocation bounds kept between calls, timers, traces, files and messages.

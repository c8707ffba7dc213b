/** The static scheduling simulation of blend/simu_run.c with one cluster: the candidates
    of every column block are local, so the fan-in dates (ftgttimetab) stay at zero and
    there is one task per column block (simu_task.c), numbered like it. */
module Simulation {
  import opened Queue
  import opened SymbolMatrix
  import opened Contributions
  import opened Schedule
  import opened Makespan
  import opened ProcHeaps
  import opened Turns

  class Simulation {
    const pb: Problem
    const eagerPop: bool  // the pop of the chosen task is inside an assert of the source
    const heaps: Heaps
    var timer: seq<real>        // proctab[].timer
    var tasktab: seq<seq<int>>  // proctab[].tasktab
    var time: seq<real>         // tasktab[].time
    var prionum: seq<int>       // tasktab[].prionum
    var nextprio: int           // clustab[0].prionum
    var ownetab: seq<int>
    var cblkctrb: seq<int>      // cblktab[].ctrbcnt
    var blokctrb: seq<int>      // bloktab[].ctrbcnt
    var ownerclust: seq<int>    // bloktab[].ownerclust
    var predtime: real          // DPARM_PRED_FACT_TIME
    ghost var start: seq<real>  // date at which each task starts

    ghost predicate Frame()
      reads this, heaps, heaps.Repr
    {
      && ValidProblem(pb) && heaps.Valid() && this !in heaps.Repr && |heaps.view| == 2 * pb.nbcores
      && KeysOk(pb, time, heaps.view)
    }

    ghost predicate ClocksOk()
      reads this
    {
      && |timer| == pb.nbcores && |time| == |pb.cand|
      && (forall p :: 0 <= p < |timer| ==> timer[p] >= 0.0)
    }

    constructor (pb: Problem, eagerPop: bool)
      requires ValidProblem(pb)
      ensures this.pb == pb && this.eagerPop == eagerPop
      ensures Frame() && fresh(heaps.Repr) && Initial()
    {
      this.pb := pb;
      this.eagerPop := eagerPop;
      heaps := new Heaps(2 * pb.nbcores, 100);
      timer := seq(pb.nbcores, _ => 0.0);
      tasktab := seq(pb.nbcores, _ => []);
      time := seq(|pb.cand|, _ => 0.0);
      prionum := seq(|pb.cand|, _ => -1);
      nextprio := 0;
      ownetab := seq(|pb.cand|, _ => -1);
      cblkctrb := seq(|pb.cand|, _ => 0);
      blokctrb := seq(|pb.symb.bloktab|, _ => 0);
      ownerclust := seq(|pb.symb.bloktab|, _ => -1);
      predtime := 0.0;
      start := seq(|pb.cand|, _ => 0.0);
    }

    /** The tables as simuInit and simuTaskBuild leave them. */
    ghost predicate Initial()
      reads this, heaps
    {
      && ValidProblem(pb)
      && timer == seq(pb.nbcores, _ => 0.0) && tasktab == seq(pb.nbcores, _ => [])
      && time == seq(|pb.cand|, _ => 0.0) && start == seq(|pb.cand|, _ => 0.0)
      && prionum == seq(|pb.cand|, _ => -1) && nextprio == 0 && ownetab == seq(|pb.cand|, _ => -1)
      && cblkctrb == seq(|pb.cand|, _ => 0) && blokctrb == seq(|pb.symb.bloktab|, _ => 0)
      && ownerclust == seq(|pb.symb.bloktab|, _ => -1)
      && |heaps.view| == 2 * pb.nbcores && forall q :: 0 <= q < |heaps.view| ==> heaps.view[q] == []
    }

    /** What holds between two tasks of the main loop. */
    ghost predicate Inv()
      reads this, heaps, heaps.Repr
    {
      && Frame() && ClocksOk()
      && OwnersOk(pb, ownetab, ownerclust)
      && CountsOk(pb.symb, Done(ownetab), blokctrb)
      && SumsOk(pb.symb, blokctrb, cblkctrb)
      && QueuesOk(pb.cand, cblkctrb, Done(ownetab), heaps.view, pb.nbcores)
      && HistoryOk(pb, ownetab, prionum, nextprio, tasktab, time, start, timer)
    }

    /** What a task changes when it runs, the tables, and the whole state. */
    ghost function Now(): Marks
      reads this, heaps
    {
      Marks(blokctrb, cblkctrb, time, timer, heaps.view)
    }

    ghost function TablesNow(): Tables
      reads this
    {
      Tables(ownetab, prionum, nextprio, tasktab, time, start, timer)
    }

    ghost function StateNow(): State
      reads this, heaps
    {
      State(TablesNow(), blokctrb, cblkctrb, heaps.view)
    }

    // ----- simu_putInAllReadyQueues -----

    /** Puts a ready task in one heap of each of its candidates: the future heap, ordered by
        ready date, of those whose clock is behind that date, the ready heap of the others. */
    method PutInAllReadyQueues(tasknum: int)
      requires Frame() && ClocksOk() && 0 <= tasknum < |pb.cand|
      modifies heaps.Repr
      ensures Frame() && fresh(heaps.Repr - old(heaps.Repr))
      ensures 0 <= pb.cand[tasknum].fcandnum <= pb.cand[tasknum].lcandnum + 1 <= pb.nbcores
      ensures heaps.view
              == PutUpTo(pb, timer, time, old(heaps.view), tasknum, pb.cand[tasknum].fcandnum,
                         pb.cand[tasknum].lcandnum + 1)
      ensures Enters(old(heaps.view), tasknum)
    {
      var cand := pb.cand[tasknum];
      var readyDate := time[tasknum];
      var procnum := cand.fcandnum;
      ghost var before := heaps.view;
      PutNone(tasknum, before);
      while procnum <= cand.lcandnum
        invariant procnum <= cand.lcandnum + 1 && fresh(heaps.Repr - old(heaps.Repr))
        invariant PutBefore(tasknum, procnum, before)
      {
        ghost var repr := heaps.Repr;
        PutNext(tasknum, procnum, readyDate, before);
        assert heaps.Repr - old(heaps.Repr) <= (heaps.Repr - repr) + (repr - old(heaps.Repr));
        procnum := procnum + 1;
      }
      AllEnter(tasknum, before);
    }

    lemma AllEnter(tasknum: int, before: seq<seq<Item>>)
      requires 0 <= tasknum < |pb.cand| && PutBefore(tasknum, pb.cand[tasknum].lcandnum + 1, before)
      ensures Enters(before, tasknum)
    {
      forall q | 0 <= q < 2 * pb.nbcores ensures EntersHeap(before, tasknum, q) { EntersOne(tasknum, before, q); }
    }

    lemma EntersOne(tasknum: int, before: seq<seq<Item>>, q: int)
      requires 0 <= tasknum < |pb.cand| && PutBefore(tasknum, pb.cand[tasknum].lcandnum + 1, before)
      requires 0 <= q < 2 * pb.nbcores
      ensures EntersHeap(before, tasknum, q)
    {
      PutWhere(pb, timer, time, before, tasknum, pb.cand[tasknum].fcandnum, pb.cand[tasknum].lcandnum + 1, q);
    }

    ghost predicate Enters(before: seq<seq<Item>>, t: int)
      reads this, heaps
    {
      && ValidProblem(pb) && ClocksOk() && 0 <= t < |pb.cand| && |before| == |heaps.view| == 2 * pb.nbcores
      && forall q :: 0 <= q < 2 * pb.nbcores ==> EntersHeap(before, t, q)
    }

    /** Heap q holds the task once more exactly when it is the future heap of a candidate whose clock
        is behind the date of the task, or the ready heap of another candidate. */
    ghost predicate EntersHeap(before: seq<seq<Item>>, t: int, q: int)
      requires ValidProblem(pb) && ClocksOk() && 0 <= t < |pb.cand|
      requires |before| == |heaps.view| == 2 * pb.nbcores && 0 <= q < 2 * pb.nbcores
      reads this, heaps
    {
      var p := if q < pb.nbcores then q else q - pb.nbcores;
      var enters := Candidate(pb.cand, t, p) && (q < pb.nbcores <==> time[t] <= timer[p]);
      Elts(heaps.view[q]) == Elts(before[q]) + if enters then multiset{t} else multiset{}
    }

    /** The candidates of the task before p hold it. */
    ghost predicate PutBefore(tasknum: int, p: int, before: seq<seq<Item>>)
      reads this, heaps, heaps.Repr
    {
      && Frame() && ClocksOk() && 0 <= tasknum < |pb.cand| && |before| == 2 * pb.nbcores
      && 0 <= pb.cand[tasknum].fcandnum <= p <= pb.cand[tasknum].lcandnum + 1 <= pb.nbcores
      && heaps.view == PutUpTo(pb, timer, time, before, tasknum, pb.cand[tasknum].fcandnum, p)
    }

    lemma PutNone(tasknum: int, before: seq<seq<Item>>)
      requires Frame() && ClocksOk() && 0 <= tasknum < |pb.cand| && before == heaps.view
      ensures PutBefore(tasknum, pb.cand[tasknum].fcandnum, before)
    {
    }

    /** One turn of the loop. */
    method PutNext(tasknum: int, procnum: int, readyDate: real, ghost before: seq<seq<Item>>)
      requires PutBefore(tasknum, procnum, before) && procnum <= pb.cand[tasknum].lcandnum
      requires readyDate == time[tasknum]
      modifies heaps.Repr
      ensures PutBefore(tasknum, procnum + 1, before) && fresh(heaps.Repr - old(heaps.Repr))
    {
      PutInReadyQueue(tasknum, procnum, readyDate);
    }

    /** One processor of the loop: the future heap if the task is not ready yet. */
    method PutInReadyQueue(tasknum: int, procnum: int, readyDate: real)
      requires Frame() && ClocksOk() && 0 <= tasknum < |pb.cand| && 0 <= procnum < pb.nbcores
               && readyDate == time[tasknum]
      modifies heaps.Repr
      ensures Frame() && fresh(heaps.Repr - old(heaps.Repr))
      ensures heaps.view == PutIn(pb, timer, time, old(heaps.view), tasknum, procnum)
    {
      var treelevel := pb.cand[tasknum].treelevel as real;
      var item, q;
      if readyDate > timer[procnum] {
        item, q := Item(readyDate, treelevel, tasknum), pb.nbcores + procnum;
      } else {
        item, q := Item(treelevel, pb.symb.First(tasknum) as real, tasknum), procnum;
      }
      PushKeys(pb, time, heaps.view, q, item);
      heaps.Push(q, item.elt, item.key1, item.key2);
    }

    // ----- simu_getNextTaskNextProc -----

    /** Tasks already mapped are dropped from the head of heap q. */
    method DropMapped(q: int) returns (tasknum: int)
      requires Frame() && OwnersOk(pb, ownetab, ownerclust) && 0 <= q < 2 * pb.nbcores
      requires forall t :: t in Elts(heaps.view[q]) ==> 0 <= t < |pb.cand|
      modifies heaps.Repr
      ensures Frame() && heaps.Repr == old(heaps.Repr)
      ensures heaps.view == old(heaps.view)[q := heaps.view[q]]
      ensures MappedDropped(ownetab, old(heaps.view)[q], heaps.view[q], -1)
      ensures heaps.view[q] == Cleaned(ownetab, old(heaps.view)[q])
      ensures tasknum == -1 ==> heaps.view[q] == []
      ensures tasknum != -1 ==> heaps.view[q] != [] && heaps.view[q][0].elt == tasknum
                                && 0 <= tasknum < |pb.cand| && ownetab[tasknum] < 0
    {
      tasknum := -1;
      ghost var before := heaps.view[q];
      NothingDropped(ownetab, before, -1);
      var size := heaps.Size(q);
      while size > 0
        invariant Frame() && heaps.Repr == old(heaps.Repr) && size == |heaps.view[q]|
        invariant heaps.view == old(heaps.view)[q := heaps.view[q]]
        invariant MappedDropped(ownetab, before, heaps.view[q], -1)
        invariant Cleaned(ownetab, heaps.view[q]) == Cleaned(ownetab, before)
        invariant tasknum == -1
        decreases size
      {
        tasknum := heaps.Read(q);
        HeadInRange(ownetab, before, heaps.view[q]);
        if !IsMapped(tasknum) {
          break;
        }
        /* This task has to be removed from the heap (already mapped) */
        DropHead(ownetab, before, heaps.view[q], -1);
        PopKeys(pb, time, heaps.view, q);
        var popped := heaps.Pop(q);
        tasknum := -1;
        size := heaps.Size(q);
      }
    }

    /** A task is mapped when its diagonal block has an owner cluster. */
    predicate IsMapped(t: int)
      requires ValidProblem(pb) && OwnersOk(pb, ownetab, ownerclust) && 0 <= t < |pb.cand|
      reads this
      ensures IsMapped(t) <==> ownetab[t] >= 0
    {
      DiagonalOwner(pb, ownetab, ownerclust, t);
      ownerclust[pb.symb.First(t)] >= 0
    }

    /** The task processor p would run next, once its heaps are cleaned. */
    method FirstTask(p: int, ghost before: seq<seq<Item>>) returns (tasknum: int)
      requires Frame() && OwnersOk(pb, ownetab, ownerclust) && 0 <= p < pb.nbcores
      requires QueuesOk(pb.cand, cblkctrb, Done(ownetab), before, pb.nbcores)
      requires Taken(pb, before, heaps.view, ownetab, -1, -1)
      modifies heaps.Repr
      ensures Frame() && heaps.Repr == old(heaps.Repr)
      ensures Taken(pb, before, heaps.view, ownetab, -1, -1)
      ensures heaps.view == OneClean(ownetab, old(heaps.view), pb.nbcores, p)
      ensures tasknum == HeadTask(heaps.view, pb.nbcores, p)
      ensures tasknum != -1 ==> 0 <= tasknum < |pb.cand| && ownetab[tasknum] < 0
    {
      ghost var view := heaps.view;
      tasknum := CleanHeap(p, before);
      if tasknum == -1 {
        tasknum := CleanHeap(pb.nbcores + p, before);
      }
      CleanedBoth(ownetab, view, heaps.view, pb.nbcores, p);
    }

    method CleanHeap(q: int, ghost before: seq<seq<Item>>) returns (tasknum: int)
      requires Frame() && OwnersOk(pb, ownetab, ownerclust) && 0 <= q < 2 * pb.nbcores
      requires QueuesOk(pb.cand, cblkctrb, Done(ownetab), before, pb.nbcores)
      requires Taken(pb, before, heaps.view, ownetab, -1, -1)
      modifies heaps.Repr
      ensures Frame() && heaps.Repr == old(heaps.Repr)
      ensures Taken(pb, before, heaps.view, ownetab, -1, -1)
      ensures heaps.view == old(heaps.view)[q := Cleaned(ownetab, old(heaps.view)[q])]
      ensures tasknum == -1 ==> heaps.view[q] == []
      ensures tasknum != -1 ==> heaps.view[q] != [] && heaps.view[q][0].elt == tasknum
                                && 0 <= tasknum < |pb.cand| && ownetab[tasknum] < 0
    {
      ghost var view := heaps.view;
      TakenHolds(pb, cblkctrb, Done(ownetab), before, view, ownetab, q);
      tasknum := DropMapped(q);
      TakenMore(pb, before, view, ownetab, q, heaps.view[q], -1, -1);
    }

    /** The pop inside the asserts at the end of the search. */
    method PopChosen(procnum: int, earlytask: int, ghost before: seq<seq<Item>>)
      requires Frame() && 0 <= procnum < pb.nbcores && |ownetab| == |pb.cand|
      requires Taken(pb, before, heaps.view, ownetab, -1, -1)
      requires earlytask != -1 && HeadTask(heaps.view, pb.nbcores, procnum) == earlytask
      modifies heaps.Repr
      ensures Frame() && heaps.Repr == old(heaps.Repr)
      ensures Taken(pb, before, heaps.view, ownetab, earlytask, procnum)
      ensures heaps.view == WithoutHead(old(heaps.view), pb.nbcores, procnum)
    {
      ghost var view := heaps.view;
      var q := procnum;
      var size := heaps.Size(q);
      if size == 0 {
        q := pb.nbcores + procnum;
      }
      NothingDropped(ownetab, view[q], -1);
      DropHead(ownetab, view[q], view[q], earlytask);
      PopKeys(pb, time, view, q);
      var popped := heaps.Pop(q);
      assert popped == earlytask;
      TakenMore(pb, before, view, ownetab, q, heaps.view[q], earlytask, procnum);
    }

    /** The loop over the processors: the best couple is the head of a processor with the
        least ready date, and the one that the comparisons of the search prefer. */
    method FindEarliest() returns (best: Choice)
      requires Frame() && ClocksOk() && OwnersOk(pb, ownetab, ownerclust)
      requires QueuesOk(pb.cand, cblkctrb, Done(ownetab), heaps.view, pb.nbcores)
      modifies heaps.Repr
      ensures Frame() && heaps.Repr == old(heaps.Repr)
      ensures Taken(pb, old(heaps.view), heaps.view, ownetab, -1, -1)
      ensures heaps.view == CleanedView(ownetab, old(heaps.view), pb.nbcores)
      ensures Best(pb, heaps.view, timer, time, ownetab, best, pb.nbcores)
    {
      best := Choice(-1, -1, 0.0, 0.0, false);
      ghost var before := heaps.view;
      SearchOpens();
      for p := 0 to pb.nbcores
        invariant Searching(before, best, p) && heaps.Repr == old(heaps.Repr)
      {
        best := ConsiderNext(p, best, before);
      }
      AllCleaned(ownetab, before, heaps.view, pb.nbcores);
    }

    /** The processors before p have been looked at. */
    ghost predicate Searching(before: seq<seq<Item>>, best: Choice, p: int)
      reads this, heaps, heaps.Repr
    {
      && Frame() && ClocksOk() && OwnersOk(pb, ownetab, ownerclust) && 0 <= p <= pb.nbcores
      && QueuesOk(pb.cand, cblkctrb, Done(ownetab), before, pb.nbcores)
      && Taken(pb, before, heaps.view, ownetab, -1, -1) && CleanedTo(ownetab, before, heaps.view, pb.nbcores, p)
      && Best(pb, heaps.view, timer, time, ownetab, best, p)
    }

    lemma SearchOpens()
      requires Frame() && ClocksOk() && OwnersOk(pb, ownetab, ownerclust)
      requires QueuesOk(pb.cand, cblkctrb, Done(ownetab), heaps.view, pb.nbcores)
      ensures Searching(heaps.view, Choice(-1, -1, 0.0, 0.0, false), 0)
    {
      NoneCleaned(ownetab, heaps.view, pb.nbcores);
    }

    /** One processor of the search. */
    method ConsiderNext(p: int, was: Choice, ghost before: seq<seq<Item>>) returns (best: Choice)
      requires Searching(before, was, p) && p < pb.nbcores
      modifies heaps.Repr
      ensures Searching(before, best, p + 1) && heaps.Repr == old(heaps.Repr)
    {
      best := was;
      ghost var view := heaps.view;
      CleanedNext(ownetab, before, view, pb.nbcores, p, p + 1);
      var tasknum := FirstTask(p, before);
      if tasknum != -1 {
        best := Consider(best, p, tasknum, ReadyTime(timer, time, p, tasknum), timer[p]);
      }
      BestNext(pb, ownetab, view, heaps.view, timer, time, p, p + 1, was, best, tasknum);
    }

    /** Chooses the next task and the processor that runs it; -1 when no heap has one left. */
    method GetNextTaskNextProc() returns (earlytask: int, procnum: int)
      requires Frame() && ClocksOk() && OwnersOk(pb, ownetab, ownerclust) && Whole(pb, StateNow())
      requires QueuesOk(pb.cand, cblkctrb, Done(ownetab), heaps.view, pb.nbcores)
      modifies heaps.Repr
      ensures Frame() && heaps.Repr == old(heaps.Repr)
      ensures Taken(pb, old(heaps.view), heaps.view, ownetab, earlytask, procnum)
      ensures earlytask == -1 ==> procnum == -1 && Finished(pb, old(StateNow()))
                                  && forall p :: 0 <= p < pb.nbcores ==> HeadTask(heaps.view, pb.nbcores, p) == -1
      ensures earlytask != -1 ==>
                && 0 <= procnum < pb.nbcores && 0 <= earlytask < |pb.cand| && ownetab[earlytask] < 0
                && earlytask in Held(old(heaps.view), pb.nbcores, procnum)
                && SearchGave(pb, eagerPop, old(StateNow()), StateNow(), earlytask, procnum)
    {
      ghost var s := StateNow();
      var best := FindEarliest();
      earlytask, procnum := best.task, best.proc;
      if earlytask != -1 {
        HeadWasHeld(pb, s.view, heaps.view, ownetab, procnum);
        ghost var view := heaps.view;
        if eagerPop {
          PopChosen(procnum, earlytask, s.view);
        } else {
          TakenWeaker(pb, s.view, heaps.view, ownetab, earlytask, procnum);
        }
        BestIsChosen(pb, eagerPop, s, StateNow(), view, best);
      } else {
        procnum := -1;
        NoneIsFinished(pb, s, heaps.view, best);
      }
    }

    // ----- simu_computeBlockCtrbNbr -----

    /** Counts the updates of every block, then sums them per column block. */
    method ComputeBlockCtrbNbr()
      requires ValidProblem(pb) && |cblkctrb| == |pb.cand|
      requires |blokctrb| == |pb.symb.bloktab| && forall b :: 0 <= b < |blokctrb| ==> blokctrb[b] == 0
      modifies `blokctrb, `cblkctrb
      ensures CountsOk(pb.symb, Done(seq(|pb.cand|, _ => -1)), blokctrb)
      ensures SumsOk(pb.symb, blokctrb, cblkctrb)
    {
      ghost var none := Done(seq(|pb.cand|, _ => -1));
      CountedNone(pb.symb, none, blokctrb);
      for i := 0 to pb.symb.CblkNbr()
        invariant CountedBefore(pb.symb, none, i, blokctrb) && |cblkctrb| == |pb.cand|
      {
        CountColumn(i, none);
      }
      CountedAll(pb.symb, none, blokctrb);
      SumCounters();
    }

    method CountColumn(i: int, ghost none: seq<bool>)
      requires ValidProblem(pb) && CountedBefore(pb.symb, none, i, blokctrb) && i < pb.symb.CblkNbr() && !none[i]
      modifies `blokctrb
      ensures CountedBefore(pb.symb, none, i + 1, blokctrb)
    {
      CountedOpen(pb.symb, none, i, blokctrb);
      var j := pb.symb.First(i) + 1;
      while j < pb.symb.Last(i)
        invariant CountedFrom(pb.symb, none, i, j, blokctrb)
      {
        CountRow(i, j, none);
        j := j + 1;
      }
      CountedClose(pb.symb, none, i, blokctrb);
    }

    /** The row of block j: all pairs (j, k). */
    method CountRow(i: int, j: int, ghost none: seq<bool>)
      requires ValidProblem(pb) && CountedFrom(pb.symb, none, i, j, blokctrb) && j < pb.symb.Last(i)
      modifies `blokctrb
      ensures CountedFrom(pb.symb, none, i, j + 1, blokctrb)
    {
      var firstbloknum := 0;
      var k := j;
      CountedOpenRow(pb.symb, none, i, j, blokctrb);
      while k < pb.symb.Last(i)
        invariant CountedFromPair(pb.symb, none, i, j, k, blokctrb)
        invariant k < pb.symb.Last(i) ==> HintOk(pb.symb, j, k, firstbloknum)
      {
        firstbloknum := CountPair(i, j, k, firstbloknum, none);
        k := k + 1;
      }
      CountedCloseRow(pb.symb, none, i, j, blokctrb);
    }

    method CountPair(i: int, j: int, k: int, hint: int, ghost none: seq<bool>) returns (next: int)
      requires ValidProblem(pb) && CountedFromPair(pb.symb, none, i, j, k, blokctrb) && k < pb.symb.Last(i)
      requires HintOk(pb.symb, j, k, hint)
      modifies `blokctrb
      ensures CountedFromPair(pb.symb, none, i, j, k + 1, blokctrb)
      ensures k + 1 < pb.symb.Last(i) ==> HintOk(pb.symb, j, k + 1, next)
    {
      CountStep(pb.symb, none, i, j, k, blokctrb);
      var facebloknum := NextFacing(i, j, k, hint);
      if facebloknum >= 0 {
        blokctrb := blokctrb[facebloknum := blokctrb[facebloknum] + 1];
        next := facebloknum;
      } else {
        next := hint;
      }
    }

    /** The facing block of a pair; it is also a good hint for the next pair. */
    method NextFacing(i: int, j: int, k: int, hint: int) returns (b: int)
      requires ValidProblem(pb) && UpdatePair(pb.symb, i, j, k) && HintOk(pb.symb, j, k, hint)
      ensures b == Facing(pb.symb, j, k)
      ensures k + 1 < pb.symb.Last(i) ==> HintOk(pb.symb, j, k + 1, if b < 0 then hint else b)
    {
      b := GetFacingBloknum(pb.symb, i, j, k, hint, pb.ricar);
      if k + 1 < pb.symb.Last(i) {
        HintStays(pb.symb, i, j, k, hint);
      }
    }

    method SumCounters()
      requires ValidProblem(pb) && |blokctrb| == |pb.symb.bloktab| && |cblkctrb| == |pb.cand|
      modifies `cblkctrb
      ensures SumsOk(pb.symb, blokctrb, cblkctrb)
    {
      for i := 0 to pb.symb.CblkNbr()
        invariant |cblkctrb| == |pb.cand|
        invariant forall c :: 0 <= c < i ==> SumOk(pb.symb, blokctrb, cblkctrb, c)
      {
        assert ValidColumn(pb.symb, i);
        var sum, j := 0, pb.symb.First(i);
        while j < pb.symb.Last(i)
          invariant pb.symb.First(i) <= j <= pb.symb.Last(i)
          invariant sum == SumRange(blokctrb, pb.symb.First(i), j)
        {
          sum := sum + blokctrb[j];
          j := j + 1;
        }
        ghost var before := cblkctrb;
        cblkctrb := cblkctrb[i := sum];
        forall c | 0 <= c <= i ensures SumOk(pb.symb, blokctrb, cblkctrb, c) {
          assert c < i ==> SumOk(pb.symb, blokctrb, before, c);
        }
      }
    }

    // ----- simu_computeTask -----

    /** One update: it goes out of the counters, raises the ready date of the facing task
        and pushes that task once nothing is pending. */
    method ApplyUpdate(facingcblk: int, facingblok: int, date: real)
      requires Frame() && ClocksOk() && |ownetab| == |pb.cand|
      requires SumsOk(pb.symb, blokctrb, cblkctrb) && 0 <= facingcblk < pb.symb.CblkNbr()
      requires pb.symb.First(facingcblk) <= facingblok < pb.symb.Last(facingcblk) && 0 <= facingblok < |blokctrb|
      requires blokctrb[facingblok] > 0 && NonNegative(blokctrb) && Fits(pb, Now())
      requires QueuesOk(pb.cand, cblkctrb, Done(ownetab), heaps.view, pb.nbcores)
      modifies `time, `blokctrb, `cblkctrb, heaps.Repr
      ensures Frame() && fresh(heaps.Repr - old(heaps.Repr))
      ensures blokctrb == old(blokctrb)[facingblok := old(blokctrb)[facingblok] - 1]
      ensures SumsOk(pb.symb, blokctrb, cblkctrb)
      ensures QueuesOk(pb.cand, cblkctrb, Done(ownetab), heaps.view, pb.nbcores)
      ensures time == Raise(old(time), facingcblk, date)
      ensures Now() == Updated(pb, old(Now()), facingcblk, facingblok, date)
    {
      TakeContribution(facingcblk, facingblok);
      RaiseKeys(pb, time, heaps.view, old(cblkctrb), Done(ownetab), facingcblk, date);
      time := Raise(time, facingcblk, date);
      PushIfReady(facingcblk, old(cblkctrb));
    }

    /** The counter of column block c went down from ctrb: its task is pushed if it is ready. */
    method PushIfReady(c: int, ghost ctrb: seq<int>)
      requires Frame() && ClocksOk() && |ownetab| == |pb.cand| && 0 <= c < |pb.cand|
      requires QueuesOk(pb.cand, ctrb, Done(ownetab), heaps.view, pb.nbcores)
      requires ctrb[c] > 0 && cblkctrb == ctrb[c := ctrb[c] - 1] && Fits(pb, Now())
      modifies heaps.Repr
      ensures Frame() && fresh(heaps.Repr - old(heaps.Repr)) && Now() == PutWhenReady(pb, old(Now()), c)
      ensures QueuesOk(pb.cand, cblkctrb, Done(ownetab), heaps.view, pb.nbcores)
    {
      ghost var before := heaps.view;
      if cblkctrb[c] == 0 {
        PutInAllReadyQueues(c);
      }
      StepReady(pb, timer, time, ctrb, Done(ownetab), before, heaps.view, c);
    }

    /** Decreases both counters; neither gets negative. */
    method TakeContribution(facingcblk: int, facingblok: int)
      requires SumsOk(pb.symb, blokctrb, cblkctrb) && 0 <= facingcblk < pb.symb.CblkNbr()
      requires pb.symb.First(facingcblk) <= facingblok < pb.symb.Last(facingcblk) && 0 <= facingblok < |blokctrb|
      requires blokctrb[facingblok] > 0 && NonNegative(blokctrb)
      modifies `blokctrb, `cblkctrb
      ensures old(cblkctrb)[facingcblk] > 0
      ensures cblkctrb == old(cblkctrb)[facingcblk := old(cblkctrb)[facingcblk] - 1]
      ensures blokctrb == old(blokctrb)[facingblok := old(blokctrb)[facingblok] - 1]
      ensures SumsOk(pb.symb, blokctrb, cblkctrb)
    {
      StepSums(pb.symb, blokctrb, cblkctrb, facingcblk, facingblok);
      cblkctrb := cblkctrb[facingcblk := cblkctrb[facingcblk] - 1];
      blokctrb := blokctrb[facingblok := blokctrb[facingblok] - 1];
      assert cblkctrb[facingcblk] >= 0 && blokctrb[facingblok] >= 0;
    }

    /** One pair (i, j) of the task: its update is applied if it has a facing block. */
    method ApplyPair(cblknum: int, procnum: int, i: int, j: int, hint: int) returns (next: int)
      requires Frame() && ClocksOk() && |ownetab| == |pb.cand| && 0 <= procnum < pb.nbcores
      requires CountsFromPair(pb.symb, Done(ownetab), cblknum, i, j, blokctrb) && j < pb.symb.Last(cblknum)
      requires SumsOk(pb.symb, blokctrb, cblkctrb) && HintOk(pb.symb, i, j, hint) && Fits(pb, Now())
      requires QueuesOk(pb.cand, cblkctrb, Done(ownetab), heaps.view, pb.nbcores)
      modifies `time, `blokctrb, `cblkctrb, heaps.Repr
      ensures Frame() && fresh(heaps.Repr - old(heaps.Repr)) && |time| == |pb.cand|
      ensures CountsFromPair(pb.symb, Done(ownetab), cblknum, i, j + 1, blokctrb)
      ensures SumsOk(pb.symb, blokctrb, cblkctrb)
      ensures QueuesOk(pb.cand, cblkctrb, Done(ownetab), heaps.view, pb.nbcores)
      ensures j + 1 < pb.symb.Last(cblknum) ==> HintOk(pb.symb, i, j + 1, next)
      ensures UpdatePair(pb.symb, cblknum, i, j) && 0 <= i <= j < |pb.symb.bloktab|
              && 0 <= pb.symb.bloktab[i].fcblknm < |old(time)|
      ensures time == if Facing(pb.symb, i, j) >= 0 then Raise(old(time), pb.symb.bloktab[i].fcblknm, timer[procnum])
              else old(time)
      ensures Now() == Pair(pb, old(Now()), cblknum, procnum, i, j)
    {
      StepCounts(pb.symb, Done(ownetab), cblknum, i, j, blokctrb);
      CountsNonNegative(pb.symb, Done(ownetab), cblknum, i, j, blokctrb);
      next := NextFacing(cblknum, i, j, hint);
      if next >= 0 {
        ApplyUpdate(pb.symb.bloktab[i].fcblknm, next, timer[procnum]);
      } else {
        next := hint;
      }
    }

    /** One off-diagonal block of the task: its cost, then the updates of its row. */
    method ApplyBlock(cblknum: int, procnum: int, i: int)
      requires Frame() && ClocksOk() && |ownetab| == |pb.cand| && 0 <= procnum < pb.nbcores
      requires CountsFrom(pb.symb, Done(ownetab), cblknum, i, blokctrb) && i < pb.symb.Last(cblknum)
      requires SumsOk(pb.symb, blokctrb, cblkctrb) && Fits(pb, Now())
      requires QueuesOk(pb.cand, cblkctrb, Done(ownetab), heaps.view, pb.nbcores)
      modifies `timer, `time, `blokctrb, `cblkctrb, heaps.Repr
      ensures Frame() && ClocksOk() && fresh(heaps.Repr - old(heaps.Repr))
      ensures CountsFrom(pb.symb, Done(ownetab), cblknum, i + 1, blokctrb)
      ensures SumsOk(pb.symb, blokctrb, cblkctrb)
      ensures QueuesOk(pb.cand, cblkctrb, Done(ownetab), heaps.view, pb.nbcores)
      ensures 0 <= i < |pb.symb.bloktab| && 0 <= pb.symb.bloktab[i].fcblknm < |old(time)|
      ensures timer == old(timer)[procnum := old(timer)[procnum] + pb.blokcost[i]]
      ensures time == Raise(old(time), pb.symb.bloktab[i].fcblknm, timer[procnum])
      ensures UpdatePair(pb.symb, cblknum, i, i) && Fits(pb, old(Now()))
      ensures Now() == Row(pb, Costs(pb, old(Now()), procnum, i), cblknum, procnum, i, pb.symb.Last(cblknum))
    {
      CountsOpenRow(pb.symb, Done(ownetab), cblknum, i, blokctrb);
      FacingDiagonal(pb.symb, cblknum, i);
      timer := timer[procnum := timer[procnum] + pb.blokcost[i]];
      var facingcblk := pb.symb.bloktab[i].fcblknm;
      ApplyRow(cblknum, procnum, i, facingcblk);
      CountsCloseRow(pb.symb, Done(ownetab), cblknum, i, blokctrb);
    }

    /** The updates of one off-diagonal block with itself and those below it. */
    method ApplyRow(cblknum: int, procnum: int, i: int, facingcblk: int)
      requires Frame() && ClocksOk() && |ownetab| == |pb.cand| && 0 <= procnum < pb.nbcores
      requires CountsFromPair(pb.symb, Done(ownetab), cblknum, i, i, blokctrb) && i < pb.symb.Last(cblknum)
      requires SumsOk(pb.symb, blokctrb, cblkctrb) && UpdatePair(pb.symb, cblknum, i, i)
      requires QueuesOk(pb.cand, cblkctrb, Done(ownetab), heaps.view, pb.nbcores)
      requires 0 <= i < |pb.symb.bloktab| && facingcblk == pb.symb.bloktab[i].fcblknm && 0 <= facingcblk < |time|
      requires HintOk(pb.symb, i, i, pb.symb.First(facingcblk)) && Facing(pb.symb, i, i) >= 0 && Fits(pb, Now())
      modifies `time, `blokctrb, `cblkctrb, heaps.Repr
      ensures Frame() && |time| == |pb.cand| && fresh(heaps.Repr - old(heaps.Repr))
      ensures CountsFromPair(pb.symb, Done(ownetab), cblknum, i, pb.symb.Last(cblknum), blokctrb)
      ensures SumsOk(pb.symb, blokctrb, cblkctrb)
      ensures QueuesOk(pb.cand, cblkctrb, Done(ownetab), heaps.view, pb.nbcores)
      ensures time == Raise(old(time), facingcblk, timer[procnum])
      ensures Now() == Row(pb, old(Now()), cblknum, procnum, i, pb.symb.Last(cblknum))
    {
      var firstfacingblok := pb.symb.First(facingcblk);
      var j := i;
      ghost var time0, m0 := time, Now();
      RowOpens(cblknum, procnum, i, facingcblk);
      while j < pb.symb.Last(cblknum)
        invariant i <= j && fresh(heaps.Repr - old(heaps.Repr))
        invariant RowInv(cblknum, procnum, i, j, facingcblk, firstfacingblok, time0, m0)
      {
        ghost var repr := heaps.Repr;
        firstfacingblok := ApplyNext(cblknum, procnum, i, j, facingcblk, firstfacingblok, time0, m0);
        assert heaps.Repr - old(heaps.Repr) <= (heaps.Repr - repr) + (repr - old(heaps.Repr));
        j := j + 1;
      }
    }

    lemma RowOpens(cblknum: int, procnum: int, i: int, facingcblk: int)
      requires Frame() && ClocksOk() && |ownetab| == |pb.cand| && 0 <= procnum < pb.nbcores
      requires CountsFromPair(pb.symb, Done(ownetab), cblknum, i, i, blokctrb) && i < pb.symb.Last(cblknum)
      requires SumsOk(pb.symb, blokctrb, cblkctrb) && UpdatePair(pb.symb, cblknum, i, i)
      requires QueuesOk(pb.cand, cblkctrb, Done(ownetab), heaps.view, pb.nbcores)
      requires 0 <= i < |pb.symb.bloktab| && facingcblk == pb.symb.bloktab[i].fcblknm && 0 <= facingcblk < |time|
      requires HintOk(pb.symb, i, i, pb.symb.First(facingcblk)) && Facing(pb.symb, i, i) >= 0 && Fits(pb, Now())
      ensures RowInv(cblknum, procnum, i, i, facingcblk, pb.symb.First(facingcblk), time, Now())
    {
    }

    /** The pairs of block i before (i, j) are applied; facingcblk has been raised by then. */
    ghost predicate RowInv(cblknum: int, procnum: int, i: int, j: int, facingcblk: int, hint: int, time0: seq<real>,
                           m0: Marks)
      reads this, heaps, heaps.Repr
    {
      && Frame() && ClocksOk() && |ownetab| == |pb.cand| && 0 <= procnum < pb.nbcores
      && CountsFromPair(pb.symb, Done(ownetab), cblknum, i, j, blokctrb) && SumsOk(pb.symb, blokctrb, cblkctrb)
      && QueuesOk(pb.cand, cblkctrb, Done(ownetab), heaps.view, pb.nbcores)
      && (j < pb.symb.Last(cblknum) ==> HintOk(pb.symb, i, j, hint))
      && 0 <= i < |pb.symb.bloktab| && facingcblk == pb.symb.bloktab[i].fcblknm && 0 <= facingcblk < |time0|
      && UpdatePair(pb.symb, cblknum, i, i) && facingcblk < pb.symb.CblkNbr() && Facing(pb.symb, i, i) >= 0
      && RaisedOnce(time0, time, facingcblk, timer[procnum], j > i) && RowDone(pb, m0, Now(), cblknum, procnum, i, j)
    }

    method ApplyNext(cblknum: int, procnum: int, i: int, j: int, facingcblk: int, hint: int, ghost time0: seq<real>,
                     ghost m0: Marks)
      returns (next: int)
      requires RowInv(cblknum, procnum, i, j, facingcblk, hint, time0, m0) && i <= j < pb.symb.Last(cblknum)
      modifies `time, `blokctrb, `cblkctrb, heaps.Repr
      ensures RowInv(cblknum, procnum, i, j + 1, facingcblk, next, time0, m0) && fresh(heaps.Repr - old(heaps.Repr))
    {
      RaiseTwice(time0, facingcblk, timer[procnum]);
      ghost var m := Now();
      next := ApplyPair(cblknum, procnum, i, j, hint);
      RowGoesOn(pb, m0, m, Now(), cblknum, procnum, i, j, j + 1);
    }

    /** Simulates the task: the clock of its owner advances by the cost of its blocks, and
        each block raises the ready date of the task it contributes to. */
    method ComputeTask(tasknum: int)
      requires Frame() && ClocksOk() && |ownetab| == |pb.cand| && 0 <= tasknum < |pb.cand|
      requires 0 <= ownetab[tasknum] < pb.nbcores
      requires CountsFrom(pb.symb, Done(ownetab), tasknum, pb.symb.First(tasknum) + 1, blokctrb)
      requires SumsOk(pb.symb, blokctrb, cblkctrb) && Fits(pb, Now())
      requires QueuesOk(pb.cand, cblkctrb, Done(ownetab), heaps.view, pb.nbcores)
      modifies `timer, `time, `blokctrb, `cblkctrb, heaps.Repr
      ensures Frame() && ClocksOk() && fresh(heaps.Repr - old(heaps.Repr))
      ensures CountsOk(pb.symb, Done(ownetab), blokctrb)
      ensures SumsOk(pb.symb, blokctrb, cblkctrb)
      ensures QueuesOk(pb.cand, cblkctrb, Done(ownetab), heaps.view, pb.nbcores)
      ensures var p := ownetab[tasknum]; var st := old(timer)[p];
              && timer == old(timer)[p := st + TaskCost(pb, tasknum)]
              && time == RaisedTimes(pb, old(time), tasknum, st, pb.symb.Last(tasknum))
      ensures CblkOk(pb.symb, tasknum)
      ensures Now() == Rows(pb, old(Now()), tasknum, ownetab[tasknum], pb.symb.Last(tasknum))
    {
      var procnum := ownetab[tasknum];
      var fbloknum := pb.symb.First(tasknum);
      assert ValidColumn(pb.symb, tasknum);
      ghost var m0 := Now();
      ComputeDiagonal(tasknum, procnum, fbloknum);
      var i := fbloknum + 1;
      while i < pb.symb.Last(tasknum)
        invariant TaskInv(tasknum, procnum, i, m0) && fresh(heaps.Repr - old(heaps.Repr))
      {
        ghost var repr := heaps.Repr;
        ComputeNext(tasknum, procnum, i, m0);
        assert heaps.Repr - old(heaps.Repr) <= (heaps.Repr - repr) + (repr - old(heaps.Repr));
        i := i + 1;
      }
      CountsClose(pb.symb, Done(ownetab), tasknum, blokctrb);
    }

    /** The blocks of the task before i are computed, from the marks m0. */
    ghost predicate TaskInv(tasknum: int, procnum: int, i: int, m0: Marks)
      reads this, heaps, heaps.Repr
    {
      && Frame() && ClocksOk() && |ownetab| == |pb.cand| && 0 <= tasknum < |pb.cand|
      && ownetab[tasknum] == procnum && RowsDone(pb, m0, Now(), tasknum, procnum, i)
      && CountsFrom(pb.symb, Done(ownetab), tasknum, i, blokctrb) && SumsOk(pb.symb, blokctrb, cblkctrb)
      && QueuesOk(pb.cand, cblkctrb, Done(ownetab), heaps.view, pb.nbcores) && ValidColumn(pb.symb, tasknum)
      && timer == m0.timer[procnum := m0.timer[procnum] + SumCost(pb.blokcost, pb.symb.First(tasknum), i)]
      && time == RaisedTimes(pb, m0.time, tasknum, m0.timer[procnum], i)
    }

    method ComputeDiagonal(tasknum: int, procnum: int, fbloknum: int)
      requires Frame() && ClocksOk() && |ownetab| == |pb.cand| && 0 <= tasknum < |pb.cand|
      requires 0 <= ownetab[tasknum] == procnum < pb.nbcores && fbloknum == pb.symb.First(tasknum)
      requires CountsFrom(pb.symb, Done(ownetab), tasknum, fbloknum + 1, blokctrb)
      requires SumsOk(pb.symb, blokctrb, cblkctrb) && Fits(pb, Now())
      requires QueuesOk(pb.cand, cblkctrb, Done(ownetab), heaps.view, pb.nbcores)
      modifies `timer
      ensures TaskInv(tasknum, procnum, fbloknum + 1, old(Now()))
    {
      assert ValidColumn(pb.symb, tasknum);
      timer := timer[procnum := timer[procnum] + pb.blokcost[fbloknum]];
      ghost var next := fbloknum + 1;
      assert SumCost(pb.blokcost, fbloknum, next) == pb.blokcost[fbloknum];
    }

    method ComputeNext(tasknum: int, procnum: int, i: int, ghost m0: Marks)
      requires TaskInv(tasknum, procnum, i, m0) && i < pb.symb.Last(tasknum)
      modifies `timer, `time, `blokctrb, `cblkctrb, heaps.Repr
      ensures TaskInv(tasknum, procnum, i + 1, m0) && fresh(heaps.Repr - old(heaps.Repr))
    {
      ghost var m := Now();
      ApplyBlock(tasknum, procnum, i);
      RowsGoOn(pb, m0, m, Now(), tasknum, procnum, i, i + 1);
    }

    // ----- simu_pushToReadyHeap -----

    /** Moves future tasks to the ready heap. The date they are compared with is the fan-in
        date, which stays at zero: every future task is moved, so that only tasks that are due
        move exactly when all the keys of the future heap are due. */
    method PushToReadyHeap(procnum: int)
      requires Frame() && ClocksOk() && 0 <= procnum < pb.nbcores && |ownetab| == |pb.cand|
      requires QueuesOk(pb.cand, cblkctrb, Done(ownetab), heaps.view, pb.nbcores)
      modifies heaps.Repr
      ensures Frame() && fresh(heaps.Repr - old(heaps.Repr))
      ensures QueuesOk(pb.cand, cblkctrb, Done(ownetab), heaps.view, pb.nbcores)
      ensures heaps.view == MoveAll(pb, old(heaps.view), procnum)
      ensures MovesDueOnly(pb, time, timer, old(heaps.view), procnum)
              <==> KeysDue(old(heaps.view)[pb.nbcores + procnum], timer[procnum])
    {
      MovesDueOnlyWhen(pb, time, timer, heaps.view, procnum);
      MoveFuture(procnum);
    }

    method MoveFuture(procnum: int)
      requires Frame() && ClocksOk() && 0 <= procnum < pb.nbcores && |ownetab| == |pb.cand|
      requires QueuesOk(pb.cand, cblkctrb, Done(ownetab), heaps.view, pb.nbcores)
      modifies heaps.Repr
      ensures Frame() && fresh(heaps.Repr - old(heaps.Repr))
      ensures QueuesOk(pb.cand, cblkctrb, Done(ownetab), heaps.view, pb.nbcores)
      ensures heaps.view == MoveAll(pb, old(heaps.view), procnum)
    {
      var size := heaps.Size(pb.nbcores + procnum);
      while size > 0
        invariant Frame() && fresh(heaps.Repr - old(heaps.Repr)) && size == |heaps.view[pb.nbcores + procnum]|
        invariant QueuesOk(pb.cand, cblkctrb, Done(ownetab), heaps.view, pb.nbcores)
        invariant MoveAll(pb, heaps.view, procnum) == MoveAll(pb, old(heaps.view), procnum)
        decreases size
      {
        if timer[procnum] < FTGT_TIME {
          break;
        }
        size := MoveNext(procnum);
      }
      MoveAllDone(pb, heaps.view, procnum);
    }

    /** One turn of the loop; answers how many tasks are left. */
    method MoveNext(procnum: int) returns (size: int)
      requires Frame() && 0 <= procnum < pb.nbcores && |ownetab| == |pb.cand|
      requires QueuesOk(pb.cand, cblkctrb, Done(ownetab), heaps.view, pb.nbcores)
      requires heaps.view[pb.nbcores + procnum] != []
      modifies heaps.Repr
      ensures Frame() && fresh(heaps.Repr - old(heaps.Repr))
      ensures QueuesOk(pb.cand, cblkctrb, Done(ownetab), heaps.view, pb.nbcores)
      ensures MoveAll(pb, heaps.view, procnum) == MoveAll(pb, old(heaps.view), procnum)
      ensures size == |heaps.view[pb.nbcores + procnum]| == |old(heaps.view)[pb.nbcores + procnum]| - 1
    {
      MoveAllNext(pb, heaps.view, procnum);
      MoveToReady(procnum);
      size := heaps.Size(pb.nbcores + procnum);
    }

    method MoveToReady(procnum: int)
      requires Frame() && 0 <= procnum < pb.nbcores && |ownetab| == |pb.cand|
      requires QueuesOk(pb.cand, cblkctrb, Done(ownetab), heaps.view, pb.nbcores)
      requires heaps.view[pb.nbcores + procnum] != []
      modifies heaps.Repr
      ensures Frame() && fresh(heaps.Repr - old(heaps.Repr))
      ensures QueuesOk(pb.cand, cblkctrb, Done(ownetab), heaps.view, pb.nbcores)
      ensures heaps.view == MoveOne(pb, old(heaps.view), procnum)
    {
      ghost var before := heaps.view;
      var q := pb.nbcores + procnum;
      HeadInQueues(pb.cand, cblkctrb, Done(ownetab), before, pb.nbcores, procnum);
      MovedKeeps(pb, cblkctrb, Done(ownetab), time, before, procnum);
      var tasknum := heaps.Pop(q);
      heaps.Push(procnum, tasknum, pb.cand[tasknum].treelevel as real, pb.symb.First(tasknum) as real);
    }

    // ----- simuRun -----

    /** All the blocks of column block c get the single cluster as owner. */
    method SetOwner(c: int)
      requires ValidProblem(pb) && 0 <= c < |pb.cand| && |ownerclust| == |pb.symb.bloktab|
      modifies `ownerclust
      ensures OwnedUpTo(pb, old(ownerclust), ownerclust, c, pb.symb.Last(c))
    {
      assert ValidColumn(pb.symb, c);
      var j := pb.symb.First(c);
      while j < pb.symb.Last(c)
        invariant pb.symb.First(c) <= j <= pb.symb.Last(c)
        invariant OwnedUpTo(pb, old(ownerclust), ownerclust, c, j)
      {
        ownerclust := ownerclust[j := 0];
        j := j + 1;
      }
    }

    /** Gives column block c and its blocks to processor pr, with the next priority; the
        clock of the processor waits for the contributions of the task. */
    method MapTask(c: int, pr: int)
      requires ValidProblem(pb) && OwnersOk(pb, ownetab, ownerclust) && 0 <= c < |pb.cand| && ownetab[c] == -1
      requires Candidate(pb.cand, c, pr) && 0 <= pr < pb.nbcores
      requires |prionum| == |time| == |start| == |pb.cand| && |tasktab| == |timer| == pb.nbcores
      modifies `ownetab, `ownerclust, `prionum, `nextprio, `tasktab, `timer, `start
      ensures OwnersOk(pb, ownetab, ownerclust)
      ensures ownetab == old(ownetab)[c := pr]
      ensures prionum == old(prionum)[c := old(nextprio)] && nextprio == old(nextprio) + 1
      ensures tasktab == old(tasktab)[pr := old(tasktab)[pr] + [c]]
      ensures start == old(start)[c := MaxReal(old(timer)[pr], time[c])]
      ensures timer == old(timer)[pr := start[c]]
    {
      SetOwner(c);
      OwnersStep(pb, ownetab, old(ownerclust), ownerclust, c, pr);
      ownetab := ownetab[c := pr];
      prionum := prionum[c := nextprio];
      nextprio := nextprio + 1;
      tasktab := tasktab[pr := tasktab[pr] + [c]];
      if time[c] > timer[pr] {
        timer := timer[pr := time[c]];
      }
      start := start[c := timer[pr]];
    }

    /** Maps the chosen task and simulates it. The new state is stated exactly: the task
        starts when both its processor and its contributions are there. */
    method Execute(c: int, pr: int)
      requires Frame() && ClocksOk() && 0 <= c < |pb.cand| && 0 <= pr < pb.nbcores
      requires OwnersOk(pb, ownetab, ownerclust) && ownetab[c] == -1 && Candidate(pb.cand, c, pr)
      requires Whole(pb, StateNow())
      requires CountsFrom(pb.symb, Done(ownetab[c := pr]), c, pb.symb.First(c) + 1, blokctrb)
      requires SumsOk(pb.symb, blokctrb, cblkctrb)
      requires QueuesOk(pb.cand, cblkctrb, Done(ownetab[c := pr]), heaps.view, pb.nbcores)
      modifies `ownetab, `ownerclust, `prionum, `nextprio, `tasktab, `timer, `start, `time, `blokctrb, `cblkctrb,
               heaps.Repr
      ensures Frame() && ClocksOk() && fresh(heaps.Repr - old(heaps.Repr))
      ensures OwnersOk(pb, ownetab, ownerclust)
      ensures CountsOk(pb.symb, Done(ownetab), blokctrb) && SumsOk(pb.symb, blokctrb, cblkctrb)
      ensures QueuesOk(pb.cand, cblkctrb, Done(ownetab), heaps.view, pb.nbcores)
      ensures ownetab == old(ownetab)[c := pr] && nextprio == old(nextprio) + 1
      ensures prionum == old(prionum)[c := old(nextprio)]
      ensures tasktab == old(tasktab)[pr := old(tasktab)[pr] + [c]]
      ensures var st := MaxReal(old(timer)[pr], old(time)[c]);
              && start == old(start)[c := st]
              && timer == old(timer)[pr := st + TaskCost(pb, c)]
              && time == RaisedTimes(pb, old(time), c, st, pb.symb.Last(c))
      ensures Whole(pb, StateNow()) && CblkOk(pb.symb, c)
      ensures Runs(pb, old(TablesNow()), TablesNow(), c, pr, MaxReal(old(timer)[pr], old(time)[c]))
      ensures Now() == Rows(pb, Later(old(Now()), pr, MaxReal(old(timer)[pr], old(time)[c])), c, pr, pb.symb.Last(c))
    {
      ghost var st := MaxReal(timer[pr], time[c]);
      MapTask(c, pr);
      assert start[c] == st && timer[pr] == st && ownetab[c] == pr;
      UpdateTwice(old(timer), pr, st, st + TaskCost(pb, c));
      assert Now() == Later(old(Now()), pr, st);
      ComputeTask(c);
    }

    /** The same in the terms of a turn of the run, after a search from state s. */
    method ExecuteChosen(c: int, pr: int, ghost s: State)
      requires Frame() && ClocksOk() && SearchGave(pb, eagerPop, s, StateNow(), c, pr)
      requires OwnersOk(pb, ownetab, ownerclust) && ownetab[c] == -1 && Candidate(pb.cand, c, pr)
      requires CountsFrom(pb.symb, Done(ownetab[c := pr]), c, pb.symb.First(c) + 1, blokctrb)
      requires SumsOk(pb.symb, blokctrb, cblkctrb)
      requires QueuesOk(pb.cand, cblkctrb, Done(ownetab[c := pr]), heaps.view, pb.nbcores)
      modifies `ownetab, `ownerclust, `prionum, `nextprio, `tasktab, `timer, `start, `time, `blokctrb, `cblkctrb,
               heaps.Repr
      ensures Frame() && ClocksOk() && fresh(heaps.Repr - old(heaps.Repr))
      ensures OwnersOk(pb, ownetab, ownerclust)
      ensures CountsOk(pb.symb, Done(ownetab), blokctrb) && SumsOk(pb.symb, blokctrb, cblkctrb)
      ensures QueuesOk(pb.cand, cblkctrb, Done(ownetab), heaps.view, pb.nbcores)
      ensures Executes(pb, eagerPop, s, StateNow(), c, pr)
    {
      ghost var s0 := StateNow();
      Execute(c, pr);
      TaskExecutes(pb, eagerPop, s, s0, StateNow(), c, pr);
    }

    /** Body of the main loop, for the couple chosen by the search. */
    method RunTask(c: int, pr: int, ghost before: seq<seq<Item>>, ghost s: State)
      requires Frame() && ClocksOk() && SearchGave(pb, eagerPop, s, StateNow(), c, pr) && before == s.view
      requires OwnersOk(pb, ownetab, ownerclust)
      requires CountsOk(pb.symb, Done(ownetab), blokctrb) && SumsOk(pb.symb, blokctrb, cblkctrb)
      requires QueuesOk(pb.cand, cblkctrb, Done(ownetab), before, pb.nbcores)
      requires HistoryHolds(pb, TablesNow())
      requires Taken(pb, before, heaps.view, ownetab, c, pr)
      requires 0 <= c < |pb.cand| && ownetab[c] == -1 && 0 <= pr < pb.nbcores && c in Held(before, pb.nbcores, pr)
      modifies `ownetab, `ownerclust, `prionum, `nextprio, `tasktab, `timer, `start, `time, `blokctrb, `cblkctrb,
               heaps.Repr
      ensures Inv() && fresh(heaps.Repr - old(heaps.Repr))
      ensures ownetab == old(ownetab)[c := pr]
      ensures old(nextprio) < nextprio == old(nextprio) + 1 <= |pb.cand|
      ensures Executes(pb, eagerPop, s, StateNow(), c, pr)
    {
      ChosenCanStart(pb, ownetab, blokctrb, cblkctrb, before, heaps.view, c, pr);
      ExecuteChosen(c, pr, s);
      HistoryGoesOn(pb, eagerPop, s, StateNow(), c, pr);
    }

    /** simuRun on freshly built tables: it goes through the turns of a run, until no task is left,
        and ends with a complete schedule. */
    method Run() returns (ghost run: Turns.Run)
      requires Frame() && Initial()
      modifies this, heaps.Repr
      ensures Complete(pb, ownetab, prionum, tasktab, time, start, timer, predtime)
      ensures OwnersOk(pb, ownetab, ownerclust)
      ensures RunEnds(pb, eagerPop, run, TablesNow())
    {
      Start();
      run := MainLoop();
      MaximumTime();
    }

    /** The counting pass and the tasks that are ready from the start. */
    method Start()
      requires Frame() && Initial()
      modifies `blokctrb, `cblkctrb, heaps.Repr
      ensures Inv() && fresh(heaps.Repr - old(heaps.Repr)) && Starts(pb, StateNow()) && nextprio == 0
    {
      OwnersStart(pb);
      HistoryStart(pb);
      ComputeBlockCtrbNbr();
      QueuesStart(pb, cblkctrb, heaps.view);
      assert heaps.view == seq(2 * pb.nbcores, _ => []);
      PushReadyTasks();
      QueuesFull(pb, cblkctrb, heaps.view, Done(ownetab));
    }

    method PushReadyTasks()
      requires Frame() && ClocksOk() && QueuesFilled(pb, cblkctrb, heaps.view, 0) && Fits(pb, Now())
      modifies heaps.Repr
      ensures Frame() && fresh(heaps.Repr - old(heaps.Repr)) && Fits(pb, Now())
      ensures QueuesFilled(pb, cblkctrb, heaps.view, |cblkctrb|)
      ensures Now() == ReadyPushed(pb, old(Now()), |pb.cand|)
    {
      ghost var m0 := Now();
      for i := 0 to |pb.cand|
        invariant Filling(m0, i) && fresh(heaps.Repr - old(heaps.Repr))
      {
        PushNext(i, m0);
      }
    }

    /** The ready column blocks before i are in the heaps. */
    ghost predicate Filling(m0: Marks, i: int)
      reads this, heaps, heaps.Repr
    {
      Frame() && ClocksOk() && QueuesFilled(pb, cblkctrb, heaps.view, i) && PushedSoFar(pb, m0, Now(), i)
    }

    method PushNext(i: int, ghost m0: Marks)
      requires Filling(m0, i) && i < |pb.cand|
      modifies heaps.Repr
      ensures Filling(m0, i + 1) && fresh(heaps.Repr - old(heaps.Repr))
    {
      ghost var m := Now();
      PushReadyTask(i);
      PushedNext(pb, m0, m, Now(), i, i + 1);
    }

    /** One column block without contributions. */
    method PushReadyTask(i: int)
      requires Frame() && ClocksOk() && 0 <= i < |pb.cand| && QueuesFilled(pb, cblkctrb, heaps.view, i)
      requires Fits(pb, Now())
      modifies heaps.Repr
      ensures Frame() && fresh(heaps.Repr - old(heaps.Repr)) && QueuesFilled(pb, cblkctrb, heaps.view, i + 1)
      ensures Now() == PutWhenReady(pb, old(Now()), i)
    {
      ghost var before := heaps.view;
      if cblkctrb[i] == 0 {
        PutInAllReadyQueues(i);
      }
      FillReady(pb, timer, time, cblkctrb, before, heaps.view, i);
    }

    /** Maps tasks until no heap has one left: then every column block is mapped. */
    method MainLoop() returns (ghost run: Turns.Run)
      requires Inv() && Starts(pb, StateNow()) && nextprio == 0
      modifies `ownetab, `ownerclust, `prionum, `nextprio, `tasktab, `timer, `start, `time, `blokctrb, `cblkctrb,
               heaps.Repr
      ensures Frame() && ClocksOk() && OwnersOk(pb, ownetab, ownerclust)
      ensures HistoryOk(pb, ownetab, prionum, nextprio, tasktab, time, start, timer)
      ensures (forall c :: 0 <= c < |ownetab| ==> ownetab[c] >= 0) && nextprio == |pb.cand|
      ensures RunEnds(pb, eagerPop, run, TablesNow())
    {
      run := Turns.Run([StateNow()], []);
      RunStarts(pb, eagerPop, StateNow());
      while true
        invariant Inv() && fresh(heaps.Repr - old(heaps.Repr))
        invariant Running(run)
        decreases |pb.cand| - nextprio
      {
        var done;
        ghost var repr := heaps.Repr;
        done, run := DoTurn(run);
        assert heaps.Repr - old(heaps.Repr) <= (heaps.Repr - repr) + (repr - old(heaps.Repr));
        if done {
          return;
        }
      }
    }

    ghost predicate Running(run: Turns.Run)
      reads this, heaps
    {
      RunOk(pb, eagerPop, run, StateNow()) && |run.turns| == nextprio
    }

    /** The body of the loop; answers whether no task is left. */
    method DoTurn(ghost was: Turns.Run) returns (done: bool, ghost run: Turns.Run)
      requires Inv() && Running(was)
      modifies `ownetab, `ownerclust, `prionum, `nextprio, `tasktab, `timer, `start, `time, `blokctrb, `cblkctrb,
               heaps.Repr
      ensures fresh(heaps.Repr - old(heaps.Repr))
      ensures !done ==> Inv() && Running(run) && old(nextprio) < nextprio <= |pb.cand|
      ensures done ==>
                && Frame() && ClocksOk() && OwnersOk(pb, ownetab, ownerclust)
                && HistoryOk(pb, ownetab, prionum, nextprio, tasktab, time, start, timer)
                && (forall c :: 0 <= c < |ownetab| ==> ownetab[c] >= 0) && nextprio == |pb.cand|
                && RunEnds(pb, eagerPop, run, TablesNow())
    {
      run := was;
      ghost var s := StateNow();
      var task, pr := MapNext();
      done := task == -1;
      if done {
        RunStops(pb, eagerPop, was, s, TablesNow());
      } else {
        ghost var repr := heaps.Repr;
        run := NextTurn(task, pr, s, was);
        assert heaps.Repr - old(heaps.Repr) <= (heaps.Repr - repr) + (repr - old(heaps.Repr));
      }
    }

    /** The end of a turn: future tasks of the processor move. */
    method NextTurn(task: int, pr: int, ghost s: State, ghost was: Turns.Run) returns (ghost run: Turns.Run)
      requires Inv() && 0 <= pr < pb.nbcores && RunOk(pb, eagerPop, was, s)
      requires Executes(pb, eagerPop, s, StateNow(), task, pr)
      modifies heaps.Repr
      ensures Inv() && fresh(heaps.Repr - old(heaps.Repr))
      ensures RunOk(pb, eagerPop, run, StateNow()) && |run.turns| == |was.turns| + 1
    {
      ghost var ran := StateNow();
      PushToReadyHeap(pr);
      assert StateNow() == Viewing(ran, MoveAll(pb, ran.view, pr));
      assert TurnOk(pb, eagerPop, s, Turn(task, pr, ran), StateNow());
      RunGoesOn(pb, eagerPop, was, s, Turn(task, pr, ran), StateNow());
      run := Longer(was, Turn(task, pr, ran), StateNow());
    }

    lemma NoneLeft(before: seq<seq<Item>>)
      requires ValidProblem(pb) && CountsOk(pb.symb, Done(ownetab), blokctrb) && SumsOk(pb.symb, blokctrb, cblkctrb)
      requires QueuesOk(pb.cand, cblkctrb, Done(ownetab), before, pb.nbcores)
      requires Taken(pb, before, heaps.view, ownetab, -1, -1)
      requires HistoryOk(pb, ownetab, prionum, nextprio, tasktab, time, start, timer)
      requires forall p :: 0 <= p < pb.nbcores ==> HeadTask(heaps.view, pb.nbcores, p) == -1
      ensures (forall c :: 0 <= c < |ownetab| ==> ownetab[c] >= 0) && nextprio == |pb.cand|
    {
      NothingLeft(pb, blokctrb, cblkctrb, before, heaps.view, ownetab);
      CountDoneAll(Done(ownetab), |ownetab|);
    }

    /** Chooses a task and runs it, or finds that all of them are mapped. */
    method MapNext() returns (task: int, pr: int)
      requires Inv()
      modifies `ownetab, `ownerclust, `prionum, `nextprio, `tasktab, `timer, `start, `time, `blokctrb, `cblkctrb,
               heaps.Repr
      ensures fresh(heaps.Repr - old(heaps.Repr))
      ensures task == -1 ==>
                && Frame() && ClocksOk() && OwnersOk(pb, ownetab, ownerclust)
                && HistoryOk(pb, ownetab, prionum, nextprio, tasktab, time, start, timer)
                && (forall c :: 0 <= c < |ownetab| ==> ownetab[c] >= 0) && nextprio == |pb.cand|
                && Finished(pb, old(StateNow())) && TablesNow() == old(TablesNow())
      ensures task != -1 ==> Inv() && 0 <= pr < pb.nbcores && old(nextprio) < nextprio == old(nextprio) + 1 <= |pb.cand|
                             && Executes(pb, eagerPop, old(StateNow()), StateNow(), task, pr)
    {
      ghost var s := StateNow();
      ghost var before := heaps.view;
      task, pr := GetNextTaskNextProc();
      if task == -1 {
        NoneLeft(before);
      } else {
        assert OwnerOk(pb, ownetab, task);
        RunTask(task, pr, before, s);
      }
    }

    method MaximumTime()
      requires ClocksOk() && ValidProblem(pb)
      modifies `predtime
      ensures forall p :: 0 <= p < pb.nbcores ==> timer[p] <= predtime
      ensures predtime == 0.0 || exists p :: 0 <= p < pb.nbcores && timer[p] == predtime
    {
      var maxtime := 0.0;
      for pr := 0 to pb.nbcores
        invariant forall p :: 0 <= p < pr ==> timer[p] <= maxtime
        invariant maxtime == 0.0 || exists p :: 0 <= p < pr && timer[p] == maxtime
      {
        if timer[pr] > maxtime {
          maxtime := timer[pr];
        }
      }
      predtime := maxtime;
    }
  }
}

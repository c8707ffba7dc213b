/** Bounds on the predicted factorization time of a complete simulation. */
module Makespan {
  import opened Queue
  import opened SymbolMatrix
  import opened Contributions
  import opened Schedule

  // ----- Work -----

  ghost function DoneCost(pb: Problem, done: seq<bool>, k: int): real
    requires ValidProblem(pb) && |done| == |pb.cand| && 0 <= k <= |done|
    decreases k
  {
    if k == 0 then 0.0 else DoneCost(pb, done, k - 1) + if done[k - 1] then TaskCost(pb, k - 1) else 0.0
  }

  ghost predicate AllTasks(pb: Problem, tasktab: seq<seq<int>>) {
    forall p :: 0 <= p < |tasktab| ==> Tasks(pb, tasktab[p])
  }

  ghost function ListsCost(pb: Problem, tasktab: seq<seq<int>>, k: int): real
    requires ValidProblem(pb) && AllTasks(pb, tasktab) && 0 <= k <= |tasktab|
    decreases k
  {
    if k == 0 then 0.0 else ListsCost(pb, tasktab, k - 1) + ListCost(pb, tasktab[k - 1])
  }

  /** The lists of the processors carry exactly the work done. */
  ghost predicate WorkOk(pb: Problem, done: seq<bool>, tasktab: seq<seq<int>>) {
    && ValidProblem(pb) && |done| == |pb.cand| && AllTasks(pb, tasktab)
    && ListsCost(pb, tasktab, |tasktab|) == DoneCost(pb, done, |done|)
  }

  lemma {:induction false} DoneCostStep(pb: Problem, done: seq<bool>, k: int, c: int)
    requires ValidProblem(pb) && |done| == |pb.cand| && 0 <= k <= |done| && 0 <= c < |done| && !done[c]
    ensures DoneCost(pb, done[c := true], k) == DoneCost(pb, done, k) + if c < k then TaskCost(pb, c) else 0.0
    decreases k
  {
    if k > 0 { DoneCostStep(pb, done, k - 1, c); }
  }

  lemma {:induction false} ListsCostStep(pb: Problem, tasktab: seq<seq<int>>, k: int, pr: int, c: int)
    requires ValidProblem(pb) && AllTasks(pb, tasktab) && 0 <= k <= |tasktab|
    requires 0 <= pr < |tasktab| && 0 <= c < |pb.cand|
    ensures AllTasks(pb, tasktab[pr := tasktab[pr] + [c]])
    ensures ListsCost(pb, tasktab[pr := tasktab[pr] + [c]], k)
            == ListsCost(pb, tasktab, k) + if pr < k then TaskCost(pb, c) else 0.0
    decreases k
  {
    assert (tasktab[pr] + [c])[..|tasktab[pr]|] == tasktab[pr];
    if k > 0 { ListsCostStep(pb, tasktab, k - 1, pr, c); }
  }

  lemma WorkStep(pb: Problem, done: seq<bool>, tasktab: seq<seq<int>>, pr: int, c: int)
    requires WorkOk(pb, done, tasktab) && 0 <= pr < |tasktab| && 0 <= c < |done| && !done[c]
    ensures WorkOk(pb, done[c := true], tasktab[pr := tasktab[pr] + [c]])
  {
    DoneCostStep(pb, done, |done|, c);
    ListsCostStep(pb, tasktab, |tasktab|, pr, c);
  }

  lemma {:induction false} NoWork(pb: Problem, done: seq<bool>, k: int)
    requires ValidProblem(pb) && |done| == |pb.cand| && 0 <= k <= |done|
    requires forall c :: 0 <= c < |done| ==> !done[c]
    ensures DoneCost(pb, done, k) == 0.0
    decreases k
  {
    if k > 0 { NoWork(pb, done, k - 1); }
  }

  lemma {:induction false} NoLists(pb: Problem, tasktab: seq<seq<int>>, k: int)
    requires ValidProblem(pb) && 0 <= k <= |tasktab| && forall p :: 0 <= p < |tasktab| ==> tasktab[p] == []
    ensures ListsCost(pb, tasktab, k) == 0.0
    decreases k
  {
    if k > 0 { NoLists(pb, tasktab, k - 1); }
  }

  /** When everything is done, the work done is the cost of all the blocks. */
  lemma {:induction false} AllWorkIsTotalCost(pb: Problem, done: seq<bool>, k: int)
    requires ValidProblem(pb) && |done| == |pb.cand| && 0 <= k <= |done|
    requires forall c :: 0 <= c < |done| ==> done[c]
    ensures 0 <= pb.symb.cblktab[k].bloknum <= |pb.blokcost|
    ensures DoneCost(pb, done, k) == SumCost(pb.blokcost, 0, pb.symb.cblktab[k].bloknum)
    decreases k
  {
    if k > 0 {
      AllWorkIsTotalCost(pb, done, k - 1);
      assert ValidColumn(pb.symb, k - 1);
      SumCostSplit(pb.blokcost, 0, pb.symb.First(k - 1), pb.symb.Last(k - 1));
    }
  }

  function Scaled(k: nat, max: real): real {
    if k == 0 then 0.0 else Scaled(k - 1, max) + max
  }

  lemma OneMore(x: real, max: real)
    ensures (x + 1.0) * max == x * max + max
  {
  }

  lemma {:induction false} ScaledIsProduct(k: nat, max: real)
    ensures Scaled(k, max) == k as real * max
  {
    if k > 0 {
      ScaledIsProduct(k - 1, max);
      OneMore((k - 1) as real, max);
    }
  }

  lemma {:induction false} ListsBelow(pb: Problem, tasktab: seq<seq<int>>, k: nat, max: real)
    requires ValidProblem(pb) && AllTasks(pb, tasktab) && k <= |tasktab|
    requires forall p :: 0 <= p < |tasktab| ==> ListCost(pb, tasktab[p]) <= max
    ensures ListsCost(pb, tasktab, k) <= Scaled(k, max)
    decreases k
  {
    if k > 0 { ListsBelow(pb, tasktab, k - 1, max); }
  }

  lemma TotalBound(pb: Problem, done: seq<bool>, tasktab: seq<seq<int>>, max: real)
    requires WorkOk(pb, done, tasktab) && |tasktab| == pb.nbcores
    requires forall c :: 0 <= c < |done| ==> done[c]
    requires forall p :: 0 <= p < |tasktab| ==> ListCost(pb, tasktab[p]) <= max
    ensures SumCost(pb.blokcost, 0, |pb.blokcost|) <= pb.nbcores as real * max
  {
    AllWorkIsTotalCost(pb, done, |done|);
    ListsBelow(pb, tasktab, |tasktab|, max);
    ScaledIsProduct(pb.nbcores, max);
  }

  // ----- The history of a run -----

  /** Order, dates and distribution of the tasks run so far. */
  ghost predicate HistoryOk(pb: Problem, ownetab: seq<int>, prionum: seq<int>, next: int, tasktab: seq<seq<int>>,
                            time: seq<real>, start: seq<real>, timer: seq<real>) {
    && ValidProblem(pb) && |ownetab| == |pb.cand|
    && TopoOk(pb.symb, Done(ownetab), prionum, next)
    && TimesOk(pb, Done(ownetab), time, start)
    && ProcsOk(pb, ownetab, prionum, start, tasktab, timer)
    && WorkOk(pb, Done(ownetab), tasktab)
  }

  /** Running the ready task c on processor pr, from the date at which both are available. */
  lemma HistoryStep(pb: Problem, ownetab: seq<int>, prionum: seq<int>, next: int, tasktab: seq<seq<int>>,
                    time: seq<real>, start: seq<real>, timer: seq<real>, c: int, pr: int, st: real)
    requires HistoryOk(pb, ownetab, prionum, next, tasktab, time, start, timer)
    requires 0 <= c < |ownetab| && ownetab[c] == -1 && 0 <= pr < pb.nbcores
    requires st >= timer[pr] && st >= time[c]
    requires forall i, j :: Edge(pb.symb, i, j, c) ==> Done(ownetab)[i]
    ensures pb.symb.First(c) < pb.symb.Last(c) && next < |pb.cand|
    ensures HistoryOk(pb, ownetab[c := pr], prionum[c := next], next + 1, tasktab[pr := tasktab[pr] + [c]],
                      RaisedTimes(pb, time, c, st, pb.symb.Last(c)), start[c := st], timer[pr := st + TaskCost(pb, c)])
  {
    var done := Done(ownetab);
    assert Done(ownetab[c := pr]) == done[c := true];
    CountDoneUpdate(done, |done|, c);
    TopoStep(pb.symb, done, prionum, next, c);
    TimesStep(pb, done, time, start, c, st);
    WorkStep(pb, done, tasktab, pr, c);
    forall t | 0 <= t < |ownetab| && ownetab[t] >= 0 ensures prionum[t] < next {
      assert PrioOk(done, prionum, next, t);
    }
    ProcsStep(pb, ownetab, prionum, start, tasktab, timer, c, pr, next, st);
  }

  /** The chosen task is ready, and once it is mapped its own updates are the ones left. */
  lemma ChosenCanStart(pb: Problem, ownetab: seq<int>, blokctrb: seq<int>, cblkctrb: seq<int>,
                       before: seq<seq<Item>>, view: seq<seq<Item>>, c: int, pr: int)
    requires ValidProblem(pb) && |ownetab| == |pb.cand|
    requires CountsOk(pb.symb, Done(ownetab), blokctrb) && SumsOk(pb.symb, blokctrb, cblkctrb)
    requires QueuesOk(pb.cand, cblkctrb, Done(ownetab), before, pb.nbcores)
    requires Taken(pb, before, view, ownetab, c, pr)
    requires 0 <= c < |ownetab| && ownetab[c] == -1 && 0 <= pr < pb.nbcores && c in Held(before, pb.nbcores, pr)
    ensures Candidate(pb.cand, c, pr)
    ensures forall i, j :: Edge(pb.symb, i, j, c) ==> Done(ownetab)[i]
    ensures CountsFrom(pb.symb, Done(ownetab[c := pr]), c, pb.symb.First(c) + 1, blokctrb)
    ensures QueuesOk(pb.cand, cblkctrb, Done(ownetab[c := pr]), view, pb.nbcores)
  {
    ChosenIsReady(pb, cblkctrb, Done(ownetab), before, c, pr);
    ReadyMeans(pb.symb, Done(ownetab), blokctrb, cblkctrb, c);
    StartCounts(pb.symb, Done(ownetab), c, blokctrb);
    assert Done(ownetab[c := pr]) == Done(ownetab)[c := true];
    QueuesAfterChoice(pb, cblkctrb, before, view, ownetab, c, pr);
  }

  lemma HistoryStart(pb: Problem)
    requires ValidProblem(pb)
    ensures HistoryOk(pb, seq(|pb.cand|, _ => -1), seq(|pb.cand|, _ => -1), 0, seq(pb.nbcores, _ => []),
                      seq(|pb.cand|, _ => 0.0), seq(|pb.cand|, _ => 0.0), seq(pb.nbcores, _ => 0.0))
  {
    var none: seq<int>, zero: seq<real> := seq(|pb.cand|, _ => -1), seq(|pb.cand|, _ => 0.0);
    var lists: seq<seq<int>>, clocks: seq<real> := seq(pb.nbcores, _ => []), seq(pb.nbcores, _ => 0.0);
    NothingRan(pb, none, zero);
    NothingListed(pb, none, zero, lists, clocks);
  }

  lemma NothingRan(pb: Problem, none: seq<int>, zero: seq<real>)
    requires ValidProblem(pb) && |none| == |zero| == |pb.cand|
    requires forall c :: 0 <= c < |none| ==> none[c] == -1 && zero[c] == 0.0
    ensures TopoOk(pb.symb, Done(none), none, 0) && TimesOk(pb, Done(none), zero, zero)
  {
    CountDoneNone(Done(none), |pb.cand|);
    forall c | 0 <= c < |pb.cand| ensures ReadyDate(pb, Done(none), zero, zero, c) { }
  }

  lemma NothingListed(pb: Problem, none: seq<int>, zero: seq<real>, lists: seq<seq<int>>, clocks: seq<real>)
    requires ValidProblem(pb) && |none| == |zero| == |pb.cand| && |lists| == |clocks| == pb.nbcores
    requires forall c :: 0 <= c < |none| ==> none[c] == -1 && zero[c] == 0.0
    requires forall p :: 0 <= p < pb.nbcores ==> lists[p] == [] && clocks[p] == 0.0
    ensures ProcsOk(pb, none, none, zero, lists, clocks) && WorkOk(pb, Done(none), lists)
  {
    NoWork(pb, Done(none), |pb.cand|);
    NoLists(pb, lists, pb.nbcores);
    forall p | 0 <= p < pb.nbcores ensures ProcOk(pb, none, none, zero, p, lists[p], clocks[p]) { }
  }

  // ----- Complete schedules -----

  /** Everything simuRun establishes about its tables. */
  ghost predicate Complete(pb: Problem, ownetab: seq<int>, prionum: seq<int>, tasktab: seq<seq<int>>,
                           time: seq<real>, start: seq<real>, timer: seq<real>, predtime: real) {
    && ValidProblem(pb) && |ownetab| == |pb.cand|
    && (forall c :: 0 <= c < |ownetab| ==> ownetab[c] >= 0 && OwnerOk(pb, ownetab, c))
    && HistoryOk(pb, ownetab, prionum, |pb.cand|, tasktab, time, start, timer)
    && (forall p :: 0 <= p < pb.nbcores ==> timer[p] <= predtime)
    && (predtime == 0.0 || exists p :: 0 <= p < pb.nbcores && timer[p] == predtime)
  }

  /** The predicted time is at least the total cost divided by the number of cores. */
  lemma WorkBound(pb: Problem, ownetab: seq<int>, prionum: seq<int>, tasktab: seq<seq<int>>,
                  time: seq<real>, start: seq<real>, timer: seq<real>, predtime: real)
    requires Complete(pb, ownetab, prionum, tasktab, time, start, timer, predtime)
    ensures SumCost(pb.blokcost, 0, |pb.blokcost|) <= pb.nbcores as real * predtime
  {
    forall p | 0 <= p < |tasktab| ensures ListCost(pb, tasktab[p]) <= predtime {
      assert ProcOk(pb, ownetab, prionum, start, p, tasktab[p], timer[p]);
    }
    TotalBound(pb, Done(ownetab), tasktab, predtime);
  }

  /** The end of every task is at most the predicted time. */
  lemma EndBelow(pb: Problem, ownetab: seq<int>, prionum: seq<int>, tasktab: seq<seq<int>>,
                 time: seq<real>, start: seq<real>, timer: seq<real>, predtime: real, c: int)
    requires Complete(pb, ownetab, prionum, tasktab, time, start, timer, predtime) && 0 <= c < |ownetab|
    ensures start[c] + TaskCost(pb, c) <= predtime
  {
    var p := ownetab[c];
    assert OwnerOk(pb, ownetab, c);
    assert ProcOk(pb, ownetab, prionum, start, p, tasktab[p], timer[p]);
    assert c in multiset(tasktab[p]);
    assert c in tasktab[p];
  }

  /** A dependency chain that starts at column block c: each block of the path belongs to
      the column block reached so far and faces the next one. */
  ghost predicate Chain(s: Symbol, c: int, path: seq<int>)
    decreases |path|
  {
    && Valid(s) && 0 <= c < s.CblkNbr()
    && (path != [] ==> exists d :: Edge(s, c, path[0], d) && Chain(s, d, path[1..]))
  }

  /** Cost of the chain: up to each facing block, and the whole last task. */
  ghost function ChainCost(pb: Problem, c: int, path: seq<int>): real
    requires ValidProblem(pb) && Chain(pb.symb, c, path)
    decreases |path|
  {
    if path == [] then TaskCost(pb, c)
    else
      var d :| Edge(pb.symb, c, path[0], d) && Chain(pb.symb, d, path[1..]);
      Delay(pb, c, path[0]) + ChainCost(pb, d, path[1..])
  }

  /** The predicted time is at least the cost of every dependency chain. */
  lemma {:induction false} ChainBound(pb: Problem, ownetab: seq<int>, prionum: seq<int>, tasktab: seq<seq<int>>,
                                      time: seq<real>, start: seq<real>, timer: seq<real>, predtime: real,
                                      c: int, path: seq<int>)
    requires Complete(pb, ownetab, prionum, tasktab, time, start, timer, predtime)
    requires Chain(pb.symb, c, path)
    ensures 0.0 <= start[c] && start[c] + ChainCost(pb, c, path) <= predtime
    decreases |path|
  {
    assert ReadyDate(pb, Done(ownetab), time, start, c);
    assert StartOk(Done(ownetab), time, start, c);
    if path == [] {
      EndBelow(pb, ownetab, prionum, tasktab, time, start, timer, predtime, c);
    } else {
      var d :| Edge(pb.symb, c, path[0], d) && Chain(pb.symb, d, path[1..])
               && ChainCost(pb, c, path) == Delay(pb, c, path[0]) + ChainCost(pb, d, path[1..]);
      assert ReadyDate(pb, Done(ownetab), time, start, d);
      assert StartOk(Done(ownetab), time, start, d);
      ChainBound(pb, ownetab, prionum, tasktab, time, start, timer, predtime, d, path[1..]);
    }
  }
}

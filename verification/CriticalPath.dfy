/** The critical path that blend/cand.c computes bounds the time that blend/simu_run.c predicts. */
module CriticalPath {
  import opened SymbolMatrix
  import opened ElimTree
  import opened Contributions
  import opened Candidates
  import opened Schedule
  import opened Makespan

  /** The tree of the structure that was simulated. */
  ghost predicate TreeOf(t: Tree, pb: Problem) {
    ValidProblem(pb) && ValidTree(t) && Fathers(t.nodetab) == FathersOf(pb.symb)
  }

  lemma TreeSize(t: Tree, pb: Problem)
    requires TreeOf(t, pb)
    ensures t.N() == pb.symb.CblkNbr() == |pb.cand|
  {
    assert |Fathers(t.nodetab)| == t.N();
  }

  lemma LeadAtMostTask(pb: Problem, d: int)
    requires ValidProblem(pb) && 0 <= d < |pb.cand|
    ensures 0.0 <= Lead(pb.symb, pb.blokcost, d) <= TaskCost(pb, d)
  {
    assert ValidColumn(pb.symb, d);
    var first := pb.symb.First(d);
    var e, last := LeadEnd(pb.symb, d, first + 1), pb.symb.Last(d);
    SumCostSplit(pb.blokcost, first, e, last);
    SumCostNonNegative(pb.blokcost, first, e);
    SumCostNonNegative(pb.blokcost, e, last);
  }

  /** A node with a father reaches it once its lead is over. */
  lemma LeadReachesFather(pb: Problem, ownetab: seq<int>, prionum: seq<int>, tasktab: seq<seq<int>>,
                          time: seq<real>, start: seq<real>, timer: seq<real>, predtime: real, t: Tree, d: int)
    requires Complete(pb, ownetab, prionum, tasktab, time, start, timer, predtime) && TreeOf(t, pb)
    requires 0 <= d < t.N() && t.Father(d) != -1
    ensures 0 <= t.Father(d) < |start| && 0 <= d < |start|
    ensures start[d] + Lead(pb.symb, pb.blokcost, d) <= start[t.Father(d)]
  {
    TreeSize(t, pb);
    var s := pb.symb;
    assert ValidColumn(s, d) && Fathers(t.nodetab)[d] == t.Father(d);
    var first, f := s.First(d) + 1, t.Father(d);
    assert s.Last(d) > first && s.bloktab[first].fcblknm == f;
    FacesLater(s, d, first);
    var j := LeadEnd(s, d, first) - 1;
    assert LeadEnd(s, d, first) == LeadEnd(s, d, first + 1);
    assert Edge(s, d, j, f);
    assert ReadyDate(pb, Done(ownetab), time, start, f);
    assert StartOk(Done(ownetab), time, start, f);
    assert Delay(pb, d, j) == Lead(s, pb.blokcost, d);
  }

  /** No task starts before the longest path of leads below it is over. */
  lemma {:induction false} PathBeforeStart(pb: Problem, ownetab: seq<int>, prionum: seq<int>, tasktab: seq<seq<int>>,
                                           time: seq<real>, start: seq<real>, timer: seq<real>, predtime: real, t: Tree,
                                           d: int, i: int)
    requires Complete(pb, ownetab, prionum, tasktab, time, start, timer, predtime) && TreeOf(t, pb)
    requires 0 <= d < t.N() == |start| && pb.symb.CblkNbr() == t.N() && 0 <= i <= t.At(d).sonsnbr
    ensures SonsPath(t, pb.symb, pb.blokcost, d, i) <= start[d]
    decreases Below(t, d), i
  {
    if i == 0 {
      assert ReadyDate(pb, Done(ownetab), time, start, d);
      assert StartOk(Done(ownetab), time, start, d);
    } else {
      PathBeforeStart(pb, ownetab, prionum, tasktab, time, start, timer, predtime, t, d, i - 1);
      assert SlicesOk(t, d) && EntryOk(t, d, i - 1);
      var son := SonI(t, d, i - 1);
      assert t.Rises(son) && SlicesOk(t, son);
      PathBeforeStart(pb, ownetab, prionum, tasktab, time, start, timer, predtime, t, son, t.At(son).sonsnbr);
      LeadReachesFather(pb, ownetab, prionum, tasktab, time, start, timer, predtime, t, son);
    }
  }

  /** The path below the root, over its first i sons. */
  lemma {:induction false} TopPathBelow(pb: Problem, ownetab: seq<int>, prionum: seq<int>, tasktab: seq<seq<int>>,
                                        time: seq<real>, start: seq<real>, timer: seq<real>, predtime: real, t: Tree,
                                        i: int)
    requires Complete(pb, ownetab, prionum, tasktab, time, start, timer, predtime) && TreeOf(t, pb)
    requires |start| == t.N() && pb.symb.CblkNbr() == t.N() && 0 <= i <= t.At(-1).sonsnbr
    ensures SonsPath(t, pb.symb, pb.blokcost, -1, i) <= if i == 0 then 0.0 else predtime
    ensures i > 0 ==> 0.0 <= predtime
    decreases i
  {
    if i > 0 {
      TopPathBelow(pb, ownetab, prionum, tasktab, time, start, timer, predtime, t, i - 1);
      assert SlicesOk(t, -1) && EntryOk(t, -1, i - 1);
      var son := SonI(t, -1, i - 1);
      assert SlicesOk(t, son);
      PathBeforeStart(pb, ownetab, prionum, tasktab, time, start, timer, predtime, t, son, 0);
      PathBeforeStart(pb, ownetab, prionum, tasktab, time, start, timer, predtime, t, son, t.At(son).sonsnbr);
      EndBelow(pb, ownetab, prionum, tasktab, time, start, timer, predtime, son);
      LeadAtMostTask(pb, son);
    }
  }

  /** The predicted time is at least the critical path left at the root of the tree. */
  lemma CriPathBound(pb: Problem, ownetab: seq<int>, prionum: seq<int>, tasktab: seq<seq<int>>,
                     time: seq<real>, start: seq<real>, timer: seq<real>, predtime: real, t: Tree)
    requires Complete(pb, ownetab, prionum, tasktab, time, start, timer, predtime) && TreeOf(t, pb) && |pb.cand| > 0
    ensures t.N() == pb.symb.CblkNbr() && CriPath(t, pb.symb, pb.blokcost, -1) <= predtime
  {
    TreeSize(t, pb);
    assert SlicesOk(t, -1);
    var root := TopNode(t, t.N() - 1);
    TopPathBelow(pb, ownetab, prionum, tasktab, time, start, timer, predtime, t, t.At(-1).sonsnbr);
  }

  /** The last node is a son of the root. */
  lemma TopNode(t: Tree, d: int) returns (i: int)
    requires ValidTree(t) && 0 <= d == t.N() - 1
    ensures 0 <= i < t.At(-1).sonsnbr
  {
    assert t.Rises(d) && Listed(t, d);
    assert SlicesOk(t, -1);
    i :| 0 <= i < t.At(-1).sonsnbr && SonI(t, -1, i) == d;
  }
}

/** The task lists that the simulation leaves to the threads (blend/solver_matrix_gen.c), as the
    shares of the parallel product of bcsc/bcsc_zspmv.c. */
module TaskLists {
  import opened SymbolMatrix
  import opened Schedule
  import opened Makespan
  import opened Spmv

  /** The columns of the column blocks, which are also those of the block CSC. */
  function ColumnBlocks(s: Symbol): (blocks: seq<Block>)
    requires ValidCblks(s)
    ensures |blocks| == s.CblkNbr()
  {
    seq(s.CblkNbr(), i requires 0 <= i < s.CblkNbr() => Block(s.cblktab[i].fcolnum, s.cblktab[i].lcolnum))
  }

  lemma BlocksTile(s: Symbol)
    requires Valid(s) && s.cblktab[0].fcolnum == 0
    ensures Tiling(ColumnBlocks(s), s.cblktab[s.CblkNbr()].fcolnum)
  {
    var n := s.cblktab[s.CblkNbr()].fcolnum;
    forall b | 0 <= b < s.CblkNbr() ensures BlockOk(ColumnBlocks(s), n, b) {
      assert CblkOk(s, b) && (b > 0 ==> CblkOk(s, b - 1)) && CblkOk(s, s.CblkNbr() - 1);
      assert CblkOk(s, 0);
      if b > 0 { ColumnsIncrease(s, 0, b); }
      if b < s.CblkNbr() - 1 { ColumnsIncrease(s, b, s.CblkNbr() - 1); }
    }
    if s.CblkNbr() > 0 { assert CblkOk(s, s.CblkNbr() - 1); }
  }

  /** The lists of the first k processors hold the column blocks that they own. */
  lemma {:induction false} ListsOwned(pb: Problem, ownetab: seq<int>, prionum: seq<int>, start: seq<real>,
                                      tasktab: seq<seq<int>>, timer: seq<real>, k: int, c: int)
    requires ProcsOk(pb, ownetab, prionum, start, tasktab, timer) && 0 <= k <= |tasktab|
    ensures c in TasksOf(tasktab, k) <==> 0 <= c < |ownetab| && 0 <= ownetab[c] < k
    decreases k
  {
    if k > 0 {
      ListsOwned(pb, ownetab, prionum, start, tasktab, timer, k - 1, c);
      assert ProcOk(pb, ownetab, prionum, start, k - 1, tasktab[k - 1], timer[k - 1]);
      assert c in tasktab[k - 1] <==> c in multiset(tasktab[k - 1]);
    }
  }

  /** The task lists that the analysis gives to the threads share the blocks of columns among
      them: this is what the parallel product needs. */
  lemma ScheduleShares(pb: Problem, ownetab: seq<int>, prionum: seq<int>, tasktab: seq<seq<int>>,
                       time: seq<real>, start: seq<real>, timer: seq<real>, predtime: real)
    requires Complete(pb, ownetab, prionum, tasktab, time, start, timer, predtime)
    ensures Shared(tasktab, ColumnBlocks(pb.symb))
  {
    var blocks := ColumnBlocks(pb.symb);
    forall k | 0 <= k < |tasktab| ensures RankOk(tasktab, blocks, k) {
      ListIsShare(pb, ownetab, prionum, start, tasktab, timer, k);
    }
    forall c ensures c in TasksOf(tasktab, |tasktab|) <==> c in Range(0, |blocks|) {
      ListsOwned(pb, ownetab, prionum, start, tasktab, timer, |tasktab|, c);
      if 0 <= c < |ownetab| { assert OwnerOk(pb, ownetab, c); }
    }
  }

  lemma ListIsShare(pb: Problem, ownetab: seq<int>, prionum: seq<int>, start: seq<real>, tasktab: seq<seq<int>>,
                    timer: seq<real>, k: int)
    requires ProcsOk(pb, ownetab, prionum, start, tasktab, timer) && 0 <= k < |tasktab|
    ensures RankOk(tasktab, ColumnBlocks(pb.symb), k)
  {
    var list := tasktab[k];
    assert ProcOk(pb, ownetab, prionum, start, k, list, timer[k]);
    forall t | t in list ensures 0 <= t < |ownetab| && ownetab[t] == k { assert t in multiset(list); }
    forall i, j | 0 <= i < j < |list| ensures list[i] != list[j] { OnceInList(list, i, j); }
    forall c | c in TasksOf(tasktab, k) ensures c !in Items(list) {
      ListsOwned(pb, ownetab, prionum, start, tasktab, timer, k, c);
    }
  }

  lemma OnceInList(list: seq<int>, i: int, j: int)
    requires 0 <= i < j < |list| && forall t :: multiset(list)[t] <= 1
    ensures list[i] != list[j]
  {
    var a, b := list[..i + 1], list[i + 1..];
    assert list == a + b && a[i] == list[i] && b[j - i - 1] == list[j];
    assert multiset(list) == multiset(a) + multiset(b);
    assert a[i] in multiset(a) && b[j - i - 1] in multiset(b);
    assert multiset(list)[list[i]] == multiset(a)[list[i]] + multiset(b)[list[i]];
  }
}

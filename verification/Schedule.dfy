/** What the simulation of blend/simu_run.c keeps true, stated on the values of its
    tables: contribution counters, task heaps, topological order and simulated dates. */
module Schedule {
  import opened Queue
  import opened SymbolMatrix
  import opened Contributions
  import Candidates

  /** Date at which a cluster has received its fan-in targets: never set with one cluster. */
  const FTGT_TIME := 0.0

  function MaxReal(a: real, b: real): real { if a > b then a else b }

  type Cand = Candidates.Cand

  /** The inputs of simuRun with one cluster. */
  datatype Problem = Problem(symb: Symbol, cand: seq<Cand>, blokcost: seq<real>, nbcores: int, ricar: bool)

  ghost predicate ValidProblem(pb: Problem) {
    && Valid(pb.symb)
    && (!pb.ricar ==> Closed(pb.symb))
    && |pb.cand| == pb.symb.CblkNbr()
    && (forall c :: 0 <= c < |pb.cand| ==> 0 <= pb.cand[c].fcandnum <= pb.cand[c].lcandnum < pb.nbcores)
    && |pb.blokcost| == |pb.symb.bloktab|
    && (forall b :: 0 <= b < |pb.blokcost| ==> pb.blokcost[b] >= 0.0)
    && pb.nbcores >= 1
  }

  /** A column block is done once it has an owner. */
  function Done(ownetab: seq<int>): (d: seq<bool>)
    ensures |d| == |ownetab| && forall c :: 0 <= c < |d| ==> d[c] == (ownetab[c] >= 0)
  {
    seq(|ownetab|, c requires 0 <= c < |ownetab| => ownetab[c] >= 0)
  }

  // ----- Counters -----

  /** blokctrb counts the pending updates of each block; cblkctrb sums them per column block. */
  ghost predicate SumsOk(s: Symbol, blokctrb: seq<int>, cblkctrb: seq<int>) {
    && Valid(s) && |blokctrb| == |s.bloktab| && |cblkctrb| == s.CblkNbr()
    && forall c :: 0 <= c < s.CblkNbr() ==> SumOk(s, blokctrb, cblkctrb, c)
  }

  ghost predicate SumOk(s: Symbol, blokctrb: seq<int>, cblkctrb: seq<int>, c: int)
    requires Valid(s) && |blokctrb| == |s.bloktab| && |cblkctrb| == s.CblkNbr() && 0 <= c < s.CblkNbr()
  {
    assert ValidColumn(s, c);
    cblkctrb[c] == SumRange(blokctrb, s.First(c), s.Last(c))
  }

  ghost predicate CountsOk(s: Symbol, done: seq<bool>, blokctrb: seq<int>) {
    && Valid(s) && |done| == s.CblkNbr() && |blokctrb| == |s.bloktab|
    && forall b :: 0 <= b < |blokctrb| ==> CountOk(s, done, blokctrb, b)
  }

  ghost predicate CountOk(s: Symbol, done: seq<bool>, blokctrb: seq<int>, b: int)
    requires Valid(s) && |done| == s.CblkNbr() && 0 <= b < |blokctrb|
  {
    blokctrb[b] == Pending(s, done, 0, b)
  }

  /** Column block i is being computed: its updates from block j on are still counted. */
  ghost predicate CountsFrom(s: Symbol, done: seq<bool>, i: int, j: int, blokctrb: seq<int>) {
    && Valid(s) && |done| == s.CblkNbr() && |blokctrb| == |s.bloktab|
    && 0 <= i < s.CblkNbr() && s.First(i) < j <= s.Last(i)
    && forall b :: 0 <= b < |blokctrb| ==> CountFrom(s, done, i, j, blokctrb, b)
  }

  ghost predicate CountFrom(s: Symbol, done: seq<bool>, i: int, j: int, blokctrb: seq<int>, b: int)
    requires Valid(s) && |done| == s.CblkNbr() && 0 <= b < |blokctrb|
    requires 0 <= i < s.CblkNbr() && s.First(i) < j <= s.Last(i)
  {
    blokctrb[b] == Pending(s, done, 0, b) + UpdatesFrom(s, i, j, b)
  }

  /** The same inside the row of block j: the updates from pair (j, k) on are still counted. */
  ghost predicate CountsFromPair(s: Symbol, done: seq<bool>, i: int, j: int, k: int, blokctrb: seq<int>) {
    && Valid(s) && |done| == s.CblkNbr() && |blokctrb| == |s.bloktab|
    && 0 <= i < s.CblkNbr() && s.First(i) < j <= k <= s.Last(i) && j < s.Last(i)
    && forall b :: 0 <= b < |blokctrb| ==> CountFromPair(s, done, i, j, k, blokctrb, b)
  }

  ghost predicate CountFromPair(s: Symbol, done: seq<bool>, i: int, j: int, k: int, blokctrb: seq<int>, b: int)
    requires Valid(s) && |done| == s.CblkNbr() && 0 <= b < |blokctrb|
    requires 0 <= i < s.CblkNbr() && s.First(i) < j <= k <= s.Last(i) && j < s.Last(i)
  {
    blokctrb[b] == Pending(s, done, 0, b) + Rest(s, i, j, k, b)
  }

  /** A task starts: its own updates leave the pending ones and become its work list. */
  lemma StartCounts(s: Symbol, done: seq<bool>, c: int, blokctrb: seq<int>)
    requires CountsOk(s, done, blokctrb) && 0 <= c < |done| && !done[c]
    ensures CountsFrom(s, done[c := true], c, s.First(c) + 1, blokctrb)
  {
    assert ValidColumn(s, c);
    var after, j := done[c := true], s.First(c) + 1;
    forall b | 0 <= b < |blokctrb| ensures CountFrom(s, after, c, j, blokctrb, b) {
      assert CountOk(s, done, blokctrb, b);
      PendingDone(s, done, 0, b, c);
    }
  }

  /** The counters after the update of pair (j, k), if it has a facing block. */
  function Stepped(s: Symbol, j: int, k: int, blokctrb: seq<int>, delta: int): (r: seq<int>)
    requires Valid(s) && 0 <= j < |s.bloktab| && 0 <= k < |s.bloktab| && 0 <= s.bloktab[j].fcblknm < s.CblkNbr()
    requires |blokctrb| == |s.bloktab|
    ensures |r| == |blokctrb|
  {
    assert ValidColumn(s, s.bloktab[j].fcblknm);
    var f := Facing(s, j, k);
    if f < 0 then blokctrb else blokctrb[f := blokctrb[f] + delta]
  }

  lemma StepCountsAt(s: Symbol, done: seq<bool>, i: int, j: int, k: int, blokctrb: seq<int>, next: int, after: seq<int>,
                     b: int)
    requires CountsFromPair(s, done, i, j, k, blokctrb) && k < s.Last(i) && 0 <= b < |blokctrb|
    requires next == k + 1 && UpdatePair(s, i, j, k) && 0 <= j && k < |s.bloktab|
             && 0 <= s.bloktab[j].fcblknm < s.CblkNbr()
    requires after == Stepped(s, j, k, blokctrb, -1)
    ensures UpdatePair(s, i, j, k) && 0 <= j <= k < |s.bloktab| && 0 <= s.bloktab[j].fcblknm < s.CblkNbr()
    ensures CountFromPair(s, done, i, j, next, after, b)
    ensures Facing(s, j, k) == b ==> blokctrb[b] > 0
  {
    RowUnfold(s, i, j, k, b);
    assert CountFromPair(s, done, i, j, k, blokctrb, b);
  }

  /** One update is applied: the counter of its block is positive and goes down by one. */
  lemma StepCounts(s: Symbol, done: seq<bool>, i: int, j: int, k: int, blokctrb: seq<int>)
    requires CountsFromPair(s, done, i, j, k, blokctrb) && k < s.Last(i)
    ensures UpdatePair(s, i, j, k) && 0 <= j <= k < |s.bloktab| && 0 <= s.bloktab[j].fcblknm < s.CblkNbr()
    ensures Facing(s, j, k) < |blokctrb| && (Facing(s, j, k) >= 0 ==> blokctrb[Facing(s, j, k)] > 0)
    ensures CountsFromPair(s, done, i, j, k + 1, Stepped(s, j, k, blokctrb, -1))
  {
    PairInRange(s, i, j, k);
    var after, next := Stepped(s, j, k, blokctrb, -1), k + 1;
    StepCountsAll(s, done, i, j, k, blokctrb, next, after);
    if Facing(s, j, k) >= 0 {
      StepCountsAt(s, done, i, j, k, blokctrb, next, after, Facing(s, j, k));
    }
  }

  lemma StepCountsAll(s: Symbol, done: seq<bool>, i: int, j: int, k: int, blokctrb: seq<int>, next: int,
                      after: seq<int>)
    requires CountsFromPair(s, done, i, j, k, blokctrb) && k < next == k + 1 <= s.Last(i)
    requires UpdatePair(s, i, j, k) && 0 <= j && k < |s.bloktab| && 0 <= s.bloktab[j].fcblknm < s.CblkNbr()
    requires after == Stepped(s, j, k, blokctrb, -1)
    ensures CountsFromPair(s, done, i, j, next, after)
  {
    forall b | 0 <= b < |after| ensures CountFromPair(s, done, i, j, next, after, b) {
      StepCountsAt(s, done, i, j, k, blokctrb, next, after, b);
    }
  }

  lemma CountsNonNegative(s: Symbol, done: seq<bool>, i: int, j: int, k: int, blokctrb: seq<int>)
    requires CountsFromPair(s, done, i, j, k, blokctrb)
    ensures NonNegative(blokctrb)
  {
    forall b | 0 <= b < |blokctrb| ensures blokctrb[b] >= 0 {
      assert CountFromPair(s, done, i, j, k, blokctrb, b);
    }
  }

  ghost predicate NonNegative(v: seq<int>) {
    forall b :: 0 <= b < |v| ==> v[b] >= 0
  }

  /** The counter of the column block follows the counter of its block. */
  lemma StepSums(s: Symbol, blokctrb: seq<int>, cblkctrb: seq<int>, c: int, f: int)
    requires SumsOk(s, blokctrb, cblkctrb)
    requires 0 <= c < s.CblkNbr() && s.First(c) <= f < s.Last(c) && 0 <= f < |blokctrb|
    requires blokctrb[f] > 0 && NonNegative(blokctrb)
    ensures cblkctrb[c] > 0
    ensures SumsOk(s, blokctrb[f := blokctrb[f] - 1], cblkctrb[c := cblkctrb[c] - 1])
  {
    var v := blokctrb[f := blokctrb[f] - 1];
    assert SumOk(s, blokctrb, cblkctrb, c);
    assert ValidColumn(s, c);
    SumRangeUpdate(blokctrb, s.First(c), s.Last(c), f, blokctrb[f] - 1);
    SumRangeNonNegative(v, s.First(c), s.Last(c));
    var w := cblkctrb[c := cblkctrb[c] - 1];
    forall d | 0 <= d < s.CblkNbr() ensures SumOk(s, v, w, d) {
      assert SumOk(s, blokctrb, cblkctrb, d);
      assert ValidColumn(s, d);
      if d < c { ColumnsIncrease(s, d, c); }
      if c < d { ColumnsIncrease(s, c, d); }
      SumRangeUpdate(blokctrb, s.First(d), s.Last(d), f, blokctrb[f] - 1);
    }
  }

  /** A column block with no pending contribution has all its predecessors done. */
  lemma ReadyMeans(s: Symbol, done: seq<bool>, blokctrb: seq<int>, cblkctrb: seq<int>, c: int)
    requires CountsOk(s, done, blokctrb) && SumsOk(s, blokctrb, cblkctrb)
    requires 0 <= c < |done| && cblkctrb[c] == 0
    ensures forall i, j :: Edge(s, i, j, c) ==> done[i]
  {
    forall i, j | Edge(s, i, j, c) ensures done[i] {
      EdgeUpdates(s, i, j, c);
      assert SumOk(s, blokctrb, cblkctrb, c);
      assert ValidColumn(s, c);
      forall b | s.First(c) <= b < s.Last(c) ensures blokctrb[b] >= 0 {
        assert CountOk(s, done, blokctrb, b);
      }
      SumRangeNonNegative(blokctrb, s.First(c), s.Last(c));
      assert CountOk(s, done, blokctrb, s.First(c));
      if !done[i] {
        PendingAtLeast(s, done, 0, s.First(c), i);
      }
    }
  }

  /** A column block whose predecessors are all done has no pending contribution. */
  lemma NothingPending(s: Symbol, done: seq<bool>, blokctrb: seq<int>, cblkctrb: seq<int>, c: int)
    requires CountsOk(s, done, blokctrb) && SumsOk(s, blokctrb, cblkctrb)
    requires 0 <= c < |done| && forall i, j :: Edge(s, i, j, c) && i < |done| ==> done[i]
    ensures cblkctrb[c] == 0
  {
    assert ValidColumn(s, c);
    forall b | s.First(c) <= b < s.Last(c) ensures blokctrb[b] == 0 {
      forall i | 0 <= i < |done| && !done[i] ensures Updates(s, i, b) == 0 {
        if Updates(s, i, b) > 0 {
          UpdatesReach(s, i, c, b);
        }
      }
      PendingNone(s, done, 0, b);
      assert CountOk(s, done, blokctrb, b);
    }
    SumRangeNonNegative(blokctrb, s.First(c), s.Last(c));
    assert SumOk(s, blokctrb, cblkctrb, c);
  }

  /** While something is left to do, its first column block is ready. */
  lemma {:induction false} SomeReady(s: Symbol, done: seq<bool>, blokctrb: seq<int>, cblkctrb: seq<int>, c: int)
    returns (r: int)
    requires CountsOk(s, done, blokctrb) && SumsOk(s, blokctrb, cblkctrb)
    requires 0 <= c < |done| && !done[c]
    ensures 0 <= r < |done| && !done[r] && cblkctrb[r] == 0
    decreases c
  {
    if i :| 0 <= i < c && !done[i] {
      r := SomeReady(s, done, blokctrb, cblkctrb, i);
    } else {
      forall i, j | Edge(s, i, j, c) && i < |done| ensures done[i] {
        EdgeUpdates(s, i, j, c);
      }
      NothingPending(s, done, blokctrb, cblkctrb, c);
      r := c;
    }
  }

  ghost predicate CountedBefore(s: Symbol, none: seq<bool>, i: int, blokctrb: seq<int>) {
    && Valid(s) && |none| == s.CblkNbr() && |blokctrb| == |s.bloktab| && 0 <= i <= |none|
    && forall b :: 0 <= b < |blokctrb| ==> CountedBlok(s, none, i, blokctrb, b)
  }

  ghost predicate CountedBlok(s: Symbol, none: seq<bool>, i: int, blokctrb: seq<int>, b: int)
    requires Valid(s) && |none| == s.CblkNbr() && 0 <= b < |blokctrb| && 0 <= i <= |none|
  {
    blokctrb[b] + Pending(s, none, i, b) == Pending(s, none, 0, b)
  }

  /** The counting pass: blokctrb holds the updates of the pairs already visited. */
  ghost predicate CountedFrom(s: Symbol, none: seq<bool>, i: int, j: int, blokctrb: seq<int>) {
    && Valid(s) && |none| == s.CblkNbr() && |blokctrb| == |s.bloktab|
    && 0 <= i < s.CblkNbr() && s.First(i) < j <= s.Last(i)
    && forall b :: 0 <= b < |blokctrb| ==> CountedBlokFrom(s, none, i, j, blokctrb, b)
  }

  ghost predicate CountedBlokFrom(s: Symbol, none: seq<bool>, i: int, j: int, blokctrb: seq<int>, b: int)
    requires Valid(s) && |none| == s.CblkNbr() && 0 <= b < |blokctrb|
    requires 0 <= i < s.CblkNbr() && s.First(i) < j <= s.Last(i)
  {
    blokctrb[b] + UpdatesFrom(s, i, j, b) + Pending(s, none, i + 1, b) == Pending(s, none, 0, b)
  }

  ghost predicate CountedFromPair(s: Symbol, none: seq<bool>, i: int, j: int, k: int, blokctrb: seq<int>) {
    && Valid(s) && |none| == s.CblkNbr() && |blokctrb| == |s.bloktab|
    && 0 <= i < s.CblkNbr() && s.First(i) < j <= k <= s.Last(i) && j < s.Last(i)
    && forall b :: 0 <= b < |blokctrb| ==> CountedBlokFromPair(s, none, i, j, k, blokctrb, b)
  }

  ghost predicate CountedBlokFromPair(s: Symbol, none: seq<bool>, i: int, j: int, k: int, blokctrb: seq<int>, b: int)
    requires Valid(s) && |none| == s.CblkNbr() && 0 <= b < |blokctrb|
    requires 0 <= i < s.CblkNbr() && s.First(i) < j <= k <= s.Last(i) && j < s.Last(i)
  {
    blokctrb[b] + Rest(s, i, j, k, b) + Pending(s, none, i + 1, b) == Pending(s, none, 0, b)
  }

  lemma CountedOpenAt(s: Symbol, none: seq<bool>, i: int, blokctrb: seq<int>, b: int)
    requires CountedBefore(s, none, i, blokctrb) && i < s.CblkNbr() && !none[i] && 0 <= b < |blokctrb|
    ensures s.First(i) < s.Last(i) && CountedBlokFrom(s, none, i, s.First(i) + 1, blokctrb, b)
  {
    assert CountedBlok(s, none, i, blokctrb, b) && CblkOk(s, i);
    PendingUnfold(s, none, i, b);
  }

  lemma CountedOpen(s: Symbol, none: seq<bool>, i: int, blokctrb: seq<int>)
    requires CountedBefore(s, none, i, blokctrb) && i < s.CblkNbr() && !none[i]
    ensures CountedFrom(s, none, i, s.First(i) + 1, blokctrb)
  {
    assert ValidColumn(s, i);
    var j := s.First(i) + 1;
    forall b | 0 <= b < |blokctrb| ensures CountedBlokFrom(s, none, i, j, blokctrb, b) {
      CountedOpenAt(s, none, i, blokctrb, b);
    }
  }

  lemma CountedClose(s: Symbol, none: seq<bool>, i: int, blokctrb: seq<int>)
    requires 0 <= i < |s.cblktab| - 1 && CountedFrom(s, none, i, s.Last(i), blokctrb)
    ensures CountedBefore(s, none, i + 1, blokctrb)
  {
    var next := i + 1;
    forall b | 0 <= b < |blokctrb| ensures CountedBlok(s, none, next, blokctrb, b) {
      assert CountedBlokFrom(s, none, i, s.Last(i), blokctrb, b);
    }
  }

  /** Any search of a row may start from the first block. */
  lemma FirstHint(s: Symbol, i: int, j: int, hint: int)
    requires UpdatePair(s, i, j, j) && 0 <= j < |s.bloktab| && 0 <= s.bloktab[j].fcblknm < s.CblkNbr()
    requires hint <= s.First(s.bloktab[j].fcblknm)
    ensures HintOk(s, j, j, hint)
  {
    PairInRange(s, i, j, j);
  }

  lemma CountedOpenRow(s: Symbol, none: seq<bool>, i: int, j: int, blokctrb: seq<int>)
    requires CountedFrom(s, none, i, j, blokctrb) && j < s.Last(i)
    ensures CountedFromPair(s, none, i, j, j, blokctrb) && HintOk(s, j, j, 0)
  {
    PairInRange(s, i, j, j);
    FirstHint(s, i, j, 0);
    forall b | 0 <= b < |blokctrb| ensures CountedBlokFromPair(s, none, i, j, j, blokctrb, b) {
      assert CountedBlokFrom(s, none, i, j, blokctrb, b);
    }
  }

  lemma CountedCloseRow(s: Symbol, none: seq<bool>, i: int, j: int, blokctrb: seq<int>)
    requires 0 <= i < |s.cblktab| - 1 && CountedFromPair(s, none, i, j, s.Last(i), blokctrb)
    ensures CountedFrom(s, none, i, j + 1, blokctrb)
  {
    var next := j + 1;
    forall b | 0 <= b < |blokctrb| ensures CountedBlokFrom(s, none, i, next, blokctrb, b) {
      assert CountedBlokFromPair(s, none, i, j, s.Last(i), blokctrb, b);
    }
  }

  lemma CountsOpenRow(s: Symbol, done: seq<bool>, i: int, j: int, blokctrb: seq<int>)
    requires CountsFrom(s, done, i, j, blokctrb) && j < s.Last(i)
    ensures CountsFromPair(s, done, i, j, j, blokctrb)
    ensures UpdatePair(s, i, j, j) && 0 <= j < |s.bloktab| && 0 <= s.bloktab[j].fcblknm < s.CblkNbr()
    ensures HintOk(s, j, j, s.First(s.bloktab[j].fcblknm))
  {
    PairInRange(s, i, j, j);
    FirstHint(s, i, j, s.First(s.bloktab[j].fcblknm));
    forall b | 0 <= b < |blokctrb| ensures CountFromPair(s, done, i, j, j, blokctrb, b) {
      assert CountFrom(s, done, i, j, blokctrb, b);
    }
  }

  lemma CountsCloseRow(s: Symbol, done: seq<bool>, i: int, j: int, blokctrb: seq<int>)
    requires 0 <= i < |s.cblktab| - 1 && CountsFromPair(s, done, i, j, s.Last(i), blokctrb)
    ensures CountsFrom(s, done, i, j + 1, blokctrb)
  {
    var next := j + 1;
    forall b | 0 <= b < |blokctrb| ensures CountFrom(s, done, i, next, blokctrb, b) {
      assert CountFromPair(s, done, i, j, s.Last(i), blokctrb, b);
    }
  }

  lemma CountsClose(s: Symbol, done: seq<bool>, i: int, blokctrb: seq<int>)
    requires 0 <= i < |s.cblktab| - 1 && CountsFrom(s, done, i, s.Last(i), blokctrb)
    ensures CountsOk(s, done, blokctrb)
  {
    forall b | 0 <= b < |blokctrb| ensures CountOk(s, done, blokctrb, b) {
      assert CountFrom(s, done, i, s.Last(i), blokctrb, b);
    }
  }

  lemma CountStepAt(s: Symbol, none: seq<bool>, i: int, j: int, k: int, blokctrb: seq<int>, next: int, after: seq<int>,
                    b: int)
    requires CountedFromPair(s, none, i, j, k, blokctrb) && k < s.Last(i) && 0 <= b < |blokctrb|
    requires next == k + 1 && UpdatePair(s, i, j, k) && 0 <= j && k < |s.bloktab|
             && 0 <= s.bloktab[j].fcblknm < s.CblkNbr()
    requires after == Stepped(s, j, k, blokctrb, 1)
    ensures UpdatePair(s, i, j, k) && 0 <= j <= k < |s.bloktab| && 0 <= s.bloktab[j].fcblknm < s.CblkNbr()
    ensures CountedBlokFromPair(s, none, i, j, next, after, b)
  {
    RowUnfold(s, i, j, k, b);
    assert CountedBlokFromPair(s, none, i, j, k, blokctrb, b);
  }

  lemma CountStep(s: Symbol, none: seq<bool>, i: int, j: int, k: int, blokctrb: seq<int>)
    requires CountedFromPair(s, none, i, j, k, blokctrb) && k < s.Last(i)
    ensures UpdatePair(s, i, j, k) && 0 <= j <= k < |s.bloktab| && 0 <= s.bloktab[j].fcblknm < s.CblkNbr()
    ensures Facing(s, j, k) < |blokctrb|
    ensures CountedFromPair(s, none, i, j, k + 1, Stepped(s, j, k, blokctrb, 1))
  {
    PairInRange(s, i, j, k);
    var after, next := Stepped(s, j, k, blokctrb, 1), k + 1;
    CountStepAll(s, none, i, j, k, blokctrb, next, after);
  }

  lemma CountStepAll(s: Symbol, none: seq<bool>, i: int, j: int, k: int, blokctrb: seq<int>, next: int,
                     after: seq<int>)
    requires CountedFromPair(s, none, i, j, k, blokctrb) && k < next == k + 1 <= s.Last(i)
    requires UpdatePair(s, i, j, k) && 0 <= j && k < |s.bloktab| && 0 <= s.bloktab[j].fcblknm < s.CblkNbr()
    requires after == Stepped(s, j, k, blokctrb, 1)
    ensures CountedFromPair(s, none, i, j, next, after)
  {
    forall b | 0 <= b < |after| ensures CountedBlokFromPair(s, none, i, j, next, after, b) {
      CountStepAt(s, none, i, j, k, blokctrb, next, after, b);
    }
  }

  lemma CountedNone(s: Symbol, none: seq<bool>, blokctrb: seq<int>)
    requires Valid(s) && |none| == s.CblkNbr() && |blokctrb| == |s.bloktab|
    requires forall b :: 0 <= b < |blokctrb| ==> blokctrb[b] == 0
    ensures CountedBefore(s, none, 0, blokctrb)
  {
    forall b | 0 <= b < |blokctrb| ensures CountedBlok(s, none, 0, blokctrb, b) {
    }
  }

  lemma CountedAll(s: Symbol, none: seq<bool>, blokctrb: seq<int>)
    requires Valid(s) && CountedBefore(s, none, |none|, blokctrb)
    ensures CountsOk(s, none, blokctrb)
  {
    forall b | 0 <= b < |blokctrb| ensures CountOk(s, none, blokctrb, b) {
      assert CountedBlok(s, none, |none|, blokctrb, b);
    }
  }

  // ----- Heaps -----

  /** Tasks held for processor p: its ready heap is queue p, its future heap queue P + p. */
  ghost function Held(view: seq<seq<Item>>, P: int, p: int): multiset<int>
    requires |view| == 2 * P && 0 <= p < P
  {
    Elts(view[p]) + Elts(view[P + p])
  }

  predicate Candidate(cand: seq<Cand>, t: int, p: int)
    requires 0 <= t < |cand|
  {
    cand[t].fcandnum <= p <= cand[t].lcandnum
  }

  /** What one processor may hold of one task. A task is held at most once, only when it
      is ready and only by a candidate; a ready task not done is held by every candidate. */
  ghost predicate HeldOk(cand: seq<Cand>, ctrb: seq<int>, done: seq<bool>, held: multiset<int>, p: int, t: int)
    requires |cand| == |ctrb| == |done|
  {
    && held[t] <= 1
    && (held[t] > 0 ==> 0 <= t < |cand| && ctrb[t] == 0 && Candidate(cand, t, p))
    && (0 <= t < |cand| && !done[t] && ctrb[t] == 0 && Candidate(cand, t, p) ==> held[t] == 1)
  }

  ghost predicate QueuesOk(cand: seq<Cand>, ctrb: seq<int>, done: seq<bool>, view: seq<seq<Item>>, P: int) {
    && |cand| == |ctrb| == |done| && |view| == 2 * P
    && forall p, t :: 0 <= p < P ==> HeldOk(cand, ctrb, done, Held(view, P, p), p, t)
  }

  lemma HeldPush(view: seq<seq<Item>>, P: int, q: int, x: Item, p: int)
    requires |view| == 2 * P && 0 <= q < 2 * P && 0 <= p < P
    ensures Held(view[q := Pushed(view[q], x)], P, p)
            == Held(view, P, p) + if q == p || q == P + p then multiset{x.elt} else multiset{}
  {
    PushedItems(view[q], x);
  }

  lemma HeldPop(view: seq<seq<Item>>, P: int, q: int, p: int)
    requires |view| == 2 * P && 0 <= q < 2 * P && 0 <= p < P && view[q] != []
    ensures Held(view, P, p)
            == Held(view[q := Popped(view[q])], P, p) + if q == p || q == P + p then multiset{view[q][0].elt}
                else multiset{}
  {
    PoppedItems(view[q]);
  }

  lemma HeadIsHeld(s: seq<Item>)
    requires s != []
    ensures s[0].elt in Elts(s)
  {
    assert EltSeq(s)[0] == s[0].elt;
  }

  // ----- Keys of the heaps -----

  /** A task in a ready heap: by tree level, then by block number. */
  function ReadyItem(pb: Problem, t: int): Item
    requires 0 <= t < |pb.cand| <= |pb.symb.cblktab|
  {
    Item(pb.cand[t].treelevel as real, pb.symb.First(t) as real, t)
  }

  /** A task in a future heap: by ready date, then by tree level. */
  function FutureItem(pb: Problem, time: seq<real>, t: int): Item
    requires 0 <= t < |pb.cand| == |time|
  {
    Item(time[t], pb.cand[t].treelevel as real, t)
  }

  predicate KeyOk(pb: Problem, time: seq<real>, x: Item, future: bool)
    requires |pb.cand| == |time| && |pb.cand| <= |pb.symb.cblktab|
  {
    0 <= x.elt < |pb.cand| && x == if future then FutureItem(pb, time, x.elt) else ReadyItem(pb, x.elt)
  }

  ghost predicate HeapKeys(pb: Problem, time: seq<real>, s: seq<Item>, future: bool)
    requires |pb.cand| == |time| && |pb.cand| <= |pb.symb.cblktab|
  {
    forall k :: 0 <= k < |s| ==> KeyOk(pb, time, s[k], future)
  }

  /** Items keep their keys until they leave. */
  lemma DrainedKeys(pb: Problem, time: seq<real>, s: seq<Item>, future: bool, k: int)
    requires |pb.cand| == |time| && |pb.cand| <= |pb.symb.cblktab|
    requires HeapOrder(s) && HeapKeys(pb, time, s, future) && 0 <= k < |s|
    ensures KeyOk(pb, time, Drained(s)[k], future)
  {
    DrainedIsSorted(s);
    var x := Drained(s)[k];
    assert x in multiset(Drained(s));
    assert x in s;
    var m :| 0 <= m < |s| && s[m] == x;
    assert KeyOk(pb, time, s[m], future);
  }

  /** Of two tasks of a ready heap the one further from the root leaves first, and of two at the same
      level the one whose blocks come first. */
  lemma ReadyOrder(pb: Problem, time: seq<real>, s: seq<Item>, i: int, j: int)
    requires |pb.cand| == |time| && |pb.cand| <= |pb.symb.cblktab|
    requires HeapOrder(s) && HeapKeys(pb, time, s, false) && 0 <= i < j < |s|
    ensures var t, u := Drained(s)[i].elt, Drained(s)[j].elt;
            && 0 <= t < |pb.cand| && 0 <= u < |pb.cand|
            && (pb.cand[t].treelevel < pb.cand[u].treelevel
                || (pb.cand[t].treelevel == pb.cand[u].treelevel && pb.symb.First(t) <= pb.symb.First(u)))
  {
    PopOrder(s, i, j);
    DrainedKeys(pb, time, s, false, i);
    DrainedKeys(pb, time, s, false, j);
    assert Drained(s)[i] == ReadyItem(pb, Drained(s)[i].elt);
    assert Drained(s)[j] == ReadyItem(pb, Drained(s)[j].elt);
  }

  /** Of two tasks of a future heap the one that is ready first leaves first, and of two with the
      same date the one further from the root. */
  lemma FutureOrder(pb: Problem, time: seq<real>, s: seq<Item>, i: int, j: int)
    requires |pb.cand| == |time| && |pb.cand| <= |pb.symb.cblktab|
    requires HeapOrder(s) && HeapKeys(pb, time, s, true) && 0 <= i < j < |s|
    ensures var t, u := Drained(s)[i].elt, Drained(s)[j].elt;
            && 0 <= t < |pb.cand| && 0 <= u < |pb.cand|
            && (time[t] < time[u] || (time[t] == time[u] && pb.cand[t].treelevel <= pb.cand[u].treelevel))
  {
    PopOrder(s, i, j);
    DrainedKeys(pb, time, s, true, i);
    DrainedKeys(pb, time, s, true, j);
    assert Drained(s)[i] == FutureItem(pb, time, Drained(s)[i].elt);
    assert Drained(s)[j] == FutureItem(pb, time, Drained(s)[j].elt);
  }

  /** The keys of the future heaps are the ready dates of their tasks. */
  ghost predicate KeysOk(pb: Problem, time: seq<real>, view: seq<seq<Item>>) {
    && |pb.cand| == |time| && |pb.cand| <= |pb.symb.cblktab| && |view| == 2 * pb.nbcores
    && forall q :: 0 <= q < |view| ==> HeapKeys(pb, time, view[q], q >= pb.nbcores)
  }

  lemma ItemsKeep(pb: Problem, time: seq<real>, s: seq<Item>, t: seq<Item>, future: bool)
    requires |pb.cand| == |time| && |pb.cand| <= |pb.symb.cblktab| && HeapKeys(pb, time, s, future)
             && multiset(t) <= multiset(s)
    ensures HeapKeys(pb, time, t, future)
  {
    forall k | 0 <= k < |t| ensures KeyOk(pb, time, t[k], future) {
      assert t[k] in multiset(t) && t[k] in multiset(s) && t[k] in s;
    }
  }

  lemma PopKeys(pb: Problem, time: seq<real>, view: seq<seq<Item>>, q: int)
    requires KeysOk(pb, time, view) && 0 <= q < |view| && view[q] != []
    ensures KeysOk(pb, time, view[q := Popped(view[q])])
  {
    PoppedItems(view[q]);
    ItemsKeep(pb, time, view[q], Popped(view[q]), q >= pb.nbcores);
  }

  lemma PushKeys(pb: Problem, time: seq<real>, view: seq<seq<Item>>, q: int, x: Item)
    requires KeysOk(pb, time, view) && 0 <= q < |view| && KeyOk(pb, time, x, q >= pb.nbcores)
    ensures KeysOk(pb, time, view[q := Pushed(view[q], x)])
  {
    PushedItems(view[q], x);
    var s, t := view[q], Pushed(view[q], x);
    forall k | 0 <= k < |t| ensures KeyOk(pb, time, t[k], q >= pb.nbcores) {
      assert t[k] in multiset(t);
      assert t[k] in multiset(s) || t[k] == x;
      if t[k] in multiset(s) { assert t[k] in s; }
    }
  }

  /** The ready date of a task with pending contributions may rise: it is in no heap. */
  lemma RaiseKeys(pb: Problem, time: seq<real>, view: seq<seq<Item>>, ctrb: seq<int>, done: seq<bool>, c: int,
                  date: real)
    requires KeysOk(pb, time, view) && QueuesOk(pb.cand, ctrb, done, view, pb.nbcores) && 0 <= c < |ctrb| && ctrb[c] > 0
    ensures KeysOk(pb, Raise(time, c, date), view)
  {
    var after := Raise(time, c, date);
    forall q | 0 <= q < |view| ensures HeapKeys(pb, after, view[q], q >= pb.nbcores) {
      forall k | 0 <= k < |view[q]| ensures KeyOk(pb, after, view[q][k], q >= pb.nbcores) {
        assert HeapKeys(pb, time, view[q], q >= pb.nbcores) && KeyOk(pb, time, view[q][k], q >= pb.nbcores);
        ItemIsReady(pb, view, ctrb, done, q, k);
      }
    }
  }

  lemma ItemIsReady(pb: Problem, view: seq<seq<Item>>, ctrb: seq<int>, done: seq<bool>, q: int, k: int)
    requires QueuesOk(pb.cand, ctrb, done, view, pb.nbcores) && 0 <= q < |view| && 0 <= k < |view[q]|
    ensures 0 <= view[q][k].elt < |ctrb| && ctrb[view[q][k].elt] == 0
  {
    var p, t := if q < pb.nbcores then q else q - pb.nbcores, view[q][k].elt;
    assert EltSeq(view[q])[k] == t && t in Elts(view[q]);
    assert t in Held(view, pb.nbcores, p);
    assert HeldOk(pb.cand, ctrb, done, Held(view, pb.nbcores, p), p, t);
  }

  /** A ready task goes to the future heap of p when the clock of p is behind its ready date. */
  function PutIn(pb: Problem, timer: seq<real>, time: seq<real>, view: seq<seq<Item>>, t: int,
                 p: int): (r: seq<seq<Item>>)
    requires 0 <= t < |pb.cand| == |time| && |pb.cand| <= |pb.symb.cblktab|
    requires 0 <= p < pb.nbcores == |timer| && |view| == 2 * pb.nbcores
    ensures |r| == |view|
  {
    if time[t] > timer[p] then view[pb.nbcores + p := Pushed(view[pb.nbcores + p], FutureItem(pb, time, t))]
    else view[p := Pushed(view[p], ReadyItem(pb, t))]
  }

  /** One heap of each of the processors from first to p - 1. */
  function PutUpTo(pb: Problem, timer: seq<real>, time: seq<real>, view: seq<seq<Item>>, t: int, first: int,
                   p: int): (r: seq<seq<Item>>)
    requires 0 <= t < |pb.cand| == |time| && |pb.cand| <= |pb.symb.cblktab|
    requires 0 <= first <= p <= pb.nbcores == |timer| && |view| == 2 * pb.nbcores
    ensures |r| == |view|
    decreases p
  {
    if p == first then view else PutIn(pb, timer, time, PutUpTo(pb, timer, time, view, t, first, p - 1), t, p - 1)
  }

  /** Processor r holds t once more, or nothing more. */
  ghost predicate HeldMore(view: seq<seq<Item>>, after: seq<seq<Item>>, P: int, r: int, t: int, more: bool)
    requires |view| == |after| == 2 * P && 0 <= r < P
  {
    Held(after, P, r) == Held(view, P, r) + if more then multiset{t} else multiset{}
  }

  lemma HeldPutIn(pb: Problem, timer: seq<real>, time: seq<real>, view: seq<seq<Item>>, t: int, p: int, r: int)
    requires 0 <= t < |pb.cand| == |time| && |pb.cand| <= |pb.symb.cblktab|
    requires 0 <= p < pb.nbcores == |timer| && |view| == 2 * pb.nbcores && 0 <= r < pb.nbcores
    ensures HeldMore(view, PutIn(pb, timer, time, view, t, p), pb.nbcores, r, t, r == p)
  {
    if time[t] > timer[p] {
      HeldPush(view, pb.nbcores, pb.nbcores + p, FutureItem(pb, time, t), r);
    } else {
      HeldPush(view, pb.nbcores, p, ReadyItem(pb, t), r);
    }
  }

  lemma HeldTwice(view: seq<seq<Item>>, mid: seq<seq<Item>>, after: seq<seq<Item>>, P: int, r: int, t: int, first: bool,
                  second: bool)
    requires |view| == |mid| == |after| == 2 * P && 0 <= r < P && !(first && second)
    requires HeldMore(view, mid, P, r, t, first) && HeldMore(mid, after, P, r, t, second)
    ensures HeldMore(view, after, P, r, t, first || second)
  {
  }

  lemma HeldPutNext(pb: Problem, timer: seq<real>, time: seq<real>, view: seq<seq<Item>>, mid: seq<seq<Item>>, t: int,
                    p: int, r: int, was: bool)
    requires 0 <= t < |pb.cand| == |time| && |pb.cand| <= |pb.symb.cblktab|
    requires 0 <= p < pb.nbcores == |timer| && |view| == |mid| == 2 * pb.nbcores && 0 <= r < pb.nbcores
    requires HeldMore(view, mid, pb.nbcores, r, t, was) && (was ==> r != p)
    ensures HeldMore(view, PutIn(pb, timer, time, mid, t, p), pb.nbcores, r, t, was || r == p)
  {
    HeldPutIn(pb, timer, time, mid, t, p, r);
    HeldTwice(view, mid, PutIn(pb, timer, time, mid, t, p), pb.nbcores, r, t, was, r == p);
  }

  lemma {:induction false} HeldPutUpTo(pb: Problem, timer: seq<real>, time: seq<real>, view: seq<seq<Item>>, t: int,
                                       first: int, p: int, r: int, more: bool)
    requires 0 <= t < |pb.cand| == |time| && |pb.cand| <= |pb.symb.cblktab|
    requires 0 <= first <= p <= pb.nbcores == |timer| && |view| == 2 * pb.nbcores && 0 <= r < pb.nbcores
    requires more <==> first <= r < p
    ensures HeldMore(view, PutUpTo(pb, timer, time, view, t, first, p), pb.nbcores, r, t, more)
    decreases p
  {
    if p > first {
      var k, was := p - 1, first <= r < p - 1;
      HeldPutUpTo(pb, timer, time, view, t, first, k, r, was);
      HeldPutNext(pb, timer, time, view, PutUpTo(pb, timer, time, view, t, first, k), t, k, r, was);
      assert more == (was || r == k);
    } else {
      HeldSame(view, pb.nbcores, r, t);
    }
  }

  /** Task t enters heap q when it is put in the heaps of the processors from first to p - 1: the future
      heaps of those whose clock is behind its date, the ready heaps of the others. */
  predicate GoesTo(pb: Problem, timer: seq<real>, time: seq<real>, t: int, first: int, p: int, q: int)
    requires |timer| == pb.nbcores && 0 <= t < |time|
  {
    if 0 <= q < pb.nbcores then first <= q < p && time[t] <= timer[q]
    else pb.nbcores <= q < 2 * pb.nbcores && first <= q - pb.nbcores < p && timer[q - pb.nbcores] < time[t]
  }

  lemma PutInWhere(pb: Problem, timer: seq<real>, time: seq<real>, view: seq<seq<Item>>, t: int, p: int, q: int)
    requires 0 <= t < |pb.cand| == |time| && |pb.cand| <= |pb.symb.cblktab|
    requires 0 <= p < pb.nbcores == |timer| && |view| == 2 * pb.nbcores && 0 <= q < 2 * pb.nbcores
    ensures Elts(PutIn(pb, timer, time, view, t, p)[q])
            == Elts(view[q]) + if GoesTo(pb, timer, time, t, p, p + 1, q) then multiset{t} else multiset{}
  {
    if time[t] > timer[p] {
      PushedItems(view[pb.nbcores + p], FutureItem(pb, time, t));
    } else {
      PushedItems(view[p], ReadyItem(pb, t));
    }
  }

  lemma {:induction false} PutWhere(pb: Problem, timer: seq<real>, time: seq<real>, view: seq<seq<Item>>, t: int,
                                    first: int, p: int, q: int)
    requires 0 <= t < |pb.cand| == |time| && |pb.cand| <= |pb.symb.cblktab|
    requires 0 <= first <= p <= pb.nbcores == |timer| && |view| == 2 * pb.nbcores && 0 <= q < 2 * pb.nbcores
    ensures Elts(PutUpTo(pb, timer, time, view, t, first, p)[q])
            == Elts(view[q]) + if GoesTo(pb, timer, time, t, first, p, q) then multiset{t} else multiset{}
    decreases p
  {
    if p > first {
      var k := p - 1;
      PutWhere(pb, timer, time, view, t, first, k, q);
      PutInWhere(pb, timer, time, PutUpTo(pb, timer, time, view, t, first, k), t, k, q);
    }
  }

  /** Each candidate holds the task once more. */
  lemma HeldByCandidates(pb: Problem, timer: seq<real>, time: seq<real>, view: seq<seq<Item>>, t: int, first: int,
                         last: int)
    requires 0 <= t < |pb.cand| == |time| && |pb.cand| <= |pb.symb.cblktab|
    requires 0 <= first <= last <= pb.nbcores == |timer| && |view| == 2 * pb.nbcores
    requires first == pb.cand[t].fcandnum && last == pb.cand[t].lcandnum + 1
    ensures forall p :: 0 <= p < pb.nbcores ==>
              Held(PutUpTo(pb, timer, time, view, t, first, last), pb.nbcores, p)
              == Held(view, pb.nbcores, p) + if Candidate(pb.cand, t, p) then multiset{t} else multiset{}
  {
    var after := PutUpTo(pb, timer, time, view, t, first, last);
    forall p | 0 <= p < pb.nbcores
      ensures Held(after, pb.nbcores, p)
              == Held(view, pb.nbcores, p) + if Candidate(pb.cand, t, p) then multiset{t} else multiset{}
    {
      HeldPutUpTo(pb, timer, time, view, t, first, last, p, Candidate(pb.cand, t, p));
    }
  }

  lemma HeldSame(view: seq<seq<Item>>, P: int, r: int, t: int)
    requires |view| == 2 * P && 0 <= r < P
    ensures HeldMore(view, view, P, r, t, false)
  {
  }

  // ----- From the future heap to the ready heap -----

  /** The first task of the future heap of p moves to its ready heap. */
  function MoveOne(pb: Problem, view: seq<seq<Item>>, p: int): (r: seq<seq<Item>>)
    requires 0 <= p < pb.nbcores && |view| == 2 * pb.nbcores && view[pb.nbcores + p] != []
             && |pb.cand| <= |pb.symb.cblktab|
    ensures |r| == |view| && |r[pb.nbcores + p]| == |view[pb.nbcores + p]| - 1
  {
    var t := view[pb.nbcores + p][0].elt;
    var x := if 0 <= t < |pb.cand| then ReadyItem(pb, t) else Item(0.0, 0.0, t);
    view[pb.nbcores + p := Popped(view[pb.nbcores + p])][p := Pushed(view[p], x)]
  }

  function MoveAll(pb: Problem, view: seq<seq<Item>>, p: int): (r: seq<seq<Item>>)
    requires 0 <= p < pb.nbcores && |view| == 2 * pb.nbcores && |pb.cand| <= |pb.symb.cblktab|
    ensures |r| == |view| && r[pb.nbcores + p] == []
    decreases |view[pb.nbcores + p]|
  {
    if view[pb.nbcores + p] == [] then view else MoveAll(pb, MoveOne(pb, view, p), p)
  }

  lemma MoveAllNext(pb: Problem, view: seq<seq<Item>>, p: int)
    requires 0 <= p < pb.nbcores && |view| == 2 * pb.nbcores && |pb.cand| <= |pb.symb.cblktab|
    requires view[pb.nbcores + p] != []
    ensures MoveAll(pb, MoveOne(pb, view, p), p) == MoveAll(pb, view, p)
  {
  }

  lemma MoveAllDone(pb: Problem, view: seq<seq<Item>>, p: int)
    requires 0 <= p < pb.nbcores && |view| == 2 * pb.nbcores && |pb.cand| <= |pb.symb.cblktab|
    ensures view[pb.nbcores + p] == [] ==> MoveAll(pb, view, p) == view
  {
  }

  /** Every task of the future heap moves, and no other. */
  lemma {:induction false} MovedTasks(pb: Problem, view: seq<seq<Item>>, p: int)
    requires 0 <= p < pb.nbcores && |view| == 2 * pb.nbcores && |pb.cand| <= |pb.symb.cblktab|
    ensures Elts(MoveAll(pb, view, p)[p]) == Elts(view[p]) + Elts(view[pb.nbcores + p])
    decreases |view[pb.nbcores + p]|
  {
    var s := view[pb.nbcores + p];
    if s == [] {
      assert EltSeq(s) == [];
    } else {
      MovedOne(pb, view, p, pb.nbcores + p);
      MovedTasks(pb, MoveOne(pb, view, p), p);
    }
  }

  lemma MovedOne(pb: Problem, view: seq<seq<Item>>, p: int, q: int)
    requires 0 <= p < pb.nbcores && |view| == 2 * pb.nbcores && q == pb.nbcores + p && view[q] != []
    requires |pb.cand| <= |pb.symb.cblktab|
    ensures Elts(MoveOne(pb, view, p)[p]) + Elts(MoveOne(pb, view, p)[q]) == Elts(view[p]) + Elts(view[q])
  {
    var t := view[q][0].elt;
    var x := if 0 <= t < |pb.cand| then ReadyItem(pb, t) else Item(0.0, 0.0, t);
    PoppedItems(view[q]);
    PushedItems(view[p], x);
  }

  /** What the comment before simu_pushToReadyHeap promises: the date of each task that is
      moved is already passed by the clock of the processor. */
  ghost predicate MovesDueOnly(pb: Problem, time: seq<real>, timer: seq<real>, view: seq<seq<Item>>, p: int)
    requires 0 <= p < pb.nbcores == |timer| && |view| == 2 * pb.nbcores && |pb.cand| <= |pb.symb.cblktab|
             && |time| == |pb.cand|
  {
    forall t :: t in Elts(MoveAll(pb, view, p)[p]) - Elts(view[p]) && 0 <= t < |time| ==> time[t] <= timer[p]
  }

  predicate KeysDue(s: seq<Item>, clock: real) {
    forall k :: 0 <= k < |s| ==> s[k].key1 <= clock
  }

  /** The promise is kept exactly when no key of the future heap is after the clock. */
  lemma MovesDueOnlyWhen(pb: Problem, time: seq<real>, timer: seq<real>, view: seq<seq<Item>>, p: int)
    requires KeysOk(pb, time, view) && 0 <= p < pb.nbcores == |timer|
    ensures MovesDueOnly(pb, time, timer, view, p)
            <==> KeysDue(view[pb.nbcores + p], timer[p])
  {
    var q := pb.nbcores + p;
    var s := view[q];
    MovedTasks(pb, view, p);
    assert Elts(MoveAll(pb, view, p)[p]) - Elts(view[p]) == Elts(s);
    assert HeapKeys(pb, time, s, true);
    forall k | 0 <= k < |s| ensures s[k].elt in Elts(s) && KeyOk(pb, time, s[k], true) {
      assert EltSeq(s)[k] == s[k].elt;
    }
    if MovesDueOnly(pb, time, timer, view, p) {
      forall k | 0 <= k < |s| ensures s[k].key1 <= timer[p] { assert s[k].elt in Elts(s); }
    }
    if KeysDue(s, timer[p]) {
      forall t | t in Elts(s) && 0 <= t < |time| ensures time[t] <= timer[p] {
        assert t in EltSeq(s);
        var k :| 0 <= k < |EltSeq(s)| && EltSeq(s)[k] == t;
        assert KeyOk(pb, time, s[k], true);
      }
    }
  }

  /** The heaps after a search: only tasks already mapped were dropped, and possibly the
      chosen task on the chosen processor. */
  ghost predicate Taken(pb: Problem, before: seq<seq<Item>>, view: seq<seq<Item>>, ownetab: seq<int>, task: int,
                        proc: int) {
    && |before| == |view| == 2 * pb.nbcores && |ownetab| == |pb.cand|
    && forall p, t :: 0 <= p < pb.nbcores ==>
         TakenFrom(pb, before, view, ownetab, task, proc, p, t)
  }

  ghost predicate TakenFrom(pb: Problem, before: seq<seq<Item>>, view: seq<seq<Item>>, ownetab: seq<int>, task: int,
                            proc: int, p: int, t: int)
    requires |before| == |view| == 2 * pb.nbcores && |ownetab| == |pb.cand| && 0 <= p < pb.nbcores
  {
    var held, was := Held(view, pb.nbcores, p), Held(before, pb.nbcores, p);
    && held[t] <= was[t]
    && (0 <= t < |ownetab| && ownetab[t] < 0 && !(t == task && p == proc) ==> held[t] == was[t])
  }

  /** The counter of a column block goes down: its task is pushed exactly when it gets ready. */
  lemma QueuesStep(cand: seq<Cand>, ctrb: seq<int>, done: seq<bool>, before: seq<seq<Item>>, view: seq<seq<Item>>,
                   P: int, c: int)
    requires QueuesOk(cand, ctrb, done, before, P) && |view| == 2 * P
    requires 0 <= c < |ctrb| && ctrb[c] > 0
    requires forall p :: 0 <= p < P ==>
               Held(view, P, p) == Held(before, P, p) + if ctrb[c] == 1 && Candidate(cand, c, p) then multiset{c}
                   else multiset{}
    ensures QueuesOk(cand, ctrb[c := ctrb[c] - 1], done, view, P)
  {
    var ctrb' := ctrb[c := ctrb[c] - 1];
    forall p, t | 0 <= p < P ensures HeldOk(cand, ctrb', done, Held(view, P, p), p, t) {
      assert HeldOk(cand, ctrb, done, Held(before, P, p), p, t);
    }
  }

  lemma HeadInQueues(cand: seq<Cand>, ctrb: seq<int>, done: seq<bool>, view: seq<seq<Item>>, P: int, p: int)
    requires QueuesOk(cand, ctrb, done, view, P) && 0 <= p < P && view[P + p] != []
    ensures 0 <= view[P + p][0].elt < |cand|
  {
    HeadIsHeld(view[P + p]);
    assert HeldOk(cand, ctrb, done, Held(view, P, p), p, view[P + p][0].elt);
  }

  /** Moving a task from the future heap to the ready heap of the same processor. */
  lemma MovedKeepsQueues(cand: seq<Cand>, ctrb: seq<int>, done: seq<bool>, view: seq<seq<Item>>, P: int, p: int,
                         x: Item)
    requires QueuesOk(cand, ctrb, done, view, P) && 0 <= p < P && view[P + p] != [] && x.elt == view[P + p][0].elt
    ensures QueuesOk(cand, ctrb, done, view[P + p := Popped(view[P + p])][p := Pushed(view[p], x)], P)
  {
    var mid := view[P + p := Popped(view[P + p])];
    var after := mid[p := Pushed(view[p], x)];
    forall r, t | 0 <= r < P ensures HeldOk(cand, ctrb, done, Held(after, P, r), r, t) {
      assert HeldOk(cand, ctrb, done, Held(view, P, r), r, t);
      HeldPop(view, P, P + p, r);
      HeldPush(mid, P, p, x, r);
    }
  }

  /** Moving one task keeps the keys and the queues. */
  lemma MovedKeeps(pb: Problem, ctrb: seq<int>, done: seq<bool>, time: seq<real>, view: seq<seq<Item>>, p: int)
    requires QueuesOk(pb.cand, ctrb, done, view, pb.nbcores) && KeysOk(pb, time, view)
    requires 0 <= p < pb.nbcores && |view| == 2 * pb.nbcores && view[pb.nbcores + p] != []
    requires |pb.cand| <= |pb.symb.cblktab|
    ensures KeysOk(pb, time, MoveOne(pb, view, p)) && QueuesOk(pb.cand, ctrb, done, MoveOne(pb, view, p), pb.nbcores)
  {
    var q := pb.nbcores + p;
    HeadInQueues(pb.cand, ctrb, done, view, pb.nbcores, p);
    var item := ReadyItem(pb, view[q][0].elt);
    PopKeys(pb, time, view, q);
    PushKeys(pb, time, view[q := Popped(view[q])], p, item);
    MovedKeepsQueues(pb.cand, ctrb, done, view, pb.nbcores, p, item);
  }

  lemma ChosenIsReady(pb: Problem, ctrb: seq<int>, done: seq<bool>, view: seq<seq<Item>>, t: int, p: int)
    requires QueuesOk(pb.cand, ctrb, done, view, pb.nbcores) && 0 <= p < pb.nbcores && t in Held(view, pb.nbcores, p)
    ensures 0 <= t < |pb.cand| && ctrb[t] == 0 && Candidate(pb.cand, t, p)
  {
    assert HeldOk(pb.cand, ctrb, done, Held(view, pb.nbcores, p), p, t);
  }

  /** A heap lost tasks already mapped only, or one occurrence of the chosen task. */
  ghost predicate MappedDropped(ownetab: seq<int>, was: seq<Item>, now: seq<Item>, task: int) {
    forall t :: DropOk(ownetab, was, now, task, t)
  }

  ghost predicate DropOk(ownetab: seq<int>, was: seq<Item>, now: seq<Item>, task: int, t: int) {
    && Elts(now)[t] <= Elts(was)[t]
    && (0 <= t < |ownetab| && ownetab[t] < 0 && t != task ==> Elts(now)[t] == Elts(was)[t])
  }

  lemma HeadInRange(ownetab: seq<int>, was: seq<Item>, now: seq<Item>)
    requires MappedDropped(ownetab, was, now, -1) && now != []
    requires forall t :: t in Elts(was) ==> 0 <= t < |ownetab|
    ensures 0 <= now[0].elt < |ownetab|
  {
    HeadIsHeld(now);
    assert DropOk(ownetab, was, now, -1, now[0].elt);
  }

  lemma NothingDropped(ownetab: seq<int>, was: seq<Item>, task: int)
    ensures MappedDropped(ownetab, was, was, task)
  {
    forall t ensures DropOk(ownetab, was, was, task, t) {
    }
  }

  lemma DropHead(ownetab: seq<int>, was: seq<Item>, now: seq<Item>, task: int)
    requires MappedDropped(ownetab, was, now, -1) && now != []
    requires now[0].elt == task || (0 <= now[0].elt < |ownetab| && ownetab[now[0].elt] >= 0)
    ensures MappedDropped(ownetab, was, Popped(now), task)
  {
    PoppedItems(now);
    var after := Popped(now);
    forall t ensures DropOk(ownetab, was, after, task, t) {
      assert DropOk(ownetab, was, now, -1, t);
    }
  }

  lemma HeldReplace(view: seq<seq<Item>>, P: int, q: int, v: seq<Item>, p: int, t: int)
    requires |view| == 2 * P && 0 <= q < 2 * P && 0 <= p < P
    ensures q == p || q == P + p ==> Held(view[q := v], P, p)[t] + Elts(view[q])[t] == Held(view, P, p)[t] + Elts(v)[t]
    ensures q != p && q != P + p ==> Held(view[q := v], P, p)[t] == Held(view, P, p)[t]
  {
  }

  /** One heap loses tasks already mapped only, or the chosen task of the chosen processor. */
  lemma TakenMore(pb: Problem, before: seq<seq<Item>>, view: seq<seq<Item>>, ownetab: seq<int>, q: int, v: seq<Item>,
                  task: int, proc: int)
    requires Taken(pb, before, view, ownetab, -1, -1) && 0 <= q < 2 * pb.nbcores
    requires task == -1 || 0 <= proc < pb.nbcores
    requires MappedDropped(ownetab, view[q], v, if q == proc || q == pb.nbcores + proc then task else -1)
    ensures Taken(pb, before, view[q := v], ownetab, task, proc)
  {
    var after := view[q := v];
    forall p, t | 0 <= p < pb.nbcores ensures TakenFrom(pb, before, after, ownetab, task, proc, p, t) {
      TakenMoreOf(pb, before, view, ownetab, q, v, task, proc, p, t);
    }
  }

  lemma TakenMoreOf(pb: Problem, before: seq<seq<Item>>, view: seq<seq<Item>>, ownetab: seq<int>, q: int, v: seq<Item>,
                    task: int, proc: int, p: int, t: int)
    requires Taken(pb, before, view, ownetab, -1, -1) && 0 <= q < 2 * pb.nbcores
    requires task == -1 || 0 <= proc < pb.nbcores
    requires MappedDropped(ownetab, view[q], v, if q == proc || q == pb.nbcores + proc then task else -1)
    requires 0 <= p < pb.nbcores
    ensures TakenFrom(pb, before, view[q := v], ownetab, task, proc, p, t)
  {
    assert TakenFrom(pb, before, view, ownetab, -1, -1, p, t);
    HeldReplace(view, pb.nbcores, q, v, p, t);
    assert DropOk(ownetab, view[q], v, if q == proc || q == pb.nbcores + proc then task else -1, t);
  }

  lemma TakenWeaker(pb: Problem, before: seq<seq<Item>>, view: seq<seq<Item>>, ownetab: seq<int>, task: int, proc: int)
    requires Taken(pb, before, view, ownetab, -1, -1)
    ensures Taken(pb, before, view, ownetab, task, proc)
  {
    forall p, t | 0 <= p < pb.nbcores ensures TakenFrom(pb, before, view, ownetab, task, proc, p, t) {
      assert TakenFrom(pb, before, view, ownetab, -1, -1, p, t);
    }
  }

  /** A heap of the current view only holds tasks the heaps held before. */
  lemma TakenHolds(pb: Problem, ctrb: seq<int>, done: seq<bool>, before: seq<seq<Item>>, view: seq<seq<Item>>,
                   ownetab: seq<int>, q: int)
    requires QueuesOk(pb.cand, ctrb, done, before, pb.nbcores)
    requires Taken(pb, before, view, ownetab, -1, -1) && 0 <= q < 2 * pb.nbcores
    ensures forall t :: t in Elts(view[q]) ==> 0 <= t < |pb.cand|
    ensures forall t :: t in Elts(view[q]) ==>
              t in Held(before, pb.nbcores, if q < pb.nbcores then q else q - pb.nbcores)
  {
    var p := if q < pb.nbcores then q else q - pb.nbcores;
    forall t | t in Elts(view[q]) ensures 0 <= t < |pb.cand| && t in Held(before, pb.nbcores, p) {
      assert TakenFrom(pb, before, view, ownetab, -1, -1, p, t);
      assert HeldOk(pb.cand, ctrb, done, Held(before, pb.nbcores, p), p, t);
    }
  }

  /** The first task a processor would run: head of its ready heap, else of its future heap. */
  ghost function HeadTask(view: seq<seq<Item>>, P: int, p: int): int
    requires |view| == 2 * P && 0 <= p < P
  {
    if view[p] != [] then view[p][0].elt else if view[P + p] != [] then view[P + p][0].elt else -1
  }

  lemma HeadsKept(before: seq<seq<Item>>, view: seq<seq<Item>>, P: int, p: int)
    requires |before| == |view| == 2 * P && 0 <= p < P
    requires forall q :: 0 <= q < 2 * P && q != p && q != P + p ==> view[q] == before[q]
    ensures forall r :: 0 <= r < P && r != p ==> HeadTask(view, P, r) == HeadTask(before, P, r)
  {
  }

  lemma HeadWasHeld(pb: Problem, before: seq<seq<Item>>, view: seq<seq<Item>>, ownetab: seq<int>, p: int)
    requires 0 <= p < pb.nbcores && Taken(pb, before, view, ownetab, -1, -1)
    requires HeadTask(view, pb.nbcores, p) != -1
    ensures HeadTask(view, pb.nbcores, p) in Held(before, pb.nbcores, p)
  {
    var q := if view[p] != [] then p else pb.nbcores + p;
    HeadIsHeld(view[q]);
    assert TakenFrom(pb, before, view, ownetab, -1, -1, p, view[q][0].elt);
  }

  /** Date at which processor p could start task t. */
  function ReadyTime(timer: seq<real>, time: seq<real>, p: int, t: int): real
    requires 0 <= p < |timer| && 0 <= t < |time|
  {
    MaxReal(MaxReal(timer[p], FTGT_TIME), time[t])
  }

  /** The best couple found so far; its date is meaningful once there is a task, and the
      clock once it was recorded (the source starts both from a huge constant). */
  datatype Choice = Choice(proc: int, task: int, ready: real, clock: real, clockset: bool)

  /** The two comparisons of the search. The first one breaks ties on the clocks and is the
      only one that records a clock; the second one keeps the earliest date. */
  function Consider(best: Choice, p: int, t: int, ready: real, clock: real): (c: Choice)
    requires t != -1
    ensures c.task != -1 && c.ready <= ready && (best.task != -1 ==> c.ready <= best.ready)
    ensures (c.task == t && c.proc == p && c.ready == ready)
            || (c.task == best.task && c.proc == best.proc && c.ready == best.ready)
  {
    var tied := if best.task != -1 && ready == best.ready && (!best.clockset || clock < best.clock)
                then Choice(p, t, ready, clock, true) else best;
    if tied.task == -1 || ready < tied.ready then Choice(p, t, ready, tied.clock, tied.clockset) else tied
  }

  /** Processor p has no task, or an unmapped one that it cannot start before the date. */
  ghost predicate NotBefore(view: seq<seq<Item>>, timer: seq<real>, time: seq<real>, ownetab: seq<int>, p: int,
                            date: real)
    requires |view| == 2 * |timer| && |ownetab| == |time| && 0 <= p < |timer|
  {
    var h := HeadTask(view, |timer|, p);
    h == -1 || (0 <= h < |time| && ownetab[h] < 0 && date <= ReadyTime(timer, time, p, h))
  }

  /** The date of a search can only go down, or be set when no processor had a task. */
  lemma NotBeforeKept(before: seq<seq<Item>>, view: seq<seq<Item>>, timer: seq<real>, time: seq<real>,
                      ownetab: seq<int>, p: int, was: real, date: real)
    requires |before| == |view| == 2 * |timer| && |ownetab| == |time| && 0 <= p < |timer|
    requires forall q :: 0 <= q < 2 * |timer| && q != p && q != |timer| + p ==> view[q] == before[q]
    requires forall r :: 0 <= r < p ==> NotBefore(before, timer, time, ownetab, r, was)
    requires date <= was || forall r :: 0 <= r < p ==> HeadTask(before, |timer|, r) == -1
    ensures forall r :: 0 <= r < p ==> NotBefore(view, timer, time, ownetab, r, date)
  {
    forall r | 0 <= r < p ensures NotBefore(view, timer, time, ownetab, r, date) {
      assert NotBefore(before, timer, time, ownetab, r, was);
      assert view[r] == before[r] && view[|timer| + r] == before[|timer| + r];
    }
  }

  /** Once the chosen task is mapped the heaps are consistent again. */
  lemma QueuesAfterChoice(pb: Problem, ctrb: seq<int>, before: seq<seq<Item>>, view: seq<seq<Item>>, ownetab: seq<int>,
                          task: int, proc: int)
    requires QueuesOk(pb.cand, ctrb, Done(ownetab), before, pb.nbcores)
    requires Taken(pb, before, view, ownetab, task, proc)
    requires 0 <= task < |ownetab| && 0 <= proc
    ensures QueuesOk(pb.cand, ctrb, Done(ownetab[task := proc]), view, pb.nbcores)
  {
    var done := Done(ownetab[task := proc]);
    forall p, t | 0 <= p < pb.nbcores
      ensures HeldOk(pb.cand, ctrb, done, Held(view, pb.nbcores, p), p, t)
    {
      assert HeldOk(pb.cand, ctrb, Done(ownetab), Held(before, pb.nbcores, p), p, t);
      assert TakenFrom(pb, before, view, ownetab, task, proc, p, t);
    }
  }

  // ----- Dates -----

  /** Simulated duration of the task of column block c. */
  ghost function TaskCost(pb: Problem, c: int): real
    requires ValidProblem(pb) && 0 <= c < |pb.cand|
  {
    assert ValidColumn(pb.symb, c);
    SumCost(pb.blokcost, pb.symb.First(c), pb.symb.Last(c))
  }

  /** Time from the start of task i to the date at which its block j has been applied. */
  ghost function Delay(pb: Problem, i: int, j: int): real
    requires ValidProblem(pb) && 0 <= i < |pb.cand| && pb.symb.First(i) <= j < pb.symb.Last(i)
  {
    assert ValidColumn(pb.symb, i);
    SumCost(pb.blokcost, pb.symb.First(i), j + 1)
  }

  function Raise(time: seq<real>, c: int, t: real): (r: seq<real>)
    requires 0 <= c < |time|
    ensures |r| == |time|
  {
    if t > time[c] then time[c := t] else time
  }

  /** Ready dates after task i, started at date st, has applied its blocks below j. */
  ghost function RaisedTimes(pb: Problem, time: seq<real>, i: int, st: real, j: int): (r: seq<real>)
    requires ValidProblem(pb) && 0 <= i < |pb.cand| && |time| == |pb.cand|
    requires pb.symb.First(i) < j <= pb.symb.Last(i)
    ensures |r| == |time|
    decreases j
  {
    if j == pb.symb.First(i) + 1 then time
    else
      assert ValidColumn(pb.symb, i);
      assert ValidBlok(pb.symb, i, j - 1);
      Raise(RaisedTimes(pb, time, i, st, j - 1), pb.symb.bloktab[j - 1].fcblknm, st + Delay(pb, i, j - 1))
  }

  lemma UpdateTwice(s: seq<real>, i: int, x: real, y: real)
    requires 0 <= i < |s|
    ensures s[i := x][i := y] == s[i := y]
  {
  }

  predicate RaisedOnce(before: seq<real>, after: seq<real>, c: int, t: real, once: bool)
    requires 0 <= c < |before|
  {
    after == if once then Raise(before, c, t) else before
  }

  lemma RaiseTwice(time: seq<real>, c: int, t: real)
    requires 0 <= c < |time|
    ensures Raise(Raise(time, c, t), c, t) == Raise(time, c, t)
  {
  }

  /** Ready dates never decrease, and cover the date of every applied block. */
  lemma {:induction false} RaisedTimesCover(pb: Problem, time: seq<real>, i: int, st: real, j: int)
    requires ValidProblem(pb) && 0 <= i < |pb.cand| && |time| == |pb.cand|
    requires pb.symb.First(i) < j <= pb.symb.Last(i)
    ensures forall c :: 0 <= c < |time| ==> RaisedTimes(pb, time, i, st, j)[c] >= time[c]
    ensures forall b, c :: Edge(pb.symb, i, b, c) && b < j ==>
              0 <= c < |time| && RaisedTimes(pb, time, i, st, j)[c] >= st + Delay(pb, i, b)
    ensures forall c :: 0 <= c < |time| && (forall b :: !Edge(pb.symb, i, b, c)) ==>
              RaisedTimes(pb, time, i, st, j)[c] == time[c]
    decreases j
  {
    assert ValidColumn(pb.symb, i);
    if j > pb.symb.First(i) + 1 {
      assert ValidBlok(pb.symb, i, j - 1);
      RaisedTimesCover(pb, time, i, st, j - 1);
      assert Edge(pb.symb, i, j - 1, pb.symb.bloktab[j - 1].fcblknm);
    }
  }

  /** A raised ready date is the date of one of the applied blocks. */
  lemma {:induction false} RaisedTimesAttained(pb: Problem, time: seq<real>, i: int, st: real, j: int, c: int)
    returns (b: int)
    requires ValidProblem(pb) && 0 <= i < |pb.cand| && |time| == |pb.cand| && 0 <= c < |time|
    requires pb.symb.First(i) < j <= pb.symb.Last(i)
    requires RaisedTimes(pb, time, i, st, j)[c] != time[c]
    ensures Edge(pb.symb, i, b, c) && RaisedTimes(pb, time, i, st, j)[c] == st + Delay(pb, i, b)
    decreases j
  {
    assert ValidColumn(pb.symb, i);
    assert ValidBlok(pb.symb, i, j - 1);
    if RaisedTimes(pb, time, i, st, j)[c] == RaisedTimes(pb, time, i, st, j - 1)[c] {
      b := RaisedTimesAttained(pb, time, i, st, j - 1, c);
    } else {
      b := j - 1;
    }
  }

  // ----- Invariants of the run -----

  ghost predicate OwnersOk(pb: Problem, ownetab: seq<int>, ownerclust: seq<int>)
    requires ValidProblem(pb)
  {
    && |ownetab| == |pb.cand| && |ownerclust| == |pb.symb.bloktab|
    && (forall c :: 0 <= c < |ownetab| ==> OwnerOk(pb, ownetab, c))
    && (forall c, b :: 0 <= c < |ownetab| && 0 <= b < |ownerclust| ==> BlokOwner(pb, ownetab, ownerclust, c, b))
  }

  ghost predicate OwnerOk(pb: Problem, ownetab: seq<int>, c: int)
    requires 0 <= c < |ownetab| == |pb.cand|
  {
    ownetab[c] == -1 || Candidate(pb.cand, c, ownetab[c])
  }

  ghost predicate BlokOwner(pb: Problem, ownetab: seq<int>, ownerclust: seq<int>, c: int, b: int)
    requires ValidProblem(pb) && 0 <= c < |ownetab| == |pb.cand| && 0 <= b < |ownerclust|
  {
    pb.symb.First(c) <= b < pb.symb.Last(c) ==> ownerclust[b] == if ownetab[c] >= 0 then 0 else -1
  }

  /** Mapping column block c gives an owner to all its blocks and to no other. */
  ghost predicate OwnedUpTo(pb: Problem, before: seq<int>, ownerclust: seq<int>, c: int, k: int)
    requires ValidProblem(pb) && 0 <= c < |pb.cand|
  {
    && |before| == |ownerclust| == |pb.symb.bloktab|
    && forall b :: 0 <= b < |ownerclust| ==> ownerclust[b] == if pb.symb.First(c) <= b < k then 0 else before[b]
  }

  lemma CountDoneAll(done: seq<bool>, k: int)
    requires 0 <= k <= |done| && forall c :: 0 <= c < |done| ==> done[c]
    ensures CountDone(done, k) == k
    decreases k
  {
    if k > 0 { CountDoneAll(done, k - 1); }
  }

  lemma OwnersStart(pb: Problem)
    requires ValidProblem(pb)
    ensures OwnersOk(pb, seq(|pb.cand|, _ => -1), seq(|pb.symb.bloktab|, _ => -1))
  {
  }

  /** Empty heaps are right while no task is ready. */
  lemma QueuesStart(pb: Problem, ctrb: seq<int>, view: seq<seq<Item>>)
    requires ValidProblem(pb) && |ctrb| == |pb.cand| && |view| == 2 * pb.nbcores
    requires forall q :: 0 <= q < |view| ==> view[q] == []
    ensures QueuesFilled(pb, ctrb, view, 0)
  {
    forall p, t | 0 <= p < pb.nbcores ensures FilledOk(pb, ctrb, view, 0, p, t) {
    }
  }

  /** The heaps once the ready tasks below i have been pushed. */
  ghost predicate QueuesFilled(pb: Problem, ctrb: seq<int>, view: seq<seq<Item>>, i: int) {
    && |ctrb| == |pb.cand| && |view| == 2 * pb.nbcores
    && forall p, t :: 0 <= p < pb.nbcores ==> FilledOk(pb, ctrb, view, i, p, t)
  }

  ghost predicate FilledOk(pb: Problem, ctrb: seq<int>, view: seq<seq<Item>>, i: int, p: int, t: int)
    requires |ctrb| == |pb.cand| && |view| == 2 * pb.nbcores && 0 <= p < pb.nbcores
  {
    Held(view, pb.nbcores, p)[t]
    == if 0 <= t < i && t < |ctrb| && ctrb[t] == 0 && Candidate(pb.cand, t, p) then 1 else 0
  }

  lemma QueuesFill(pb: Problem, ctrb: seq<int>, before: seq<seq<Item>>, view: seq<seq<Item>>, i: int)
    requires QueuesFilled(pb, ctrb, before, i) && 0 <= i < |ctrb| && |view| == 2 * pb.nbcores
    requires forall p :: 0 <= p < pb.nbcores ==>
               Held(view, pb.nbcores, p) == Held(before, pb.nbcores, p)
                                            + if ctrb[i] == 0 && Candidate(pb.cand, i, p) then multiset{i}
                                                else multiset{}
    ensures QueuesFilled(pb, ctrb, view, i + 1)
  {
    var next := i + 1;
    forall p, t | 0 <= p < pb.nbcores ensures FilledOk(pb, ctrb, view, next, p, t) {
      assert FilledOk(pb, ctrb, before, i, p, t);
    }
  }

  /** The heaps of the candidates after the task of column block i was put in them, if it is ready. */
  ghost predicate PutIfReady(pb: Problem, timer: seq<real>, time: seq<real>, before: seq<seq<Item>>,
                             view: seq<seq<Item>>, i: int, ready: bool)
    requires 0 <= i < |pb.cand| == |time| && |pb.cand| <= |pb.symb.cblktab| && |before| == 2 * pb.nbcores
    requires 0 <= pb.cand[i].fcandnum <= pb.cand[i].lcandnum < pb.nbcores == |timer|
  {
    view == if ready then PutUpTo(pb, timer, time, before, i, pb.cand[i].fcandnum, pb.cand[i].lcandnum + 1) else before
  }

  lemma FillReady(pb: Problem, timer: seq<real>, time: seq<real>, ctrb: seq<int>, before: seq<seq<Item>>,
                  view: seq<seq<Item>>, i: int)
    requires QueuesFilled(pb, ctrb, before, i) && 0 <= i < |ctrb| && |time| == |pb.cand| <= |pb.symb.cblktab|
    requires 0 <= pb.cand[i].fcandnum <= pb.cand[i].lcandnum < pb.nbcores == |timer|
    requires PutIfReady(pb, timer, time, before, view, i, ctrb[i] == 0)
    ensures QueuesFilled(pb, ctrb, view, i + 1)
  {
    if ctrb[i] == 0 {
      HeldByCandidates(pb, timer, time, before, i, pb.cand[i].fcandnum, pb.cand[i].lcandnum + 1);
    }
    QueuesFill(pb, ctrb, before, view, i);
  }

  lemma StepReady(pb: Problem, timer: seq<real>, time: seq<real>, ctrb: seq<int>, done: seq<bool>,
                  before: seq<seq<Item>>, view: seq<seq<Item>>, c: int)
    requires QueuesOk(pb.cand, ctrb, done, before, pb.nbcores) && 0 <= c < |ctrb| && ctrb[c] > 0
    requires |time| == |pb.cand| <= |pb.symb.cblktab|
    requires 0 <= pb.cand[c].fcandnum <= pb.cand[c].lcandnum < pb.nbcores == |timer|
    requires PutIfReady(pb, timer, time, before, view, c, ctrb[c] == 1)
    ensures QueuesOk(pb.cand, ctrb[c := ctrb[c] - 1], done, view, pb.nbcores)
  {
    if ctrb[c] == 1 {
      HeldByCandidates(pb, timer, time, before, c, pb.cand[c].fcandnum, pb.cand[c].lcandnum + 1);
    }
    QueuesStep(pb.cand, ctrb, done, before, view, pb.nbcores, c);
  }

  lemma QueuesFull(pb: Problem, ctrb: seq<int>, view: seq<seq<Item>>, done: seq<bool>)
    requires QueuesFilled(pb, ctrb, view, |ctrb|) && |done| == |ctrb|
    ensures QueuesOk(pb.cand, ctrb, done, view, pb.nbcores)
  {
    forall p, t | 0 <= p < pb.nbcores ensures HeldOk(pb.cand, ctrb, done, Held(view, pb.nbcores, p), p, t) {
      assert FilledOk(pb, ctrb, view, |ctrb|, p, t);
    }
  }

  /** When every heap is empty there is nothing left to do. */
  lemma NothingLeft(pb: Problem, blokctrb: seq<int>, ctrb: seq<int>, before: seq<seq<Item>>, view: seq<seq<Item>>,
                    ownetab: seq<int>)
    requires ValidProblem(pb) && CountsOk(pb.symb, Done(ownetab), blokctrb) && SumsOk(pb.symb, blokctrb, ctrb)
    requires QueuesOk(pb.cand, ctrb, Done(ownetab), before, pb.nbcores)
    requires Taken(pb, before, view, ownetab, -1, -1)
    requires forall p :: 0 <= p < pb.nbcores ==> HeadTask(view, pb.nbcores, p) == -1
    ensures forall c :: 0 <= c < |ownetab| ==> ownetab[c] >= 0
  {
    if c :| 0 <= c < |ownetab| && ownetab[c] < 0 {
      var r := SomeReady(pb.symb, Done(ownetab), blokctrb, ctrb, c);
      var p := pb.cand[r].fcandnum;
      assert HeldOk(pb.cand, ctrb, Done(ownetab), Held(before, pb.nbcores, p), p, r);
      assert TakenFrom(pb, before, view, ownetab, -1, -1, p, r);
      NoHeadNoTask(pb, before, view, ownetab, ctrb, p);
      assert false;
    }
  }

  lemma NoHeadNoTask(pb: Problem, before: seq<seq<Item>>, view: seq<seq<Item>>, ownetab: seq<int>, ctrb: seq<int>,
                     p: int)
    requires QueuesOk(pb.cand, ctrb, Done(ownetab), before, pb.nbcores)
    requires Taken(pb, before, view, ownetab, -1, -1) && 0 <= p < pb.nbcores
    requires HeadTask(view, pb.nbcores, p) == -1
    ensures Held(view, pb.nbcores, p) == multiset{}
  {
    TakenHolds(pb, ctrb, Done(ownetab), before, view, ownetab, p);
    TakenHolds(pb, ctrb, Done(ownetab), before, view, ownetab, pb.nbcores + p);
    if view[p] != [] { HeadIsHeld(view[p]); }
    if view[pb.nbcores + p] != [] { HeadIsHeld(view[pb.nbcores + p]); }
  }

  lemma OwnersStep(pb: Problem, ownetab: seq<int>, before: seq<int>, ownerclust: seq<int>, c: int, pr: int)
    requires ValidProblem(pb) && OwnersOk(pb, ownetab, before) && 0 <= c < |ownetab| && ownetab[c] == -1
    requires OwnedUpTo(pb, before, ownerclust, c, pb.symb.Last(c)) && Candidate(pb.cand, c, pr)
    ensures OwnersOk(pb, ownetab[c := pr], ownerclust)
  {
    var after := ownetab[c := pr];
    forall d | 0 <= d < |after| ensures OwnerOk(pb, after, d) {
      assert OwnerOk(pb, ownetab, d);
    }
    forall d, b | 0 <= d < |after| && 0 <= b < |ownerclust| ensures BlokOwner(pb, after, ownerclust, d, b) {
      assert BlokOwner(pb, ownetab, before, d, b);
      if d < c { ColumnsIncrease(pb.symb, d, c); }
      if c < d { ColumnsIncrease(pb.symb, c, d); }
    }
  }

  lemma DiagonalOwner(pb: Problem, ownetab: seq<int>, ownerclust: seq<int>, c: int)
    requires ValidProblem(pb) && OwnersOk(pb, ownetab, ownerclust) && 0 <= c < |ownetab|
    ensures 0 <= pb.symb.First(c) < |ownerclust|
    ensures ownerclust[pb.symb.First(c)] >= 0 <==> ownetab[c] >= 0
  {
    assert ValidColumn(pb.symb, c);
    assert BlokOwner(pb, ownetab, ownerclust, c, pb.symb.First(c));
  }

  /** prionum numbers the tasks done 0, 1, ... in a topological order. */
  ghost predicate TopoOk(s: Symbol, done: seq<bool>, prionum: seq<int>, next: int) {
    && Valid(s) && |done| == |prionum| == s.CblkNbr() && next == CountDone(done, |done|)
    && (forall c :: 0 <= c < |done| ==> PrioOk(done, prionum, next, c))
    && (forall c, d :: 0 <= c < d < |done| ==> PrioApart(done, prionum, c, d))
    && (forall i, j, c :: Edge(s, i, j, c) ==> EdgeOk(done, prionum, i, c))
  }

  ghost predicate PrioOk(done: seq<bool>, prionum: seq<int>, next: int, c: int)
    requires 0 <= c < |done| == |prionum|
  {
    if done[c] then 0 <= prionum[c] < next else prionum[c] == -1
  }

  ghost predicate PrioApart(done: seq<bool>, prionum: seq<int>, c: int, d: int)
    requires 0 <= c < |done| == |prionum| && 0 <= d < |done|
  {
    done[c] && done[d] ==> prionum[c] != prionum[d]
  }

  /** A column block is done only after i, on which it depends. */
  ghost predicate EdgeOk(done: seq<bool>, prionum: seq<int>, i: int, c: int)
    requires |done| == |prionum| && 0 <= i < |done|
  {
    0 <= c < |done| && done[c] ==> done[i] && prionum[i] < prionum[c]
  }

  ghost function CountDone(done: seq<bool>, k: int): int
    requires 0 <= k <= |done|
    decreases k
  {
    if k == 0 then 0 else CountDone(done, k - 1) + if done[k - 1] then 1 else 0
  }

  lemma {:induction false} CountDoneUpdate(done: seq<bool>, k: int, c: int)
    requires 0 <= k <= |done| && 0 <= c < |done| && !done[c]
    ensures CountDone(done[c := true], k) == CountDone(done, k) + if c < k then 1 else 0
    ensures 0 <= CountDone(done, k) <= k && (c < k ==> CountDone(done, k) < k)
    decreases k
  {
    if k > 0 { CountDoneUpdate(done, k - 1, c); }
  }

  lemma {:induction false} CountDoneNone(done: seq<bool>, k: int)
    requires 0 <= k <= |done| && forall c :: 0 <= c < |done| ==> !done[c]
    ensures CountDone(done, k) == 0
    decreases k
  {
    if k > 0 { CountDoneNone(done, k - 1); }
  }

  /** The next task done keeps the numbering a topological one. */
  lemma TopoStep(s: Symbol, done: seq<bool>, prionum: seq<int>, next: int, c: int)
    requires TopoOk(s, done, prionum, next) && 0 <= c < |done| && !done[c]
    requires forall i, j :: Edge(s, i, j, c) ==> done[i]
    ensures TopoOk(s, done[c := true], prionum[c := next], next + 1)
  {
    CountDoneUpdate(done, |done|, c);
    var done', prionum', next' := done[c := true], prionum[c := next], next + 1;
    forall d | 0 <= d < |done'| ensures PrioOk(done', prionum', next', d) {
      assert PrioOk(done, prionum, next, d);
    }
    forall d, e | 0 <= d < e < |done'| ensures PrioApart(done', prionum', d, e) {
      assert PrioApart(done, prionum, d, e) && PrioOk(done, prionum, next, d) && PrioOk(done, prionum, next, e);
    }
    forall i, j, d | Edge(s, i, j, d) ensures EdgeOk(done', prionum', i, d) {
      EdgeUpdates(s, i, j, d);
      assert EdgeOk(done, prionum, i, d) && PrioOk(done, prionum, next, i);
    }
  }

  /** A ready date is the latest date of a contribution received so far, 0 if there is none. */
  ghost predicate ReadyDate(pb: Problem, done: seq<bool>, time: seq<real>, start: seq<real>, c: int)
    requires ValidProblem(pb) && |done| == |time| == |start| == |pb.cand| && 0 <= c < |time|
  {
    && time[c] >= 0.0
    && (forall i, j :: Edge(pb.symb, i, j, c) && done[i] ==> time[c] >= start[i] + Delay(pb, i, j))
    && (time[c] != 0.0 ==> exists i, j :: Edge(pb.symb, i, j, c) && done[i] && time[c] == start[i] + Delay(pb, i, j))
  }

  ghost predicate TimesOk(pb: Problem, done: seq<bool>, time: seq<real>, start: seq<real>) {
    && ValidProblem(pb) && |done| == |time| == |start| == |pb.cand|
    && (forall c :: 0 <= c < |time| ==> ReadyDate(pb, done, time, start, c))
    && (forall c :: 0 <= c < |time| ==> StartOk(done, time, start, c))
  }

  ghost predicate StartOk(done: seq<bool>, time: seq<real>, start: seq<real>, c: int)
    requires 0 <= c < |done| == |time| == |start|
  {
    done[c] ==> start[c] >= time[c]
  }

  /** A task starts no earlier than its ready date and then raises those of its successors. */
  lemma TimesStep(pb: Problem, done: seq<bool>, time: seq<real>, start: seq<real>, c: int, st: real)
    requires TimesOk(pb, done, time, start) && 0 <= c < |done| && !done[c] && st >= time[c]
    requires forall i, j, d :: Edge(pb.symb, i, j, d) && 0 <= d < |done| && done[d] ==> done[i]
    requires CblkOk(pb.symb, c)
    ensures TimesOk(pb, done[c := true], RaisedTimes(pb, time, c, st, pb.symb.Last(c)), start[c := st])
  {
    var s := pb.symb;
    var done', start' := done[c := true], start[c := st];
    var time' := RaisedTimes(pb, time, c, st, s.Last(c));
    RaisedTimesCover(pb, time, c, st, s.Last(c));
    forall d | 0 <= d < |time'| ensures ReadyDate(pb, done', time', start', d) {
      assert ReadyDate(pb, done, time, start, d);
      if time'[d] == time[d] {
        if time[d] != 0.0 {
          var i, j :| Edge(s, i, j, d) && done[i] && time[d] == start[i] + Delay(pb, i, j);
          assert done'[i] && start'[i] == start[i];
        }
      } else {
        var b := RaisedTimesAttained(pb, time, c, st, s.Last(c), d);
        assert done'[c] && start'[c] == st;
      }
    }
    forall d | 0 <= d < |time'| ensures StartOk(done', time', start', d) {
      assert StartOk(done, time, start, d);
      forall b ensures done'[d] ==> !Edge(s, c, b, d) {
        if done'[d] && Edge(s, c, b, d) { EdgeUpdates(s, c, b, d); }
      }
    }
  }

  // ----- Processors -----

  predicate Tasks(pb: Problem, list: seq<int>) {
    forall a :: 0 <= a < |list| ==> 0 <= list[a] < |pb.cand|
  }

  ghost function ListCost(pb: Problem, list: seq<int>): real
    requires ValidProblem(pb) && Tasks(pb, list)
  {
    if list == [] then 0.0 else ListCost(pb, list[..|list| - 1]) + TaskCost(pb, list[|list| - 1])
  }

  /** The list of processor p holds exactly its own tasks, each once. */
  ghost predicate ProcTasks(pb: Problem, ownetab: seq<int>, p: int, list: seq<int>) {
    && Tasks(pb, list) && |ownetab| == |pb.cand|
    && forall t :: multiset(list)[t] == if 0 <= t < |ownetab| && ownetab[t] == p then 1 else 0
  }

  /** The tasks of a list are in order of priority, follow one another without overlap,
      and the clock of the processor has passed them all. */
  ghost predicate ProcDates(pb: Problem, prionum: seq<int>, start: seq<real>, list: seq<int>, clock: real)
    requires ValidProblem(pb) && Tasks(pb, list) && |prionum| == |start| == |pb.cand|
  {
    && (forall a, b :: 0 <= a < b < |list| ==>
          && prionum[list[a]] < prionum[list[b]]
          && start[list[a]] + TaskCost(pb, list[a]) <= start[list[b]])
    && (forall a :: 0 <= a < |list| ==> start[list[a]] + TaskCost(pb, list[a]) <= clock)
    && clock >= 0.0 && clock >= ListCost(pb, list)
  }

  ghost predicate ProcOk(pb: Problem, ownetab: seq<int>, prionum: seq<int>, start: seq<real>,
                         p: int, list: seq<int>, clock: real)
    requires ValidProblem(pb) && |prionum| == |start| == |pb.cand|
  {
    ProcTasks(pb, ownetab, p, list) && ProcDates(pb, prionum, start, list, clock)
  }

  ghost predicate ProcsOk(pb: Problem, ownetab: seq<int>, prionum: seq<int>, start: seq<real>,
                          tasktab: seq<seq<int>>, timer: seq<real>) {
    && ValidProblem(pb) && |prionum| == |start| == |pb.cand|
    && |tasktab| == |timer| == pb.nbcores
    && forall p :: 0 <= p < pb.nbcores ==> ProcOk(pb, ownetab, prionum, start, p, tasktab[p], timer[p])
  }

  lemma MemberIsOwned(pb: Problem, ownetab: seq<int>, p: int, list: seq<int>)
    requires ProcTasks(pb, ownetab, p, list)
    ensures forall a :: 0 <= a < |list| ==> ownetab[list[a]] == p
  {
    forall a | 0 <= a < |list| ensures ownetab[list[a]] == p {
      assert list[a] in multiset(list);
    }
  }

  lemma ProcTasksStep(pb: Problem, ownetab: seq<int>, p: int, list: seq<int>, c: int, pr: int)
    requires ProcTasks(pb, ownetab, p, list) && 0 <= c < |ownetab| && ownetab[c] == -1 && 0 <= p
    ensures ProcTasks(pb, ownetab[c := pr], p, if p == pr then list + [c] else list)
  {
  }

  lemma ProcDatesKept(pb: Problem, prionum: seq<int>, start: seq<real>, list: seq<int>, clock: real, c: int, next: int,
                      st: real)
    requires ValidProblem(pb) && Tasks(pb, list) && |prionum| == |start| == |pb.cand|
    requires ProcDates(pb, prionum, start, list, clock) && 0 <= c < |start|
    requires forall a :: 0 <= a < |list| ==> list[a] != c
    ensures ProcDates(pb, prionum[c := next], start[c := st], list, clock)
  {
  }

  lemma ProcDatesAppended(pb: Problem, prionum: seq<int>, start: seq<real>, list: seq<int>, clock: real, c: int,
                          next: int, st: real)
    requires ValidProblem(pb) && Tasks(pb, list) && |prionum| == |start| == |pb.cand|
    requires ProcDates(pb, prionum, start, list, clock) && 0 <= c < |start|
    requires prionum[c] == next && start[c] == st >= clock
    requires forall a :: 0 <= a < |list| ==> prionum[list[a]] < next
    ensures ProcDates(pb, prionum, start, list + [c], st + TaskCost(pb, c))
  {
    assert ValidColumn(pb.symb, c);
    SumCostNonNegative(pb.blokcost, pb.symb.First(c), pb.symb.Last(c));
    assert (list + [c])[..|list|] == list;
  }

  /** Giving task c to processor pr at date st. */
  lemma ProcStep(pb: Problem, ownetab: seq<int>, prionum: seq<int>, start: seq<real>,
                 p: int, list: seq<int>, clock: real, c: int, pr: int, next: int, st: real)
    requires ValidProblem(pb) && |ownetab| == |prionum| == |start| == |pb.cand|
    requires ProcOk(pb, ownetab, prionum, start, p, list, clock)
    requires 0 <= c < |ownetab| && ownetab[c] == -1 && 0 <= p && (p == pr ==> st >= clock)
    requires forall t :: 0 <= t < |ownetab| && ownetab[t] >= 0 ==> prionum[t] < next
    ensures ProcOk(pb, ownetab[c := pr], prionum[c := next], start[c := st], p,
                   if p == pr then list + [c] else list, if p == pr then st + TaskCost(pb, c) else clock)
  {
    MemberIsOwned(pb, ownetab, p, list);
    ProcTasksStep(pb, ownetab, p, list, c, pr);
    ProcDatesKept(pb, prionum, start, list, clock, c, next, st);
    if p == pr {
      ProcDatesAppended(pb, prionum[c := next], start[c := st], list, clock, c, next, st);
    }
  }

  lemma ProcsStep(pb: Problem, ownetab: seq<int>, prionum: seq<int>, start: seq<real>, tasktab: seq<seq<int>>,
                  timer: seq<real>, c: int, pr: int, next: int, st: real)
    requires ProcsOk(pb, ownetab, prionum, start, tasktab, timer) && |ownetab| == |pb.cand|
    requires 0 <= c < |ownetab| && ownetab[c] == -1 && 0 <= pr < pb.nbcores && st >= timer[pr]
    requires forall t :: 0 <= t < |ownetab| && ownetab[t] >= 0 ==> prionum[t] < next
    ensures ProcsOk(pb, ownetab[c := pr], prionum[c := next], start[c := st],
                    tasktab[pr := tasktab[pr] + [c]], timer[pr := st + TaskCost(pb, c)])
  {
    var ow, pn, sd := ownetab[c := pr], prionum[c := next], start[c := st];
    var tt, tm := tasktab[pr := tasktab[pr] + [c]], timer[pr := st + TaskCost(pb, c)];
    forall p | 0 <= p < pb.nbcores ensures ProcOk(pb, ow, pn, sd, p, tt[p], tm[p]) {
      assert ProcOk(pb, ownetab, prionum, start, p, tasktab[p], timer[p]);
      ProcStep(pb, ownetab, prionum, start, p, tasktab[p], timer[p], c, pr, next, st);
    }
  }
}

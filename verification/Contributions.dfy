/** Counting the updates of a symbolic structure: how many updates of the column blocks
    that are not yet computed still have to reach a block. */
module Contributions {
  import opened SymbolMatrix

  /** Updates of the pairs (j, k), (j, k+1), ... of column block i that reach block b. */
  ghost function RowUpdates(s: Symbol, i: int, j: int, k: int, b: int): nat
    requires Valid(s) && 0 <= i < s.CblkNbr() && s.First(i) < j <= k <= s.Last(i)
    decreases s.Last(i) - k
  {
    if k == s.Last(i) then 0
    else
      PairInRange(s, i, j, k);
      (if Facing(s, j, k) == b then 1 else 0) + RowUpdates(s, i, j, k + 1, b)
  }

  /** Updates of all pairs whose first block is j or later. */
  ghost function UpdatesFrom(s: Symbol, i: int, j: int, b: int): nat
    requires Valid(s) && 0 <= i < s.CblkNbr() && s.First(i) < j <= s.Last(i)
    decreases s.Last(i) - j
  {
    if j == s.Last(i) then 0 else RowUpdates(s, i, j, j, b) + UpdatesFrom(s, i, j + 1, b)
  }

  ghost function Updates(s: Symbol, i: int, b: int): nat
    requires Valid(s) && 0 <= i < s.CblkNbr()
  {
    assert CblkOk(s, i);
    UpdatesFrom(s, i, s.First(i) + 1, b)
  }

  /** Updates of column block i that follow pair (j, k) in loop order, (j, k) included. */
  ghost function Rest(s: Symbol, i: int, j: int, k: int, b: int): nat
    requires Valid(s) && 0 <= i < s.CblkNbr() && s.First(i) < j <= k <= s.Last(i) && j < s.Last(i)
  {
    RowUpdates(s, i, j, k, b) + UpdatesFrom(s, i, j + 1, b)
  }

  /** Updates to b of the column blocks i, i+1, ... that are not done. */
  ghost function Pending(s: Symbol, done: seq<bool>, i: int, b: int): nat
    requires Valid(s) && |done| == s.CblkNbr() && 0 <= i <= |done|
    decreases |done| - i
  {
    if i == |done| then 0 else (if done[i] then 0 else Updates(s, i, b)) + Pending(s, done, i + 1, b)
  }

  ghost function SumRange(v: seq<int>, lo: int, hi: int): int
    requires 0 <= lo <= hi <= |v|
    decreases hi - lo
  {
    if lo == hi then 0 else SumRange(v, lo, hi - 1) + v[hi - 1]
  }

  lemma {:induction false} SumRangeUpdate(v: seq<int>, lo: int, hi: int, b: int, x: int)
    requires 0 <= lo <= hi <= |v| && 0 <= b < |v|
    ensures SumRange(v[b := x], lo, hi) == SumRange(v, lo, hi) + if lo <= b < hi then x - v[b] else 0
    decreases hi - lo
  {
    if lo < hi { SumRangeUpdate(v, lo, hi - 1, b, x); }
  }

  lemma {:induction false} SumRangeNonNegative(v: seq<int>, lo: int, hi: int)
    requires 0 <= lo <= hi <= |v|
    requires forall b :: lo <= b < hi ==> v[b] >= 0
    ensures SumRange(v, lo, hi) >= 0
    ensures SumRange(v, lo, hi) == 0 <==> forall b :: lo <= b < hi ==> v[b] == 0
    decreases hi - lo
  {
    if lo < hi { SumRangeNonNegative(v, lo, hi - 1); }
  }

  // ----- Which column blocks an update can reach -----

  /** Column block i has an off-diagonal block that faces c: c depends on i. */
  ghost predicate Edge(s: Symbol, i: int, j: int, c: int) {
    && Valid(s) && 0 <= i < s.CblkNbr() && s.First(i) < j < s.Last(i)
    && 0 <= j < |s.bloktab| && s.bloktab[j].fcblknm == c
  }

  lemma {:induction false} RowUpdatesReach(s: Symbol, i: int, j: int, k: int, b: int)
    requires Valid(s) && 0 <= i < s.CblkNbr() && s.First(i) < j <= k <= s.Last(i)
    requires 0 <= b && RowUpdates(s, i, j, k, b) > 0
    ensures j < s.Last(i) && exists c :: Edge(s, i, j, c) && 0 <= c < s.CblkNbr() && s.First(c) <= b < s.Last(c)
    decreases s.Last(i) - k
  {
    PairInRange(s, i, j, k);
    if Facing(s, j, k) == b {
      assert Edge(s, i, j, s.bloktab[j].fcblknm);
    } else {
      RowUpdatesReach(s, i, j, k + 1, b);
    }
  }

  lemma {:induction false} UpdatesFromReach(s: Symbol, i: int, j: int, b: int)
    requires Valid(s) && 0 <= i < s.CblkNbr() && s.First(i) < j <= s.Last(i)
    requires 0 <= b && UpdatesFrom(s, i, j, b) > 0
    ensures exists j', c :: Edge(s, i, j', c) && 0 <= c < s.CblkNbr() && s.First(c) <= b < s.Last(c)
    decreases s.Last(i) - j
  {
    if RowUpdates(s, i, j, j, b) > 0 {
      RowUpdatesReach(s, i, j, j, b);
    } else {
      UpdatesFromReach(s, i, j + 1, b);
    }
  }

  /** An update of i can only reach a column block that i has a block in front of. */
  lemma UpdatesReach(s: Symbol, i: int, c: int, b: int)
    requires Valid(s) && 0 <= i < s.CblkNbr() && 0 <= c < s.CblkNbr() && s.First(c) <= b < s.Last(c)
    requires Updates(s, i, b) > 0
    ensures i < c && exists j :: Edge(s, i, j, c)
  {
    assert ValidColumn(s, i) && ValidColumn(s, c);
    UpdatesFromReach(s, i, s.First(i) + 1, b);
    var j, c' :| Edge(s, i, j, c') && 0 <= c' < s.CblkNbr() && s.First(c') <= b < s.Last(c');
    if c < c' { ColumnsIncrease(s, c, c'); }
    if c' < c { ColumnsIncrease(s, c', c); }
    FacesLater(s, i, j);
  }

  lemma {:induction false} UpdatesFromDiagonal(s: Symbol, i: int, j: int, j': int)
    requires Valid(s) && 0 <= i < s.CblkNbr() && s.First(i) < j <= j' < s.Last(i)
    ensures 0 <= j' < |s.bloktab| && 0 <= s.bloktab[j'].fcblknm < s.CblkNbr()
    ensures UpdatesFrom(s, i, j, s.First(s.bloktab[j'].fcblknm)) > 0
    decreases j' - j
  {
    FacingDiagonal(s, i, j');
    if j < j' {
      UpdatesFromDiagonal(s, i, j + 1, j');
    }
  }

  /** Every block of i produces an update to the diagonal block it faces. */
  lemma EdgeUpdates(s: Symbol, i: int, j: int, c: int)
    requires Edge(s, i, j, c)
    ensures i < c < s.CblkNbr() && Updates(s, i, s.First(c)) > 0
  {
    assert ValidColumn(s, i);
    FacesLater(s, i, j);
    UpdatesFromDiagonal(s, i, s.First(i) + 1, j);
  }

  // ----- Pending updates -----

  lemma PendingUnfold(s: Symbol, done: seq<bool>, i: int, b: int)
    requires Valid(s) && |done| == s.CblkNbr() && 0 <= i < |done| && !done[i]
    ensures Pending(s, done, i, b) == Updates(s, i, b) + Pending(s, done, i + 1, b)
  {
  }

  lemma RowUnfold(s: Symbol, i: int, j: int, k: int, b: int)
    requires UpdatePair(s, i, j, k)
    ensures 0 <= j <= k < |s.bloktab| && 0 <= s.bloktab[j].fcblknm < s.CblkNbr()
    ensures Rest(s, i, j, k, b) == (if Facing(s, j, k) == b then 1 else 0) + Rest(s, i, j, k + 1, b)
  {
    PairInRange(s, i, j, k);
  }

  lemma {:induction false} PendingDone(s: Symbol, done: seq<bool>, i: int, b: int, c: int)
    requires Valid(s) && |done| == s.CblkNbr() && 0 <= i <= |done|
    requires 0 <= c < |done| && !done[c]
    ensures Pending(s, done, i, b) == Pending(s, done[c := true], i, b) + if i <= c then Updates(s, c, b) else 0
    decreases |done| - i
  {
    if i < |done| { PendingDone(s, done, i + 1, b, c); }
  }

  lemma {:induction false} PendingAtLeast(s: Symbol, done: seq<bool>, i: int, b: int, c: int)
    requires Valid(s) && |done| == s.CblkNbr() && 0 <= i <= c < |done| && !done[c]
    ensures Pending(s, done, i, b) >= Updates(s, c, b)
    decreases |done| - i
  {
    if i < c { PendingAtLeast(s, done, i + 1, b, c); }
  }

  lemma {:induction false} PendingNone(s: Symbol, done: seq<bool>, i: int, b: int)
    requires Valid(s) && |done| == s.CblkNbr() && 0 <= i <= |done|
    requires forall c :: i <= c < |done| && !done[c] ==> Updates(s, c, b) == 0
    ensures Pending(s, done, i, b) == 0
    decreases |done| - i
  {
    if i < |done| { PendingNone(s, done, i + 1, b); }
  }

  // ----- Costs of blocks -----

  ghost function SumCost(v: seq<real>, lo: int, hi: int): real
    requires 0 <= lo <= hi <= |v|
    decreases hi - lo
  {
    if lo == hi then 0.0 else SumCost(v, lo, hi - 1) + v[hi - 1]
  }

  lemma {:induction false} SumCostSplit(v: seq<real>, lo: int, mid: int, hi: int)
    requires 0 <= lo <= mid <= hi <= |v|
    ensures SumCost(v, lo, hi) == SumCost(v, lo, mid) + SumCost(v, mid, hi)
    decreases hi - mid
  {
    if mid < hi { SumCostSplit(v, lo, mid, hi - 1); }
  }

  lemma {:induction false} SumCostNonNegative(v: seq<real>, lo: int, hi: int)
    requires 0 <= lo <= hi <= |v|
    requires forall b :: 0 <= b < |v| ==> v[b] >= 0.0
    ensures SumCost(v, lo, hi) >= 0.0
    decreases hi - lo
  {
    if lo < hi { SumCostNonNegative(v, lo, hi - 1); }
  }
}

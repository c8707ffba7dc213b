/** The row table of blend/solver_matrix_gen.c: for every column block the blocks that face it.
    When a column block is computed by 2D tasks, its slice is reordered so that the blocks of
    column blocks without 2D tasks come first, in two passes that mark what the first one took. */
module RowTable {
  import opened SymbolMatrix

  // ----- A stable partition -----

  /** Block b is known, and the type of the column block it belongs to. */
  predicate Known(s: Symbol, two: seq<bool>, b: int) {
    0 <= b < |s.bloktab| && 0 <= s.bloktab[b].lcblknm < |two|
  }
  ghost predicate AllKnown(s: Symbol, two: seq<bool>, v: seq<int>) { forall k :: 0 <= k < |v| ==> Known(s, two, v[k]) }

  /** Block b belongs to a column block with 2D tasks. */
  predicate IsTwo(s: Symbol, two: seq<bool>, b: int)
    requires Known(s, two, b)
  {
    two[s.bloktab[b].lcblknm]
  }

  /** The blocks of v with 2D tasks, or those without, in their order. */
  ghost function Kept(s: Symbol, two: seq<bool>, v: seq<int>, want: bool): (r: seq<int>)
    requires AllKnown(s, two, v)
    ensures |r| <= |v|
  {
    if v == [] then []
    else
      var n := |v| - 1;
      assert Known(s, two, v[n]);
      Kept(s, two, v[..n], want) + if IsTwo(s, two, v[n]) == want then [v[n]] else []
  }

  ghost function Partitioned(s: Symbol, two: seq<bool>, v: seq<int>): seq<int>
    requires AllKnown(s, two, v)
  {
    Kept(s, two, v, false) + Kept(s, two, v, true)
  }

  lemma KeptNext(s: Symbol, two: seq<bool>, v: seq<int>, k: int, next: int, want: bool)
    requires AllKnown(s, two, v) && 0 <= k < next == k + 1 <= |v|
    ensures Known(s, two, v[k])
    ensures Kept(s, two, v[..next], want)
            == if IsTwo(s, two, v[k]) == want then Kept(s, two, v[..k], want) + [v[k]] else Kept(s, two, v[..k], want)
  {
    assert v[..next][..k] == v[..k];
  }

  lemma {:induction false} KeptSizes(s: Symbol, two: seq<bool>, v: seq<int>)
    requires AllKnown(s, two, v)
    ensures |Kept(s, two, v, false)| + |Kept(s, two, v, true)| == |v|
  {
    if v != [] {
      assert Known(s, two, v[|v| - 1]);
      KeptSizes(s, two, v[..|v| - 1]);
    }
  }

  /** Where entry k of v goes. */
  ghost function Rank(s: Symbol, two: seq<bool>, v: seq<int>, k: int): int
    requires AllKnown(s, two, v) && 0 <= k < |v|
  {
    assert Known(s, two, v[k]);
    if IsTwo(s, two, v[k]) then |Kept(s, two, v, false)| + |Kept(s, two, v[..k], true)|
    else |Kept(s, two, v[..k], false)|
  }

  lemma {:induction false} KeptGrows(s: Symbol, two: seq<bool>, v: seq<int>, k: int, l: int, want: bool)
    requires AllKnown(s, two, v) && 0 <= k <= l <= |v|
    ensures Kept(s, two, v[..k], want) <= Kept(s, two, v[..l], want)
    decreases l
  {
    if k < l {
      var m := l - 1;
      KeptGrows(s, two, v, k, m, want);
      KeptNext(s, two, v, m, l, want);
      PrefixMore(Kept(s, two, v[..k], want), Kept(s, two, v[..m], want), v[m]);
    }
  }

  lemma PrefixMore(a: seq<int>, b: seq<int>, x: int)
    requires a <= b
    ensures a <= b + [x]
  {
  }

  /** Entry k is kept at the number of entries of its kind before it. */
  lemma KeptAt(s: Symbol, two: seq<bool>, v: seq<int>, k: int)
    requires AllKnown(s, two, v) && 0 <= k < |v|
    ensures Known(s, two, v[k])
    ensures var w := IsTwo(s, two, v[k]); var r := |Kept(s, two, v[..k], w)|;
            r < |Kept(s, two, v, w)| && Kept(s, two, v, w)[r] == v[k]
  {
    assert Known(s, two, v[k]);
    var w := IsTwo(s, two, v[k]);
    KeptNext(s, two, v, k, k + 1, w);
    KeptGrows(s, two, v, k + 1, |v|, w);
    assert v[..|v|] == v;
  }

  /** Every entry of v is at its rank. */
  lemma RankHolds(s: Symbol, two: seq<bool>, v: seq<int>, k: int)
    requires AllKnown(s, two, v) && 0 <= k < |v|
    ensures 0 <= Rank(s, two, v, k) < |Partitioned(s, two, v)| == |v|
    ensures Partitioned(s, two, v)[Rank(s, two, v, k)] == v[k]
  {
    KeptAt(s, two, v, k);
    KeptSizes(s, two, v);
  }

  /** The reordering is a stable partition: of two entries the first one stays first, unless
      it has 2D tasks and the second one has not. */
  lemma RanksIncrease(s: Symbol, two: seq<bool>, v: seq<int>, k: int, l: int)
    requires AllKnown(s, two, v) && 0 <= k < l < |v|
    ensures Known(s, two, v[k]) && Known(s, two, v[l])
    ensures if IsTwo(s, two, v[k]) && !IsTwo(s, two, v[l]) then Rank(s, two, v, l) < Rank(s, two, v, k)
            else Rank(s, two, v, k) < Rank(s, two, v, l)
  {
    KeptAt(s, two, v, k);
    KeptAt(s, two, v, l);
    var w := IsTwo(s, two, v[k]);
    KeptNext(s, two, v, k, k + 1, w);
    KeptGrows(s, two, v, k + 1, l, w);
  }

  lemma {:induction false} KeptFrom(s: Symbol, two: seq<bool>, v: seq<int>, want: bool, y: int) returns (k: int)
    requires AllKnown(s, two, v) && 0 <= y < |Kept(s, two, v, want)|
    ensures 0 <= k < |v| && Known(s, two, v[k]) && IsTwo(s, two, v[k]) == want && |Kept(s, two, v[..k], want)| == y
  {
    var n := |v| - 1;
    assert Known(s, two, v[n]);
    if y < |Kept(s, two, v[..n], want)| {
      k := KeptFrom(s, two, v[..n], want, y);
      assert v[..n][..k] == v[..k];
    } else {
      k := n;
    }
  }

  /** Every place of the result is the rank of an entry. */
  lemma RankOnto(s: Symbol, two: seq<bool>, v: seq<int>, y: int) returns (k: int)
    requires AllKnown(s, two, v) && 0 <= y < |Partitioned(s, two, v)|
    ensures 0 <= k < |v| && Rank(s, two, v, k) == y && Partitioned(s, two, v)[y] == v[k]
  {
    var one := |Kept(s, two, v, false)|;
    if y < one { k := KeptFrom(s, two, v, false, y); } else { k := KeptFrom(s, two, v, true, y - one); }
    RankHolds(s, two, v, k);
  }

  // ----- The two passes -----

  /** out is before with p written from place first on. */
  ghost predicate Written(before: seq<int>, out: seq<int>, first: int, p: seq<int>) {
    && |out| == |before| && 0 <= first && first + |p| <= |out|
    && forall x :: 0 <= x < |out| ==> WrittenAt(before, out, first, p, x)
  }
  predicate WrittenAt(before: seq<int>, out: seq<int>, first: int, p: seq<int>, x: int)
    requires 0 <= x < |out| == |before|
  {
    out[x] == if first <= x < first + |p| then p[x - first] else before[x]
  }

  lemma WriteNext(before: seq<int>, out: seq<int>, first: int, p: seq<int>, b: int)
    requires Written(before, out, first, p) && first + |p| < |out|
    ensures Written(before, out[first + |p| := b], first, p + [b])
  {
    var after := out[first + |p| := b];
    forall x | 0 <= x < |after| ensures WrittenAt(before, after, first, p + [b], x) {
      assert WrittenAt(before, out, first, p, x);
    }
  }

  /** The entries before j without 2D tasks are marked. */
  ghost predicate MarkedBefore(s: Symbol, two: seq<bool>, v: seq<int>, before: seq<int>, tab: seq<int>, first: int,
                               j: int)
    requires AllKnown(s, two, v)
  {
    && |tab| == |before| && 0 <= first && first + |v| <= |tab| && 0 <= j <= |v|
    && forall x :: 0 <= x < |tab| ==> MarkedAt(s, two, v, before, tab, first, j, x)
  }
  predicate MarkedAt(s: Symbol, two: seq<bool>, v: seq<int>, before: seq<int>, tab: seq<int>, first: int, j: int,
                     x: int)
    requires 0 <= x < |tab| == |before|
  {
    tab[x] == if first <= x < first + j && x - first < |v| && Known(s, two, v[x - first])
                 && !IsTwo(s, two, v[x - first]) then -1 else before[x]
  }

  lemma MarkNext(s: Symbol, two: seq<bool>, v: seq<int>, before: seq<int>, tab: seq<int>, after: seq<int>, first: int,
                 j: int, next: int)
    requires AllKnown(s, two, v) && MarkedBefore(s, two, v, before, tab, first, j) && j < next == j + 1 <= |v|
    requires Known(s, two, v[j])
    requires after == if IsTwo(s, two, v[j]) then tab else tab[first + j := -1]
    ensures MarkedBefore(s, two, v, before, after, first, next)
  {
    forall x | 0 <= x < |after| ensures MarkedAt(s, two, v, before, after, first, next, x) {
      assert MarkedAt(s, two, v, before, tab, first, j, x);
    }
  }

  /** j2d is the first entry before j with 2D tasks, or -1. */
  ghost predicate FirstTwo(s: Symbol, two: seq<bool>, v: seq<int>, j: int, j2d: int)
    requires AllKnown(s, two, v) && 0 <= j <= |v|
  {
    && (j2d == -1 ==> Kept(s, two, v[..j], true) == [])
    && (j2d != -1 ==> 0 <= j2d < j && Kept(s, two, v[..j2d], true) == [])
  }

  /** First pass: the blocks without 2D tasks. Answers how many there are and where the first
      of the others is, -1 if there is none. */
  method FirstPass(s: Symbol, two: seq<bool>, symbrow: array<int>, first: int, browtab: array<int>, brownum: int,
                   brownbr: int, ghost v: seq<int>) returns (j1d: int, j2d: int)
    requires symbrow != browtab && 0 <= first && first + brownbr <= symbrow.Length && 0 <= brownbr == |v|
    requires v == symbrow[first..first + brownbr] && AllKnown(s, two, v)
    requires 0 <= brownum && brownum + brownbr <= browtab.Length
    modifies symbrow, browtab
    ensures j1d == |Kept(s, two, v, false)| && Written(old(browtab[..]), browtab[..], brownum, Kept(s, two, v, false))
    ensures MarkedBefore(s, two, v, old(symbrow[..]), symbrow[..], first, brownbr)
    ensures FirstTwo(s, two, v, brownbr, j2d)
  {
    ghost var sym0, out0 := symbrow[..], browtab[..];
    j1d, j2d := 0, -1;
    var j := 0;
    while j < brownbr
      invariant 0 <= j <= brownbr && j1d == |Kept(s, two, v[..j], false)|
      invariant Written(out0, browtab[..], brownum, Kept(s, two, v[..j], false))
      invariant MarkedBefore(s, two, v, sym0, symbrow[..], first, j)
      invariant FirstTwo(s, two, v, j, j2d)
    {
      j1d, j2d := TakeOne(s, two, symbrow, first, browtab, brownum, j, j1d, j2d, v, sym0, out0);
      j := j + 1;
    }
    assert v[..brownbr] == v;
  }

  /** One entry of the first pass. */
  method TakeOne(s: Symbol, two: seq<bool>, symbrow: array<int>, first: int, browtab: array<int>, brownum: int, j: int,
                 n: int, was: int, ghost v: seq<int>, ghost sym0: seq<int>, ghost out0: seq<int>)
    returns (j1d: int, j2d: int)
    requires symbrow != browtab && AllKnown(s, two, v) && 0 <= j < |v| && brownum + |v| <= browtab.Length
    requires n == |Kept(s, two, v[..j], false)| && Written(out0, browtab[..], brownum, Kept(s, two, v[..j], false))
    requires MarkedBefore(s, two, v, sym0, symbrow[..], first, j) && |sym0| == symbrow.Length
    requires v == sym0[first..first + |v|]
    requires FirstTwo(s, two, v, j, was)
    modifies symbrow, browtab
    ensures j1d == |Kept(s, two, v[..j + 1], false)|
    ensures Written(out0, browtab[..], brownum, Kept(s, two, v[..j + 1], false))
    ensures MarkedBefore(s, two, v, sym0, symbrow[..], first, j + 1)
    ensures FirstTwo(s, two, v, j + 1, j2d)
  {
    j1d, j2d := n, was;
    Unread(s, two, v, sym0, symbrow[..], first, j);
    var b := symbrow[first + j];
    OneWritten(s, two, v, out0, browtab[..], brownum, j, j + 1);
    OneMarked(s, two, v, sym0, symbrow[..], first, j, j + 1);
    OneSeen(s, two, v, j, j + 1, was);
    if !two[s.bloktab[b].lcblknm] {
      browtab[brownum + j1d] := b;
      symbrow[first + j] := -1;
      j1d := j1d + 1;
    } else if j2d == -1 {
      j2d := j;
    }
  }

  /** Entry j is still there when the loop reaches it. */
  lemma Unread(s: Symbol, two: seq<bool>, v: seq<int>, sym0: seq<int>, tab: seq<int>, first: int, j: int)
    requires AllKnown(s, two, v) && MarkedBefore(s, two, v, sym0, tab, first, j) && j < |v|
    requires v == sym0[first..first + |v|]
    ensures 0 <= first + j < |tab| && tab[first + j] == v[j] && Known(s, two, v[j])
  {
    assert MarkedAt(s, two, v, sym0, tab, first, j, first + j);
  }

  lemma OneWritten(s: Symbol, two: seq<bool>, v: seq<int>, out0: seq<int>, out: seq<int>, brownum: int, j: int,
                   next: int)
    requires AllKnown(s, two, v) && 0 <= j < next == j + 1 <= |v| && brownum + |v| <= |out| && Known(s, two, v[j])
    requires Written(out0, out, brownum, Kept(s, two, v[..j], false))
    ensures var n := |Kept(s, two, v[..j], false)|; var one := !IsTwo(s, two, v[j]);
            && |Kept(s, two, v[..next], false)| == (if one then n + 1 else n) && 0 <= brownum + n < |out|
            && Written(out0, if one then out[brownum + n := v[j]] else out, brownum, Kept(s, two, v[..next], false))
  {
    KeptNext(s, two, v, j, next, false);
    WriteNext(out0, out, brownum, Kept(s, two, v[..j], false), v[j]);
  }

  lemma OneMarked(s: Symbol, two: seq<bool>, v: seq<int>, sym0: seq<int>, tab: seq<int>, first: int, j: int, next: int)
    requires AllKnown(s, two, v) && MarkedBefore(s, two, v, sym0, tab, first, j) && j < next == j + 1 <= |v|
    requires Known(s, two, v[j])
    ensures MarkedBefore(s, two, v, sym0, if IsTwo(s, two, v[j]) then tab else tab[first + j := -1], first, next)
  {
    MarkNext(s, two, v, sym0, tab, if IsTwo(s, two, v[j]) then tab else tab[first + j := -1], first, j, next);
  }

  lemma OneSeen(s: Symbol, two: seq<bool>, v: seq<int>, j: int, next: int, was: int)
    requires AllKnown(s, two, v) && 0 <= j < next == j + 1 <= |v| && Known(s, two, v[j]) && FirstTwo(s, two, v, j, was)
    ensures FirstTwo(s, two, v, next, if IsTwo(s, two, v[j]) && was == -1 then j else was)
  {
    KeptNext(s, two, v, j, next, true);
  }

  /** Second pass: the blocks that are not marked, from the first one with 2D tasks on. */
  method SecondPass(s: Symbol, ghost two: seq<bool>, symbrow: array<int>, first: int, browtab: array<int>, brownum: int,
                    brownbr: int, j1d0: int, j2d: int, ghost v: seq<int>, ghost sym0: seq<int>, ghost out0: seq<int>)
    returns (j1d: int)
    requires symbrow != browtab && AllKnown(s, two, v) && 0 <= j2d < brownbr == |v|
             && brownum + brownbr <= browtab.Length
    requires |sym0| == symbrow.Length && MarkedBefore(s, two, v, sym0, symbrow[..], first, |v|)
    requires v == sym0[first..first + |v|] && Kept(s, two, v[..j2d], true) == []
    requires j1d0 == |Kept(s, two, v, false)| && Written(out0, browtab[..], brownum, Kept(s, two, v, false))
    modifies browtab
    ensures Written(out0, browtab[..], brownum, Partitioned(s, two, v)) && j1d == brownbr
  {
    j1d := j1d0;
    var j := j2d;
    assert Kept(s, two, v, false) + Kept(s, two, v[..j], true) == Kept(s, two, v, false);
    while j < brownbr
      invariant j2d <= j <= brownbr && j1d == j1d0 + |Kept(s, two, v[..j], true)|
      invariant Written(out0, browtab[..], brownum, Kept(s, two, v, false) + Kept(s, two, v[..j], true))
    {
      j1d := TakeTwo(s, two, symbrow, first, browtab, brownum, j, j1d, v, sym0, out0);
      j := j + 1;
    }
    assert v[..brownbr] == v;
    KeptSizes(s, two, v);
  }

  method TakeTwo(s: Symbol, ghost two: seq<bool>, symbrow: array<int>, first: int, browtab: array<int>, brownum: int,
                 j: int, n: int, ghost v: seq<int>, ghost sym0: seq<int>, ghost out0: seq<int>) returns (j1d: int)
    requires symbrow != browtab && AllKnown(s, two, v) && 0 <= j < |v| && brownum + |v| <= browtab.Length
    requires |sym0| == symbrow.Length && MarkedBefore(s, two, v, sym0, symbrow[..], first, |v|)
    requires v == sym0[first..first + |v|] && n == |Kept(s, two, v, false)| + |Kept(s, two, v[..j], true)|
    requires Written(out0, browtab[..], brownum, Kept(s, two, v, false) + Kept(s, two, v[..j], true))
    modifies browtab
    ensures j1d == |Kept(s, two, v, false)| + |Kept(s, two, v[..j + 1], true)|
    ensures Written(out0, browtab[..], brownum, Kept(s, two, v, false) + Kept(s, two, v[..j + 1], true))
  {
    j1d := n;
    assert MarkedAt(s, two, v, sym0, symbrow[..], first, |v|, first + j) && Known(s, two, v[j]);
    var b := symbrow[first + j];
    RoomForTwo(s, two, v, j);
    KeptNext(s, two, v, j, j + 1, true);
    ghost var p, q := Kept(s, two, v, false), Kept(s, two, v[..j], true);
    if b != -1 {
      WriteNext(out0, browtab[..], brownum, p + q, b);
      assert p + q + [b] == p + (q + [b]);
      browtab[brownum + j1d] := b;
      j1d := j1d + 1;
    }
  }

  lemma RoomForTwo(s: Symbol, two: seq<bool>, v: seq<int>, j: int)
    requires AllKnown(s, two, v) && 0 <= j < |v|
    ensures Known(s, two, v[j]) && (IsTwo(s, two, v[j]) ==>
              |Kept(s, two, v, false)| + |Kept(s, two, v[..j], true)| < |v|)
  {
    KeptAt(s, two, v, j);
    KeptSizes(s, two, v);
  }

  /** The slice of one column block: copied, or reordered when it has 2D tasks. Answers where
      the blocks with 2D tasks start. */
  method CopyRow(s: Symbol, two: seq<bool>, tasks2d: bool, symbrow: array<int>, first: int, browtab: array<int>,
                 brownum: int, brownbr: int) returns (brown2d: int)
    requires symbrow != browtab && 0 <= first && first + brownbr <= symbrow.Length && 0 <= brownbr
    requires AllKnown(s, two, symbrow[first..first + brownbr])
    requires 0 <= brownum && brownum + brownbr <= browtab.Length
    modifies symbrow, browtab
    ensures var v := old(symbrow[first..first + brownbr]);
            && AllKnown(s, two, v) && Written(old(browtab[..]), browtab[..], brownum, Row(s, two, tasks2d, v))
            && brown2d == brownum + (if tasks2d then |Kept(s, two, v, false)| else brownbr)
            && MarkedBefore(s, two, v, old(symbrow[..]), symbrow[..], first, if tasks2d then brownbr else 0)
  {
    ghost var v, sym0, out0 := symbrow[first..first + brownbr], symbrow[..], browtab[..];
    brown2d := brownum + brownbr;
    if tasks2d {
      var j1d, j2d := FirstPass(s, two, symbrow, first, browtab, brownum, brownbr, v);
      brown2d := brownum + j1d;
      if j2d != -1 {
        j1d := SecondPass(s, two, symbrow, first, browtab, brownum, brownbr, j1d, j2d, v, sym0, out0);
      } else {
        assert v[..brownbr] == v;
        assert Kept(s, two, v, true) == [];
        assert Partitioned(s, two, v) == Kept(s, two, v, false);
        KeptSizes(s, two, v);
      }
      assert j1d == brownbr;
    } else {
      forall x | 0 <= x < brownbr { browtab[brownum + x] := symbrow[first + x]; }
      Copied(out0, browtab[..], brownum, v);
      NoneMarked(s, two, v, sym0, first);
    }
  }

  ghost function Row(s: Symbol, two: seq<bool>, tasks2d: bool, v: seq<int>): (r: seq<int>)
    requires AllKnown(s, two, v)
  {
    if tasks2d then Partitioned(s, two, v) else v
  }

  lemma Copied(before: seq<int>, out: seq<int>, first: int, v: seq<int>)
    requires |out| == |before| && 0 <= first && first + |v| <= |out|
    requires forall x :: 0 <= x < |out| ==> out[x] == if first <= x < first + |v| then v[x - first] else before[x]
    ensures Written(before, out, first, v)
  {
    forall x | 0 <= x < |out| ensures WrittenAt(before, out, first, v, x) { }
  }

  lemma NoneMarked(s: Symbol, two: seq<bool>, v: seq<int>, tab: seq<int>, first: int)
    requires AllKnown(s, two, v) && 0 <= first && first + |v| <= |tab|
    ensures MarkedBefore(s, two, v, tab, tab, first, 0)
  {
    forall x | 0 <= x < |tab| ensures MarkedAt(s, two, v, tab, tab, first, 0, x) { }
  }
}

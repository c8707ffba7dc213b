/** The counter of blend/splitsymbol.c: for each line, how many blocks a cut after it makes. */
module Counters {
  import opened SymbolMatrix

  /** A cut after the line divides the block. */
  predicate Crosses(b: Blok, line: int) { b.frownum <= line < b.lrownum }

  lemma OwnedBy(s: Symbol, b: int, c: int)
    requires Valid(s) && 0 <= b < |s.bloktab| && 0 <= c < s.CblkNbr()
    ensures s.bloktab[b].lcblknm == c <==> s.First(c) <= b < s.Last(c)
  {
    var i := OwnerOf(s, b, s.CblkNbr());
    assert CblkOk(s, c) && CblkOk(s, i);
    if i < c { ColumnsIncrease(s, i, c); } else if c < i { ColumnsIncrease(s, c, i); }
  }

  predicate IsDiag(s: Symbol, b: int)
    requires 0 <= b < |s.bloktab|
  {
    0 <= s.bloktab[b].lcblknm < s.CblkNbr() && b == s.First(s.bloktab[b].lcblknm)
  }

  /** Copies of block b once its owner is cut in pieces; a diagonal block counts once. */
  function Weight(s: Symbol, nbcb: seq<int>, b: int): int
    requires 0 <= b < |s.bloktab|
  {
    var o := s.bloktab[b].lcblknm;
    if IsDiag(s, b) || !(0 <= o < |nbcb|) then 1 else nbcb[o]
  }

  /** Blocks before k that a cut after the line divides, each with its copies. */
  function Cost(s: Symbol, nbcb: seq<int>, line: int, k: int): int
    requires 0 <= k <= |s.bloktab|
    decreases k
  {
    if k == 0 then 0
    else Cost(s, nbcb, line, k - 1) + if Crosses(s.bloktab[k - 1], line) then Weight(s, nbcb, k - 1) else 0
  }

  /** Off-diagonal blocks of c before k that the line divides, d for each. */
  function Added(s: Symbol, c: int, line: int, k: int, d: int): int
    requires 0 <= k <= |s.bloktab|
    decreases k
  {
    if k == 0 then 0
    else Added(s, c, line, k - 1, d)
         + if s.bloktab[k - 1].lcblknm == c && !IsDiag(s, k - 1) && Crosses(s.bloktab[k - 1], line) then d else 0
  }

  /** Cutting c adds to the counters of the lines that its off-diagonal blocks cross. */
  lemma {:induction false} CostAfterCut(s: Symbol, nbcb: seq<int>, c: int, m: int, line: int, k: int)
    requires 0 <= k <= |s.bloktab| && 0 <= c < |nbcb| && nbcb[c] == 1
    ensures Cost(s, nbcb[c := m], line, k) == Cost(s, nbcb, line, k) + Added(s, c, line, k, m - 1)
    decreases k
  {
    if k > 0 { CostAfterCut(s, nbcb, c, m, line, k - 1); }
  }

  /** No block before those of c, or after them, counts. */
  lemma {:induction false} AddedNone(s: Symbol, c: int, line: int, k: int, m: int, d: int)
    requires Valid(s) && 0 <= c < s.CblkNbr() && 0 <= k <= m <= |s.bloktab|
    requires m <= s.First(c) + 1 || s.Last(c) <= k
    ensures Added(s, c, line, m, d) == Added(s, c, line, k, d)
    decreases m
  {
    if k < m {
      AddedNone(s, c, line, k, m - 1, d);
      OwnedBy(s, m - 1, c);
    }
  }

  /** Without any cut the counter is the number of blocks that cross the line. */
  function Crossing(s: Symbol, line: int, k: int): (n: int)
    requires 0 <= k <= |s.bloktab|
    ensures 0 <= n <= k
    decreases k
  {
    if k == 0 then 0 else Crossing(s, line, k - 1) + if Crosses(s.bloktab[k - 1], line) then 1 else 0
  }

  lemma {:induction false} CostUncut(s: Symbol, nbcb: seq<int>, line: int, k: int)
    requires 0 <= k <= |s.bloktab| && forall i :: 0 <= i < |nbcb| ==> nbcb[i] == 1
    ensures Cost(s, nbcb, line, k) == Crossing(s, line, k)
    decreases k
  {
    if k > 0 { CostUncut(s, nbcb, line, k - 1); }
  }

  /** Only blocks that face the column block of the line can cross it, so that later cuts of
      other column blocks do not change its counter. */
  lemma {:induction false} CostOnlyBefore(s: Symbol, nbcb: seq<int>, after: seq<int>, c: int, line: int, k: int)
    requires Valid(s) && 0 <= c < s.CblkNbr() == |nbcb| == |after|
             && s.cblktab[c].fcolnum <= line <= s.cblktab[c].lcolnum
    requires forall i :: 0 <= i < c ==> nbcb[i] == after[i]
    requires 0 <= k <= |s.bloktab|
    ensures Cost(s, after, line, k) == Cost(s, nbcb, line, k)
    decreases k
  {
    if k > 0 {
      CostOnlyBefore(s, nbcb, after, c, line, k - 1);
      var b := s.bloktab[k - 1];
      if Crosses(b, line) && !IsDiag(s, k - 1) {
        CrossingFaces(s, k - 1, c, line);
        var i := OwnerOf(s, k - 1, s.CblkNbr());
        assert ValidColumn(s, i);
        FacesLater(s, i, k - 1);
      }
    }
  }

  lemma CrossingFaces(s: Symbol, b: int, c: int, line: int)
    requires Valid(s) && 0 <= b < |s.bloktab| && 0 <= c < s.CblkNbr() && Crosses(s.bloktab[b], line)
    requires s.cblktab[c].fcolnum <= line <= s.cblktab[c].lcolnum
    ensures s.bloktab[b].fcblknm == c
  {
    var i := OwnerOf(s, b, s.CblkNbr());
    var f := s.bloktab[b].fcblknm;
    if f < c { ColumnsIncrease(s, f, c); } else if c < f { ColumnsIncrease(s, c, f); }
  }
}

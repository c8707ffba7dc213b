/** splitSmart of blend/splitsymbol.c with its default method: where the column blocks are cut,
    and the counters that choose the cuts. Columns are numbered from 0. */
module SplitSmart {
  import opened SymbolMatrix
  import opened Split
  import opened Counters

  /** Number of columns, and of rows. */
  function NodeNbr(s: Symbol): int
    requires |s.cblktab| >= 1
  {
    s.cblktab[s.CblkNbr()].fcolnum
  }

  function CeilDiv(a: int, b: int): int
    requires 0 <= a && 0 < b
  {
    (a + b - 1) / b
  }

  /** In how many pieces a width is cut; the correction of the source is never needed. */
  method NbSplit(width: int, blcolmin: int, blcolmax: int) returns (nseq: int)
    requires width >= 1 && blcolmin >= 1
    ensures width <= blcolmax ==> nseq == 1
    ensures width > blcolmax ==> nseq * blcolmin <= width < (nseq + 1) * blcolmin
    ensures nseq > 1 ==> width / nseq >= blcolmin
  {
    if width <= blcolmax { return 1; }
    nseq := width / blcolmin;
    DivBounds(width, blcolmin);
    if nseq > 1 {
      DivAtLeast(width, nseq, blcolmin);
      if width / nseq < blcolmin { assert false; }
    }
  }

  lemma DivBounds(a: int, b: int)
    requires 0 <= a && 0 < b
    ensures a / b * b <= a < (a / b + 1) * b
  {
  }

  lemma DivAtLeast(a: int, b: int, c: int)
    requires 0 <= a && 0 < b && b * c <= a
    ensures a / b >= c
  {
    DivBounds(a, b);
    var q := a / b;
    if q + 1 <= c { Smaller(q + 1, c, b); }
  }

  lemma Smaller(x: int, y: int, b: int)
    requires x <= y && 0 < b
    ensures x * b <= y * b
  {
  }

  // ----- The extra column blocks -----

  class ExtraCblk {
    const cblknbr: int
    var addcblk: int
    var sptcblk: seq<int>
    var sptcbnb: seq<int>
    var curcblk: int
    var sizcblk: int
    var cblktab: array<Cblk>

    ghost predicate Valid()
      reads this
    {
      && 0 <= cblknbr && 0 <= sizcblk <= cblktab.Length && -1 <= curcblk && (curcblk < sizcblk || sizcblk == 0)
      && (sizcblk == 0 ==> curcblk == -1 && addcblk == 0)
      && (sizcblk > 0 ==> |sptcblk| == |sptcbnb| == cblknbr)
    }

    ghost function Entries(): seq<Cblk>
      requires Valid()
      reads this, cblktab
    {
      cblktab[..curcblk + 1]
    }

    /** The tables; before the first addition no column block is split. */
    ghost function Starts(): (v: seq<int>)
      requires Valid()
      reads this
      ensures |v| == cblknbr
    {
      if sizcblk == 0 then seq(cblknbr, _ => -1) else sptcblk
    }
    ghost function Numbers(): (v: seq<int>)
      requires Valid()
      reads this
      ensures |v| == cblknbr
    {
      if sizcblk == 0 then seq(cblknbr, _ => 1) else sptcbnb
    }

    ghost function Value(): Extra
      requires Valid()
      reads this, cblktab
    {
      Extra(Starts(), Numbers(), Entries())
    }

    constructor (cblknbr: int)
      requires 0 <= cblknbr
      ensures Valid() && this.cblknbr == cblknbr && addcblk == 0 && fresh(cblktab)
      ensures Value() == Extra(seq(cblknbr, _ => -1), seq(cblknbr, _ => 1), [])
    {
      this.cblknbr, addcblk, sptcblk, sptcbnb, curcblk, sizcblk := cblknbr, 0, [], [], -1, 0;
      cblktab := new Cblk[0];
    }

    method Alloc()
      requires Valid() && sizcblk == 0 && cblknbr >= 1
      modifies this
      ensures Valid() && sizcblk > 0 && fresh(cblktab) && Value() == old(Value()) && addcblk == old(addcblk)
    {
      sptcblk := seq(cblknbr, _ => -1);
      sptcbnb := seq(cblknbr, _ => 1);
      sizcblk := (cblknbr + 20) / 20;
      cblktab := new Cblk[cblknbr](_ => Cblk(0, 0, 0));
    }

    /** Room for one more; the array grows by a part of the number of column blocks. */
    method Inc() returns (cur: int)
      requires Valid() && cblknbr >= 1
      modifies this
      ensures sizcblk > 0 && cur == curcblk < sizcblk <= cblktab.Length && (cblktab == old(cblktab) || fresh(cblktab))
      ensures 0 <= cur == old(curcblk) + 1 && cblktab[..cur] == old(Entries()) && addcblk == old(addcblk)
      ensures |sptcblk| == |sptcbnb| == cblknbr && sptcblk == old(Starts()) && sptcbnb == old(Numbers())
    {
      if sizcblk == 0 { Alloc(); }
      curcblk := curcblk + 1;
      if curcblk >= sizcblk {
        var extrasize := (cblknbr + 20) / 20;
        assert curcblk == sizcblk;
        sizcblk := sizcblk + extrasize;
        var tmp := new Cblk[sizcblk](_ => Cblk(0, 0, 0));
        forall k | 0 <= k < curcblk { tmp[k] := cblktab[k]; }
        assert tmp[..curcblk] == cblktab[..curcblk];
        cblktab := tmp;
      }
      cur := curcblk;
    }

    method Add(fcolnum: int, lcolnum: int)
      requires Valid() && cblknbr >= 1
      modifies this, cblktab
      ensures Valid() && sizcblk > 0 && (cblktab == old(cblktab) || fresh(cblktab)) && addcblk == old(addcblk)
      ensures Entries() == old(Entries()) + [Cblk(fcolnum, lcolnum, -1)]
      ensures Starts() == old(Starts()) && Numbers() == old(Numbers())
    {
      var cur := Inc();
      ghost var before := cblktab[..cur];
      cblktab[cur] := Cblk(fcolnum, lcolnum, -1);
      assert cblktab[..cur + 1] == before + [Cblk(fcolnum, lcolnum, -1)];
    }

    /** Marks column block cblknum as replaced by the last nbcblk entries. */
    method Mark(cblknum: int, nbcblk: int)
      requires Valid() && sizcblk > 0 && 0 <= cblknum < cblknbr && 1 <= nbcblk <= curcblk + 1
      modifies this
      ensures Valid() && sizcblk > 0 && cblktab == old(cblktab) && Entries() == old(Entries())
              && addcblk == old(addcblk) + nbcblk - 1
      ensures Starts() == old(Starts())[cblknum := |Entries()| - nbcblk]
              && Numbers() == old(Numbers())[cblknum := nbcblk]
    {
      addcblk := addcblk + nbcblk - 1;
      sptcblk := sptcblk[cblknum := curcblk - nbcblk + 1];
      sptcbnb := sptcbnb[cblknum := nbcblk];
    }
  }

  // ----- Counters -----

  /** nb counts, from line first on, the blocks before k that cross each line. */
  ghost predicate Counted(s: Symbol, nb: seq<int>, first: int, k: int)
    requires 0 <= k <= |s.bloktab|
  {
    forall x :: 0 <= x < |nb| ==> CountedAt(s, nb, first, k, x)
  }
  ghost predicate CountedAt(s: Symbol, nb: seq<int>, first: int, k: int, x: int)
    requires 0 <= k <= |s.bloktab| && 0 <= x < |nb|
  {
    nb[x] == Crossing(s, first + x, k)
  }

  /** The rows of all the blocks are rows of the matrix. */
  lemma RowsInRange(s: Symbol, b: int)
    requires Valid(s) && 0 <= b < |s.bloktab| && s.cblktab[0].fcolnum == 0
    ensures 0 <= s.bloktab[b].frownum <= s.bloktab[b].lrownum < NodeNbr(s)
  {
    var i := OwnerOf(s, b, s.CblkNbr());
    var f := s.bloktab[b].fcblknm;
    assert CblkOk(s, f);
    ColumnRange(s, f);
  }

  lemma ColumnRange(s: Symbol, f: int)
    requires Valid(s) && 0 <= f < s.CblkNbr() && s.cblktab[0].fcolnum == 0
    ensures 0 <= s.cblktab[f].fcolnum <= s.cblktab[f].lcolnum < NodeNbr(s)
  {
    var n := s.CblkNbr();
    assert CblkOk(s, f) && CblkOk(s, n - 1) && CblkOk(s, 0);
    if f < n - 1 { ColumnsIncrease(s, f, n - 1); }
    if f > 0 { ColumnsIncrease(s, 0, f); }
  }

  /** computeNbBlocksPerLine. */
  method NbBlocksPerLine(s: Symbol, frowsplit: int) returns (nb: array<int>)
    requires Valid(s) && s.cblktab[0].fcolnum == 0 && 0 <= frowsplit <= NodeNbr(s)
    ensures fresh(nb) && nb.Length == NodeNbr(s) - frowsplit + 1 && Counted(s, nb[..], frowsplit, |s.bloktab|)
  {
    var size := NodeNbr(s) - frowsplit + 1;
    nb := new int[size](_ => 0);
    var bloknum := 0;
    while bloknum < |s.bloktab|
      invariant 0 <= bloknum <= |s.bloktab| && Counted(s, nb[..], frowsplit, bloknum)
    {
      CountBlok(s, frowsplit, nb, bloknum);
      bloknum := bloknum + 1;
    }
    LastLineFree(s, |s.bloktab|);
    assert CountedAt(s, nb[..], frowsplit, |s.bloktab|, size - 1);
    assert nb[size - 1] == 0;
  }

  lemma {:induction false} LastLineFree(s: Symbol, k: int)
    requires Valid(s) && s.cblktab[0].fcolnum == 0 && 0 <= k <= |s.bloktab|
    ensures Crossing(s, NodeNbr(s), k) == 0
    decreases k
  {
    if k > 0 {
      RowsInRange(s, k - 1);
      LastLineFree(s, k - 1);
    }
  }

  method CountBlok(s: Symbol, frowsplit: int, nb: array<int>, bloknum: int)
    requires Valid(s) && s.cblktab[0].fcolnum == 0 && 0 <= frowsplit && nb.Length == NodeNbr(s) - frowsplit + 1
    requires 0 <= bloknum < |s.bloktab| && Counted(s, nb[..], frowsplit, bloknum)
    modifies nb
    ensures Counted(s, nb[..], frowsplit, bloknum + 1)
  {
    RowsInRange(s, bloknum);
    var curblok := s.bloktab[bloknum];
    ghost var before := nb[..];
    if curblok.lrownum >= frowsplit {
      AddLines(nb, frowsplit, Max(curblok.frownum, frowsplit), curblok.lrownum, 1);
    }
    ghost var next := bloknum + 1;
    forall x | 0 <= x < nb.Length ensures CountedAt(s, nb[..], frowsplit, next, x) {
      assert CountedAt(s, before, frowsplit, bloknum, x);
    }
  }

  /** Adds d to the counters of the lines from..to-1. */
  method AddLines(nb: array<int>, first: int, from: int, to: int, d: int)
    requires 0 <= first <= from && to <= first + nb.Length
    modifies nb
    ensures forall x :: 0 <= x < nb.Length ==> nb[x] == old(nb[x]) + if from <= first + x < to then d else 0
  {
    var line := from;
    while line < to
      invariant from <= line && (line <= to || line == from)
      invariant forall x :: 0 <= x < nb.Length ==> nb[x] == old(nb[x]) + if from <= first + x < line then d else 0
    {
      nb[line - first] := nb[line - first] + d;
      line := line + 1;
    }
  }

  // ----- The smallest cut -----

  /** Lines where a piece that starts at column f may end. */
  predicate InWindow(f: int, width: int, step: int, limit: int, lcol: int) {
    && Max(f + step - 1 - limit, f + 1) <= lcol <= f + step - 1 + limit && lcol < f + width
  }

  /** Cost of a cut after the line. */
  function LineCost(s: Symbol, nbcb: seq<int>, line: int): int {
    Cost(s, nbcb, line, |s.bloktab|)
  }

  /** Lines are tried from the one asked for upwards, then downwards. */
  predicate TriedBefore(asked: int, line: int, lcol: int) {
    if lcol >= asked then asked <= line < lcol else line > lcol
  }

  /** The cut is the line the step asks for, or one in the window that costs strictly less; no
      line of the window costs less than the cut, and those tried before it cost more. */
  ghost predicate BestCut(s: Symbol, nbcb: seq<int>, f: int, width: int, step: int, limit: int, lcol: int) {
    if step >= width then lcol == f + width - 1
    else
      && (lcol == f + step - 1
          || (InWindow(f, width, step, limit, lcol) && LineCost(s, nbcb, lcol) < LineCost(s, nbcb, f + step - 1)))
      && forall i :: i == f + step - 1 || InWindow(f, width, step, limit, i) ==>
            && LineCost(s, nbcb, lcol) <= LineCost(s, nbcb, i)
            && (TriedBefore(f + step - 1, i, lcol) ==> LineCost(s, nbcb, lcol) < LineCost(s, nbcb, i))
  }

  /** Scans from..to-1 upwards for a smaller counter than that at start. */
  method ScanUp(nb: array<int>, start: int, from: int, to: int) returns (best: int)
    requires 0 <= start < nb.Length && 0 <= from <= nb.Length && to <= nb.Length
    ensures best == start || (from <= best < to && nb[best] < nb[start])
    ensures nb[best] <= nb[start] && forall x :: from <= x < to ==> nb[best] <= nb[x]
    ensures forall x :: best != start && from <= x < best ==> nb[best] < nb[x]
  {
    best := start;
    var i := from;
    while i < to
      invariant from <= i <= Max(from, to)
      invariant best == start || (from <= best < i && nb[best] < nb[start])
      invariant forall x :: from <= x < i ==> nb[best] <= nb[x]
      invariant forall x :: best != start && from <= x < best ==> nb[best] < nb[x]
    {
      if nb[i] < nb[best] { best := i; }
      i := i + 1;
    }
  }

  /** The same downwards, from..to excluded at the bottom. */
  method ScanDown(nb: array<int>, start: int, from: int, to: int) returns (best: int)
    requires 0 <= start < nb.Length && 0 <= from < nb.Length && -1 <= to
    ensures best == start || (to < best <= from && nb[best] < nb[start])
    ensures nb[best] <= nb[start] && forall x :: to < x <= from ==> nb[best] <= nb[x]
    ensures forall x :: best != start && best < x <= from ==> nb[best] < nb[x]
  {
    best := start;
    var i := from;
    while i > to
      invariant Min(from, to) <= i <= from
      invariant best == start || (i < best <= from && nb[best] < nb[start])
      invariant forall x :: i < x <= from ==> nb[best] <= nb[x]
      invariant forall x :: best != start && best < x <= from ==> nb[best] < nb[x]
    {
      if nb[i] < nb[best] { best := i; }
      i := i - 1;
    }
  }

  /** The counters are the costs of the lines. */
  ghost predicate Costs(s: Symbol, nbcb: seq<int>, nb: seq<int>, first: int) {
    forall x :: 0 <= x < |nb| ==> CostsAt(s, nbcb, nb, first, x)
  }
  ghost predicate CostsAt(s: Symbol, nbcb: seq<int>, nb: seq<int>, first: int, x: int)
    requires 0 <= x < |nb|
  {
    nb[x] == LineCost(s, nbcb, first + x)
  }

  lemma CostIs(s: Symbol, nbcb: seq<int>, nb: seq<int>, first: int, line: int)
    requires Costs(s, nbcb, nb, first) && first <= line < first + |nb|
    ensures LineCost(s, nbcb, line) == nb[line - first]
  {
    assert CostsAt(s, nbcb, nb, first, line - first);
  }

  /** computeSmallestSplit; position x of nb is line first + x. */
  method SmallestSplit(s: Symbol, nb: array<int>, first: int, f: int, step: int, max: int, percent: int,
                       ghost nbcb: seq<int>) returns (lcolnum: int)
    requires 0 <= first <= f && 1 <= max && f - first + max <= nb.Length && step > 1 && percent >= 0
    requires Costs(s, nbcb, nb[..], first)
    ensures 0 <= step * percent && BestCut(s, nbcb, f, max, step, CeilDiv(step * percent, 100), f + lcolnum)
            && 0 <= lcolnum < max
  {
    Product(step, percent);
    var limit := CeilDiv(step * percent, 100);
    if step >= max { return max - 1; }
    assert step > 1;
    var lavg := step - 1;
    var lmin := Max(lavg - limit - 1, 0);
    var lmax := Min(lavg + limit + 1, max);
    var base := f - first;
    var up := ScanUp(nb, base + lavg, base + lavg + 1, base + lmax);
    var best := ScanDown(nb, up, base + lavg - 1, base + lmin);
    lcolnum := best - base;
    CostIs(s, nbcb, nb[..], first, f + lcolnum);
    CostIs(s, nbcb, nb[..], first, f + lavg);
    forall i | i == f + lavg || InWindow(f, max, step, limit, i)
      ensures LineCost(s, nbcb, f + lcolnum) <= LineCost(s, nbcb, i)
              && (TriedBefore(f + lavg, i, f + lcolnum) ==> LineCost(s, nbcb, f + lcolnum) < LineCost(s, nbcb, i)) {
      CostIs(s, nbcb, nb[..], first, i);
      assert nb[..][i - first] == nb[i - first];
    }
  }

  lemma Product(a: int, b: int)
    requires 0 <= a && 0 <= b
    ensures 0 <= a * b && CeilDiv(a * b, 100) >= 0
  {
  }

  // ----- Cutting one column block -----

  /** Piece k ends where the counters tell, for what is left of columns up to l. */
  ghost predicate PieceBest(s: Symbol, nbcb: seq<int>, p: seq<Cblk>, l: int, step: int, limit: int, k: int)
    requires 0 <= k < |p|
  {
    BestCut(s, nbcb, p[k].fcolnum, l - p[k].fcolnum + 1, step, limit, p[k].lcolnum)
  }

  /** Every piece but the last is within limit of the step, and none is longer. */
  lemma PiecesNearStep(s: Symbol, nbcb: seq<int>, p: seq<Cblk>, f: int, l: int, step: int, limit: int, k: int)
    requires Tiles(p, f, l) && 0 <= k < |p| && PieceBest(s, nbcb, p, l, step, limit, k) && 0 <= limit && 1 < step
    ensures var w := p[k].lcolnum - p[k].fcolnum + 1;
            w <= step + limit && (k < |p| - 1 ==> step - limit <= w && 2 <= w)
  {
    if k < |p| - 1 {
      PiecesIncrease(p, f, l, k, |p| - 1);
      assert PieceOk(p, |p| - 1);
    }
  }

  lemma TilesMore(p: seq<Cblk>, f: int, mid: int, c: Cblk)
    requires p == [] || Tiles(p, f, mid) 
    requires p == [] ==> mid == f - 1
    requires c.fcolnum == mid + 1 && c.fcolnum <= c.lcolnum
    ensures Tiles(p + [c], f, c.lcolnum)
  {
    var q := p + [c];
    forall k | 0 <= k < |q| ensures PieceOk(q, k) {
      if k < |p| { assert PieceOk(p, k); }
    }
  }

  /** Cuts columns f..l in pieces. */
  method CutPieces(s: Symbol, extra: ExtraCblk, nb: array<int>, first: int, f: int, l: int, step: int, percent: int,
                   ghost nbcb: seq<int>)
    returns (nbcblk: int, ghost p: seq<Cblk>)
    requires extra.Valid() && extra.cblknbr >= 1 && 0 <= first <= f <= l && l - first < nb.Length && step > 1
             && percent >= 0
    requires Costs(s, nbcb, nb[..], first)
    modifies extra, extra.cblktab
    ensures extra.Valid() && extra.sizcblk > 0 && (extra.cblktab == old(extra.cblktab) || fresh(extra.cblktab))
    ensures extra.Entries() == old(extra.Entries()) + p && |p| == nbcblk && extra.addcblk == old(extra.addcblk)
    ensures extra.Starts() == old(extra.Starts()) && extra.Numbers() == old(extra.Numbers())
    ensures 0 <= step * percent && Tiles(p, f, l)
    ensures forall k :: 0 <= k < |p| ==> PieceBest(s, nbcb, p, l, step, CeilDiv(step * percent, 100), k)
  {
    Product(step, percent);
    var fcol, width := f, l - f + 1;
    nbcblk, p := 0, [];
    while fcol <= l
      invariant f <= fcol <= l + 1 && width == l - fcol + 1 && |p| == nbcblk
      invariant if p == [] then fcol == f else Tiles(p, f, fcol - 1) && extra.sizcblk > 0
      invariant extra.Valid() && (extra.cblktab == old(extra.cblktab) || fresh(extra.cblktab))
                && extra.addcblk == old(extra.addcblk)
      invariant extra.Entries() == old(extra.Entries()) + p
      invariant extra.Starts() == old(extra.Starts()) && extra.Numbers() == old(extra.Numbers())
      invariant forall k :: 0 <= k < |p| ==> PieceBest(s, nbcb, p, l, step, CeilDiv(step * percent, 100), k)
    {
      var cut := SmallestSplit(s, nb, first, fcol, step, width, percent, nbcb);
      var lcol := fcol + cut;
      assert fcol <= lcol <= l;
      extra.Add(fcol, lcol);
      ghost var c := Cblk(fcol, lcol, -1);
      TilesMore(p, f, fcol - 1, c);
      MoreBest(s, nbcb, p, c, l, step, CeilDiv(step * percent, 100));
      p := p + [c];
      nbcblk := nbcblk + 1;
      width := width - (lcol - fcol + 1);
      fcol := lcol + 1;
    }
  }

  lemma MoreBest(s: Symbol, nbcb: seq<int>, p: seq<Cblk>, c: Cblk, l: int, step: int, limit: int)
    requires forall k :: 0 <= k < |p| ==> PieceBest(s, nbcb, p, l, step, limit, k)
    requires BestCut(s, nbcb, c.fcolnum, l - c.fcolnum + 1, step, limit, c.lcolnum)
    ensures forall k :: 0 <= k < |p + [c]| ==> PieceBest(s, nbcb, p + [c], l, step, limit, k)
  {
    var q := p + [c];
    forall k | 0 <= k < |q| ensures PieceBest(s, nbcb, q, l, step, limit, k) {
      if k < |p| { assert PieceBest(s, nbcb, p, l, step, limit, k); }
    }
  }

  /** Counters after column block c is cut in nbcblk pieces. */
  method UpdateCounters(s: Symbol, nb: array<int>, first: int, c: int, nbcblk: int, ghost nbcb: seq<int>)
    requires Valid(s) && s.cblktab[0].fcolnum == 0 && 0 <= c < s.CblkNbr() == |nbcb| && nbcb[c] == 1
    requires 0 <= first <= s.cblktab[c].lcolnum && nb.Length == NodeNbr(s) - first + 1 && Costs(s, nbcb, nb[..], first)
    modifies nb
    ensures Costs(s, nbcb[c := nbcblk], nb[..], first)
  {
    assert ValidColumn(s, c);
    ghost var before := nb[..];
    var bloknum := s.cblktab[c].bloknum + 1;
    CountersStart(s, before, first, c, nbcblk - 1);
    while bloknum < s.cblktab[c + 1].bloknum
      invariant s.First(c) < bloknum <= s.Last(c) && AddedTo(s, before, nb[..], first, c, bloknum, nbcblk - 1)
    {
      AddBlok(s, nb, first, c, bloknum, nbcblk - 1, before);
      bloknum := bloknum + 1;
    }
    ghost var after := nbcb[c := nbcblk];
    forall x | 0 <= x < nb.Length ensures CostsAt(s, after, nb[..], first, x) {
      assert AddedToAt(s, before, nb[..], first, c, s.Last(c), nbcblk - 1, x);
      assert CostsAt(s, nbcb, before, first, x);
      CostAfterCut(s, nbcb, c, nbcblk, first + x, |s.bloktab|);
      AddedNone(s, c, first + x, s.Last(c), |s.bloktab|, nbcblk - 1);
    }
  }

  lemma CountersStart(s: Symbol, before: seq<int>, first: int, c: int, d: int)
    requires Valid(s) && 0 <= c < s.CblkNbr()
    ensures ValidColumn(s, c) && AddedTo(s, before, before, first, c, s.First(c) + 1, d)
  {
    assert ValidColumn(s, c);
    var k := s.First(c) + 1;
    forall x | 0 <= x < |before| ensures AddedToAt(s, before, before, first, c, k, d, x) {
      AddedNone(s, c, first + x, 0, k, d);
    }
  }

  /** The blocks of c before k have been added. */
  ghost predicate AddedTo(s: Symbol, before: seq<int>, nb: seq<int>, first: int, c: int, k: int, d: int)
    requires 0 <= k <= |s.bloktab|
  {
    |nb| == |before| && forall x :: 0 <= x < |nb| ==> AddedToAt(s, before, nb, first, c, k, d, x)
  }
  ghost predicate AddedToAt(s: Symbol, before: seq<int>, nb: seq<int>, first: int, c: int, k: int, d: int, x: int)
    requires 0 <= k <= |s.bloktab| && 0 <= x < |nb| == |before|
  {
    nb[x] == before[x] + Added(s, c, first + x, k, d)
  }

  method AddBlok(s: Symbol, nb: array<int>, first: int, c: int, k: int, d: int, ghost before: seq<int>)
    requires Valid(s) && s.cblktab[0].fcolnum == 0 && 0 <= c < s.CblkNbr() && s.First(c) < k < s.Last(c)
             && 0 <= k < |s.bloktab|
    requires 0 <= first <= s.cblktab[c].lcolnum && nb.Length == NodeNbr(s) - first + 1
             && AddedTo(s, before, nb[..], first, c, k, d)
    modifies nb
    ensures AddedTo(s, before, nb[..], first, c, k + 1, d)
  {
    RowsInRange(s, k);
    OwnedBy(s, k, c);
    FacesLater(s, c, k);
    assert ValidColumn(s, c);
    ghost var now := nb[..];
    assert first <= s.bloktab[k].frownum by { assert s.bloktab[s.First(c)].lrownum < s.bloktab[k].frownum; }
    AddLines(nb, first, s.bloktab[k].frownum, s.bloktab[k].lrownum, d);
    ghost var next := k + 1;
    forall x | 0 <= x < nb.Length ensures AddedToAt(s, before, nb[..], first, c, next, d, x) {
      assert AddedToAt(s, before, now, first, c, k, d, x);
    }
  }

  // ----- Cutting all the column blocks -----

  datatype Params = Params(blcolmin: int, blcolmax: int, percent: int)

  predicate ParamsOk(pm: Params) { pm.blcolmin >= 2 && pm.percent >= 0 }

  /** Number of pieces asked for. */
  function NSeq(pm: Params, width: int): int
    requires ParamsOk(pm)
  {
    if width <= pm.blcolmax then 1 else width / pm.blcolmin
  }

  function Width(s: Symbol, i: int): int
    requires 0 <= i < s.CblkNbr()
  {
    s.cblktab[i].lcolnum - s.cblktab[i].fcolnum + 1
  }

  function StepOf(pm: Params, width: int): int
    requires ParamsOk(pm) && 0 <= width && NSeq(pm, width) > 1
  {
    CeilDiv(width, NSeq(pm, width))
  }

  function LimitOf(pm: Params, step: int): int
    requires ParamsOk(pm) && 0 <= step
  {
    Product(step, pm.percent);
    CeilDiv(step * pm.percent, 100)
  }

  lemma StepAboveOne(pm: Params, width: int)
    requires ParamsOk(pm) && 1 <= width && NSeq(pm, width) > 1
    ensures StepOf(pm, width) > 1
  {
    var n := NSeq(pm, width);
    DivBounds(width, pm.blcolmin);
    Smaller(2, pm.blcolmin, n);
    DivAtLeast(width + n - 1, n, 2);
  }

  /** The column block is left whole, or each of its pieces ends where the counters tell. */
  ghost predicate WellCut(s: Symbol, e: Extra, i: int, pm: Params)
    requires Valid(s) && 0 <= i < s.CblkNbr() == |e.sptcbnb| == |e.sptcblk| && ExtraOk(s, e, i) && ParamsOk(pm)
  {
    assert CblkOk(s, i);
    var width, l := Width(s, i), s.cblktab[i].lcolnum;
    if NSeq(pm, width) <= 1 then e.sptcbnb[i] == 1
    else
      var step := StepOf(pm, width);
      forall k :: 0 <= k < |Pieces(s, e, i)| ==> PieceBest(s, e.sptcbnb, Pieces(s, e, i), l, step, LimitOf(pm, step), k)
  }

  ghost predicate CutUpTo(s: Symbol, e: Extra, c: int, pm: Params)
    requires Valid(s) && ParamsOk(pm)
  {
    && |e.sptcbnb| == |e.sptcblk| == s.CblkNbr() && 0 <= c <= s.CblkNbr()
    && (forall i :: 0 <= i < c ==> ExtraOk(s, e, i) && WellCut(s, e, i, pm))
    && (forall i :: c <= i < s.CblkNbr() ==> e.sptcbnb[i] == 1)
  }

  lemma BestCutSame(s: Symbol, nbcb: seq<int>, after: seq<int>, c: int, f: int, width: int, step: int, limit: int,
                    lcol: int)
    requires Valid(s) && 0 <= c < s.CblkNbr() == |nbcb| == |after| && forall i :: 0 <= i < c ==> nbcb[i] == after[i]
    requires s.cblktab[c].fcolnum <= f && f + width - 1 <= s.cblktab[c].lcolnum && step > 1
    requires BestCut(s, nbcb, f, width, step, limit, lcol)
    ensures BestCut(s, after, f, width, step, limit, lcol)
  {
    if step < width {
      CostOnlyBefore(s, nbcb, after, c, lcol, |s.bloktab|);
      CostOnlyBefore(s, nbcb, after, c, f + step - 1, |s.bloktab|);
      forall i | i == f + step - 1 || InWindow(f, width, step, limit, i)
        ensures LineCost(s, after, lcol) <= LineCost(s, after, i)
                && (TriedBefore(f + step - 1, i, lcol) ==> LineCost(s, after, lcol) < LineCost(s, after, i)) {
        CostOnlyBefore(s, nbcb, after, c, i, |s.bloktab|);
      }
    }
  }

  /** The tables after column block c was cut in the pieces p. */
  function WithPieces(e: Extra, c: int, p: seq<Cblk>): Extra
    requires 0 <= c < |e.sptcblk| == |e.sptcbnb|
  {
    Extra(e.sptcblk[c := |e.cblktab|], e.sptcbnb[c := |p|], e.cblktab + p)
  }

  lemma SliceOfSum(x: seq<Cblk>, y: seq<Cblk>, lo: int, hi: int)
    requires 0 <= lo <= hi <= |x|
    ensures (x + y)[lo..hi] == x[lo..hi]
  {
  }

  lemma PiecesKept(s: Symbol, e: Extra, c: int, p: seq<Cblk>, i: int)
    requires Valid(s) && |e.sptcbnb| == |e.sptcblk| == s.CblkNbr() && 0 <= i < c < s.CblkNbr() && ExtraOk(s, e, i)
    ensures ExtraOk(s, WithPieces(e, c, p), i) && Pieces(s, WithPieces(e, c, p), i) == Pieces(s, e, i)
  {
    var a := WithPieces(e, c, p);
    assert a.sptcbnb[i] == e.sptcbnb[i] && a.sptcblk[i] == e.sptcblk[i];
    if e.sptcbnb[i] > 1 {
      SliceOfSum(e.cblktab, p, e.sptcblk[i], e.sptcblk[i] + e.sptcbnb[i]);
      assert Pieces(s, a, i) == Pieces(s, e, i);
    } else {
      assert Pieces(s, a, i) == Pieces(s, e, i);
    }
  }

  lemma WellCutKept(s: Symbol, e: Extra, c: int, p: seq<Cblk>, i: int, pm: Params)
    requires Valid(s) && |e.sptcbnb| == |e.sptcblk| == s.CblkNbr() && 0 <= i < c < s.CblkNbr() && ExtraOk(s, e, i)
    requires ParamsOk(pm) && WellCut(s, e, i, pm)
    ensures ExtraOk(s, WithPieces(e, c, p), i) && WellCut(s, WithPieces(e, c, p), i, pm)
  {
    PiecesKept(s, e, c, p, i);
    assert CblkOk(s, i);
    var width, q, after := Width(s, i), Pieces(s, e, i), WithPieces(e, c, p).sptcbnb;
    if NSeq(pm, width) > 1 {
      StepAboveOne(pm, width);
      var step, l := StepOf(pm, width), s.cblktab[i].lcolnum;
      forall k | 0 <= k < |q| ensures PieceBest(s, after, q, l, step, LimitOf(pm, step), k) {
        assert PieceBest(s, e.sptcbnb, q, l, step, LimitOf(pm, step), k);
        PieceInside(q, s.cblktab[i].fcolnum, l, k);
        BestCutSame(s, e.sptcbnb, after, i, q[k].fcolnum, l - q[k].fcolnum + 1, step, LimitOf(pm, step), q[k].lcolnum);
      }
    }
  }

  lemma NewPieces(s: Symbol, e: Extra, c: int, p: seq<Cblk>, pm: Params)
    requires Valid(s) && |e.sptcbnb| == |e.sptcblk| == s.CblkNbr() && 0 <= c < s.CblkNbr() && ParamsOk(pm)
             && CblkOk(s, c)
    requires NSeq(pm, Width(s, c)) > 1 && Tiles(p, s.cblktab[c].fcolnum, s.cblktab[c].lcolnum)
    requires var step := StepOf(pm, Width(s, c));
             forall k :: 0 <= k < |p| ==> PieceBest(s, e.sptcbnb, p, s.cblktab[c].lcolnum, step, LimitOf(pm, step), k)
    ensures ExtraOk(s, WithPieces(e, c, p), c) && WellCut(s, WithPieces(e, c, p), c, pm)
  {
    var a := WithPieces(e, c, p);
    var q := Pieces(s, a, c);
    if |p| > 1 { assert q == p; } else { assert q == [s.cblktab[c]] && PieceOk(p, 0); }
    forall k | 0 <= k < |q| ensures PieceOk(q, k) && q[k].fcolnum == p[k].fcolnum && q[k].lcolnum == p[k].lcolnum {
      assert PieceOk(p, k);
    }
    StepAboveOne(pm, Width(s, c));
    var step, l := StepOf(pm, Width(s, c)), s.cblktab[c].lcolnum;
    forall k | 0 <= k < |q| ensures PieceBest(s, a.sptcbnb, q, l, step, LimitOf(pm, step), k) {
      assert PieceBest(s, e.sptcbnb, p, l, step, LimitOf(pm, step), k);
      PieceInside(p, s.cblktab[c].fcolnum, l, k);
      BestCutSame(s, e.sptcbnb, a.sptcbnb, c, p[k].fcolnum, l - p[k].fcolnum + 1, step, LimitOf(pm, step),
                  p[k].lcolnum);
    }
  }

  lemma CutNext(s: Symbol, e: Extra, c: int, p: seq<Cblk>, pm: Params)
    requires Valid(s) && ParamsOk(pm) && CutUpTo(s, e, c, pm) && c < s.CblkNbr() && CblkOk(s, c)
    requires NSeq(pm, Width(s, c)) > 1 && Tiles(p, s.cblktab[c].fcolnum, s.cblktab[c].lcolnum)
    requires var step := StepOf(pm, Width(s, c));
             forall k :: 0 <= k < |p| ==> PieceBest(s, e.sptcbnb, p, s.cblktab[c].lcolnum, step, LimitOf(pm, step), k)
    ensures CutUpTo(s, WithPieces(e, c, p), c + 1, pm)
  {
    var a := WithPieces(e, c, p);
    NewPieces(s, e, c, p, pm);
    forall i | 0 <= i < c + 1 ensures ExtraOk(s, a, i) && WellCut(s, a, i, pm) {
      if i < c { WellCutKept(s, e, c, p, i, pm); }
    }
  }

  lemma CutNone(s: Symbol, e: Extra, c: int, pm: Params)
    requires Valid(s) && ParamsOk(pm) && CutUpTo(s, e, c, pm) && c < s.CblkNbr()
    requires CblkOk(s, c) && NSeq(pm, Width(s, c)) <= 1
    ensures CutUpTo(s, e, c + 1, pm)
  {
    var q := Pieces(s, e, c);
    assert q == [s.cblktab[c]];
    assert PieceOk(q, 0);
    assert ExtraOk(s, e, c) && WellCut(s, e, c, pm);
  }

  lemma {:induction false} NewNumUpdate(e: Extra, c: int, p: seq<Cblk>, n: int)
    requires 0 <= c < |e.sptcblk| == |e.sptcbnb| && 0 <= n <= |e.sptcbnb|
    ensures NewNum(WithPieces(e, c, p), n) == NewNum(e, n) + if c < n then |p| - e.sptcbnb[c] else 0
    decreases n
  {
    if n > 0 { NewNumUpdate(e, c, p, n - 1); }
  }

  lemma {:induction false} NewNumOnes(e: Extra, n: int)
    requires 0 <= n <= |e.sptcbnb| && forall i :: 0 <= i < n ==> e.sptcbnb[i] == 1
    ensures NewNum(e, n) == n
    decreases n
  {
    if n > 0 { NewNumOnes(e, n - 1); }
  }

  /** Cuts column block c, which is wide enough, and updates the tables and the counters. */
  method CutCblk(s: Symbol, extra: ExtraCblk, nb: array<int>, first: int, c: int, nseq: int, pm: Params)
    requires Valid(s) && s.cblktab[0].fcolnum == 0 && ParamsOk(pm) && 0 <= c < s.CblkNbr() == extra.cblknbr
             && CblkOk(s, c)
    requires extra.Valid() && CutUpTo(s, extra.Value(), c, pm) && nseq == NSeq(pm, Width(s, c)) > 1
    requires CountersReady(s, nb[..], first, extra.Numbers(), c)
    requires extra.addcblk == NewNum(extra.Value(), s.CblkNbr()) - s.CblkNbr()
    modifies extra, extra.cblktab, nb
    ensures extra.Valid() && (extra.cblktab == old(extra.cblktab) || fresh(extra.cblktab))
    ensures CutUpTo(s, extra.Value(), c + 1, pm) && CountersReady(s, nb[..], first, extra.Numbers(), c + 1)
    ensures extra.addcblk == NewNum(extra.Value(), s.CblkNbr()) - s.CblkNbr()
  {
    ghost var e := extra.Value();
    var fcolnum, lcolnum := s.cblktab[c].fcolnum, s.cblktab[c].lcolnum;
    var step := CeilDiv(lcolnum - fcolnum + 1, nseq);
    assert step == StepOf(pm, Width(s, c));
    StepAboveOne(pm, Width(s, c));
    ColumnRange(s, c);
    var nbcblk; ghost var p;
    nbcblk, p := CutPieces(s, extra, nb, first, fcolnum, lcolnum, step, pm.percent, e.sptcbnb);
    extra.Mark(c, nbcblk);
    assert extra.Value() == WithPieces(e, c, p);
    CutNext(s, e, c, p, pm);
    NewNumUpdate(e, c, p, s.CblkNbr());
    UpdateCounters(s, nb, first, c, nbcblk, e.sptcbnb);
  }

  /** The counters before any cut. */
  lemma CountedAreCosts(s: Symbol, nbcb: seq<int>, nb: seq<int>, first: int)
    requires Counted(s, nb, first, |s.bloktab|) && forall i :: 0 <= i < |nbcb| ==> nbcb[i] == 1
    ensures Costs(s, nbcb, nb, first)
  {
    forall x | 0 <= x < |nb| ensures CostsAt(s, nbcb, nb, first, x) {
      assert CountedAt(s, nb, first, |s.bloktab|, x);
      CostUncut(s, nbcb, first + x, |s.bloktab|);
    }
  }

  /** splitSmart: the pieces tile the column blocks that are cut, each cut is as the counters
      tell, and the counters are the costs of the lines under the cuts made so far. */
  method SplitSmart(s: Symbol, extra: ExtraCblk, pm: Params)
    requires Valid(s) && s.cblktab[0].fcolnum == 0 && ParamsOk(pm) && extra.Valid() && extra.cblknbr == s.CblkNbr()
    requires extra.Value() == Extra(seq(s.CblkNbr(), _ => -1), seq(s.CblkNbr(), _ => 1), []) && extra.addcblk == 0
    modifies extra, extra.cblktab
    ensures extra.Valid() && ValidExtra(s, extra.Value())
    ensures forall i :: 0 <= i < s.CblkNbr() ==> WellCut(s, extra.Value(), i, pm)
    ensures extra.addcblk == NewNum(extra.Value(), s.CblkNbr()) - s.CblkNbr()
  {
    var fsplitrow, nb := -1, new int[0];
    NewNumOnes(extra.Value(), s.CblkNbr());
    var c := 0;
    while c < s.CblkNbr()
      invariant 0 <= c <= s.CblkNbr() && extra.Valid() && CutUpTo(s, extra.Value(), c, pm) && fresh(nb)
      invariant extra.cblktab == old(extra.cblktab) || fresh(extra.cblktab)
      invariant extra.addcblk == NewNum(extra.Value(), s.CblkNbr()) - s.CblkNbr()
      invariant fsplitrow == -1 ==> forall i :: 0 <= i < s.CblkNbr() ==> extra.Numbers()[i] == 1
      invariant fsplitrow != -1 ==> CountersReady(s, nb[..], fsplitrow, extra.Numbers(), c)
    {
      assert CblkOk(s, c);
      var width := s.cblktab[c].lcolnum - s.cblktab[c].fcolnum + 1;
      var nseq := NbSplit(width, pm.blcolmin, pm.blcolmax);
      NSeqIs(pm, width, nseq);
      if nseq <= 1 {
        CutNone(s, extra.Value(), c, pm);
      } else {
        if fsplitrow == -1 {
          fsplitrow := s.cblktab[c].fcolnum;
          nb := FirstCounters(s, c, extra.Numbers());
        }
        CutCblk(s, extra, nb, fsplitrow, c, nseq, pm);
      }
      c := c + 1;
    }
  }

  /** Counters from the first column block that is cut. */
  method FirstCounters(s: Symbol, c: int, ghost nbcb: seq<int>) returns (nb: array<int>)
    requires Valid(s) && s.cblktab[0].fcolnum == 0 && 0 <= c < s.CblkNbr() && forall i :: 0 <= i < |nbcb| ==>
               nbcb[i] == 1
    ensures fresh(nb) && CountersReady(s, nb[..], s.cblktab[c].fcolnum, nbcb, c)
  {
    ColumnRange(s, c);
    nb := NbBlocksPerLine(s, s.cblktab[c].fcolnum);
    CountedAreCosts(s, nbcb, nb[..], s.cblktab[c].fcolnum);
    forall i | c <= i < s.CblkNbr() ensures s.cblktab[c].fcolnum <= s.cblktab[i].fcolnum {
      assert CblkOk(s, c);
      if c < i { ColumnsIncrease(s, c, i); }
    }
  }

  lemma NSeqIs(pm: Params, width: int, nseq: int)
    requires ParamsOk(pm) && 1 <= width && (width <= pm.blcolmax ==> nseq == 1)
    requires width > pm.blcolmax ==> nseq * pm.blcolmin <= width < (nseq + 1) * pm.blcolmin
    ensures nseq == NSeq(pm, width)
  {
    if width > pm.blcolmax {
      var q := width / pm.blcolmin;
      DivBounds(width, pm.blcolmin);
      if q < nseq { Smaller(q + 1, nseq, pm.blcolmin); }
      if nseq < q { Smaller(nseq + 1, q, pm.blcolmin); }
    }
  }

  ghost predicate CountersReady(s: Symbol, nb: seq<int>, first: int, nbcb: seq<int>, c: int)
    requires Valid(s) && 0 <= c <= s.CblkNbr()
  {
    && 0 <= first && |nb| == NodeNbr(s) - first + 1 && Costs(s, nbcb, nb, first)
    && (forall i :: c <= i < s.CblkNbr() ==> first <= s.cblktab[i].fcolnum)
  }
}

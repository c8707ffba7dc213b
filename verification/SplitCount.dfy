/** What the counters of blend/splitsymbol.c are for: a cut adds exactly its counter less one
    blocks to the structure that blend/extracblk.c builds. */
module SplitCount {
  import opened SymbolMatrix
  import opened Split
  import opened SplitProps
  import opened Merge
  import opened Counters

  // ----- Parts of a block and cuts that cross it -----

  /** Cuts after the first m pieces that divide b. */
  function CutsIn(b: Blok, p: seq<Cblk>, m: int): (c: int)
    requires 0 <= m <= |p|
    ensures 0 <= c
    decreases m
  {
    if m == 0 then 0 else CutsIn(b, p, m - 1) + if Crosses(b, p[m - 1].lcolnum) then 1 else 0
  }

  /** A block has one part more than the cuts that cross it. */
  lemma {:induction false} PartsAreCuts(b: Blok, p: seq<Cblk>, f: int, l: int, base: int, q: int, k: int)
    requires Tiles(p, f, l) && f <= b.frownum <= b.lrownum <= l && 0 <= k <= |p|
    ensures if k == 0 || p[k - 1].lcolnum < b.frownum then Cut(b, p, base, q, k) == [] && CutsIn(b, p, k) == 0
            else |Cut(b, p, base, q, k)| == 1 + CutsIn(b, p, k - 1)
    decreases k
  {
    if k > 0 {
      PartsAreCuts(b, p, f, l, base, q, k - 1);
      assert PieceOk(p, k - 1);
      if k > 1 { assert PieceOk(p, k - 2); }
    }
  }

  /** Cuts of the column block that old block b faces that divide it. */
  function CutsOf(s: Symbol, e: Extra, b: int): (c: int)
    requires ValidExtra(s, e) && 0 <= b < |s.bloktab| && 0 <= s.bloktab[b].fcblknm < s.CblkNbr()
    ensures 0 <= c
  {
    assert ExtraOk(s, e, s.bloktab[b].fcblknm);
    CutsIn(s.bloktab[b], Pieces(s, e, s.bloktab[b].fcblknm), |Pieces(s, e, s.bloktab[b].fcblknm)| - 1)
  }

  lemma PartsOfBlok(s: Symbol, e: Extra, b: int)
    requires ValidExtra(s, e) && 0 <= b < |s.bloktab|
    ensures 0 <= s.bloktab[b].fcblknm < s.CblkNbr() && Parts(s, e, b) == 1 + CutsOf(s, e, b)
  {
    var i := OwnerOf(s, b, s.CblkNbr());
    var f := s.bloktab[b].fcblknm;
    assert ExtraOk(s, e, f);
    var p := Pieces(s, e, f);
    PartsAreCuts(s.bloktab[b], p, s.cblktab[f].fcolnum, s.cblktab[f].lcolnum, NewNum(e, f), 0, |p|);
  }

  // ----- Sums over the old blocks -----

  /** New blocks that come from the off-diagonal blocks before k. */
  function OffBlocks(s: Symbol, e: Extra, k: int): int
    requires ValidExtra(s, e) && 0 <= k <= |s.bloktab|
    decreases k
  {
    if k == 0 then 0
    else
      PartsOfBlok(s, e, k - 1);
      OffBlocks(s, e, k - 1) + if IsDiag(s, k - 1) then 0 else Times(Copies(s, e, k - 1), Parts(s, e, k - 1))
  }

  /** Pieces of the owner of block b. */
  function Copies(s: Symbol, e: Extra, b: int): (w: int)
    requires ValidExtra(s, e) && 0 <= b < |s.bloktab|
    ensures 0 <= w
  {
    OwnerInRange(s, b);
    assert ExtraOk(s, e, s.bloktab[b].lcblknm);
    e.sptcbnb[s.bloktab[b].lcblknm]
  }

  lemma OwnerInRange(s: Symbol, b: int)
    requires Valid(s) && 0 <= b < |s.bloktab|
    ensures 0 <= s.bloktab[b].lcblknm < s.CblkNbr()
  {
    var i := OwnerOf(s, b, s.CblkNbr());
  }

  lemma DiagIsFirst(s: Symbol, i: int, b: int)
    requires Valid(s) && 0 <= i < s.CblkNbr() && s.First(i) <= b < s.Last(i)
    ensures 0 <= b < |s.bloktab| && s.bloktab[b].lcblknm == i && (IsDiag(s, b) <==> b == s.First(i))
  {
    assert ValidColumn(s, i);
    assert ValidBlok(s, i, b);
  }

  lemma OffStep(s: Symbol, e: Extra, i: int, k: int, next: int)
    requires ValidExtra(s, e) && OldBlok(s, i, k) && next == k + 1 && 0 <= e.sptcbnb[i]
    ensures OffBlocks(s, e, next) == OffBlocks(s, e, k) + Times(e.sptcbnb[i], Parts(s, e, k))
    ensures Times(e.sptcbnb[i], PartsOf(s, e, i, next))
            == Times(e.sptcbnb[i], PartsOf(s, e, i, k)) + Times(e.sptcbnb[i], Parts(s, e, k))
  {
    DiagIsFirst(s, i, k);
    TimesPlus(e.sptcbnb[i], PartsOf(s, e, i, k), Parts(s, e, k));
  }

  /** The off-diagonal blocks of i before k, among those of all column blocks. */
  ghost predicate OffIs(s: Symbol, e: Extra, i: int, first: int, k: int)
    requires ValidExtra(s, e) && 0 <= i < s.CblkNbr() && s.First(i) < k <= s.Last(i)
  {
    && 1 <= e.sptcbnb[i] && 0 <= first < k <= |s.bloktab|
    && OffBlocks(s, e, k) == OffBlocks(s, e, first) + Times(e.sptcbnb[i], PartsOf(s, e, i, k))
  }

  lemma OffFirst(s: Symbol, e: Extra, i: int, first: int, k: int)
    requires ValidExtra(s, e) && 0 <= i < s.CblkNbr() && first == s.First(i) && k == first + 1 <= s.Last(i)
    ensures OffIs(s, e, i, first, k)
  {
    assert ExtraOk(s, e, i) && ValidColumn(s, i);
    DiagIsFirst(s, i, first);
    TimesZero(e.sptcbnb[i]);
  }

  lemma {:induction false} OffOfColumn(s: Symbol, e: Extra, i: int, first: int, k: int)
    requires ValidExtra(s, e) && 0 <= i < s.CblkNbr() && first == s.First(i) < k <= s.Last(i)
    ensures OffIs(s, e, i, first, k)
    decreases k - first
  {
    if k == first + 1 {
      OffFirst(s, e, i, first, k);
    } else {
      OffOfColumn(s, e, i, first, k - 1);
      OffNext(s, e, i, first, k - 1, k);
    }
  }

  lemma OffNext(s: Symbol, e: Extra, i: int, first: int, b: int, k: int)
    requires ValidExtra(s, e) && 0 <= i < s.CblkNbr() && first == s.First(i) < b < k == b + 1 <= s.Last(i)
    requires OffIs(s, e, i, first, b)
    ensures OffIs(s, e, i, first, k)
  {
    OldBlokIs(s, i, b);
    OffStep(s, e, i, b, k);
  }

  lemma {:induction false} TimesPlus(m: int, x: int, y: int)
    requires 0 <= m
    ensures Times(m, x + y) == Times(m, x) + Times(m, y)
    decreases m
  {
    if m > 0 { TimesPlus(m - 1, x, y); }
  }

  /** Diagonal blocks of the new structure, and those that come from old diagonal blocks. */
  function Triangles(e: Extra, i: int): int
    requires 0 <= i <= |e.sptcbnb|
    decreases i
  {
    if i == 0 then 0
    else Triangles(e, i - 1) + if e.sptcbnb[i - 1] >= 0 then Triangle(e.sptcbnb[i - 1], e.sptcbnb[i - 1]) else 0
  }

  /** Blocks of the first i column blocks, after the split. */
  ghost predicate ByKind(s: Symbol, e: Extra, i: int, first: int)
    requires ValidExtra(s, e) && 0 <= i <= s.CblkNbr()
  {
    0 <= first <= |s.bloktab| && BlocksUpTo(s, e, i) == Triangles(e, i) + OffBlocks(s, e, first)
  }

  lemma KindNext(s: Symbol, e: Extra, i: int, next: int, first: int, last: int)
    requires ValidExtra(s, e) && 0 <= i < s.CblkNbr() && next == i + 1 && first == s.First(i) && last == s.Last(i)
    requires ByKind(s, e, i, first)
    ensures ByKind(s, e, next, last)
  {
    assert ExtraOk(s, e, i) && ValidColumn(s, i);
    OffOfColumn(s, e, i, first, last);
  }

  lemma {:induction false} BlocksByKind(s: Symbol, e: Extra, i: int)
    requires ValidExtra(s, e) && 0 <= i <= s.CblkNbr()
    ensures ByKind(s, e, i, s.cblktab[i].bloknum)
    decreases i
  {
    if i > 0 {
      BlocksByKind(s, e, i - 1);
      KindNext(s, e, i - 1, i, s.cblktab[i - 1].bloknum, s.cblktab[i].bloknum);
    }
  }

  // ----- Sums over the cuts -----

  /** Off-diagonal blocks before k that the line divides, with their copies. */
  function OffCost(s: Symbol, nbcb: seq<int>, line: int, k: int): int
    requires 0 <= k <= |s.bloktab|
    decreases k
  {
    if k == 0 then 0
    else OffCost(s, nbcb, line, k - 1) + if !IsDiag(s, k - 1) && Crosses(s.bloktab[k - 1], line)
        then Weight(s, nbcb, k - 1) else 0
  }

  /** Inside a column block one diagonal block is divided. */
  lemma {:induction false} CostSplits(s: Symbol, nbcb: seq<int>, c: int, line: int, k: int)
    requires Valid(s) && 0 <= c < s.CblkNbr() && s.cblktab[c].fcolnum <= line < s.cblktab[c].lcolnum
             && 0 <= k <= |s.bloktab|
    ensures Cost(s, nbcb, line, k) == OffCost(s, nbcb, line, k) + if s.First(c) < k then 1 else 0
    decreases k
  {
    if k > 0 {
      CostSplits(s, nbcb, c, line, k - 1);
      assert ValidColumn(s, c);
      var i := OwnerOf(s, k - 1, s.CblkNbr());
      DiagIsFirst(s, i, k - 1);
      if k - 1 == s.First(c) { DiagIsFirst(s, c, k - 1); }
      if IsDiag(s, k - 1) && Crosses(s.bloktab[k - 1], line) {
        CrossingFaces(s, k - 1, c, line);
        assert ValidColumn(s, i);
      }
    }
  }

  /** Costs of the cuts after the first m pieces of column block i. */
  function CutCosts(s: Symbol, e: Extra, i: int, m: int, k: int): int
    requires ValidExtra(s, e) && 0 <= i < s.CblkNbr() && 0 <= m < e.sptcbnb[i] && 0 <= k <= |s.bloktab|
    decreases m
  {
    assert ExtraOk(s, e, i);
    if m == 0 then 0 else CutCosts(s, e, i, m - 1, k) + OffCost(s, e.sptcbnb, Pieces(s, e, i)[m - 1].lcolnum, k)
  }

  lemma {:induction false} CutCostsNone(s: Symbol, e: Extra, i: int, m: int)
    requires ValidExtra(s, e) && 0 <= i < s.CblkNbr() && 0 <= m < e.sptcbnb[i]
    ensures CutCosts(s, e, i, m, 0) == 0
    decreases m
  {
    if m > 0 { CutCostsNone(s, e, i, m - 1); }
  }

  lemma {:induction false} CutCostsNext(s: Symbol, e: Extra, i: int, m: int, b: int)
    requires ValidExtra(s, e) && 0 <= i < s.CblkNbr() && 0 <= m < e.sptcbnb[i] && 0 <= b < |s.bloktab|
    ensures ExtraOk(s, e, i) && m <= |Pieces(s, e, i)|
    ensures CutCosts(s, e, i, m, b + 1)
            == CutCosts(s, e, i, m, b) + if IsDiag(s, b) then 0
                else Times(CutsIn(s.bloktab[b], Pieces(s, e, i), m), Weight(s, e.sptcbnb, b))
    decreases m
  {
    assert ExtraOk(s, e, i);
    if m > 0 { CutCostsNext(s, e, i, m - 1, b); }
  }

  /** Costs of the cuts of the first n column blocks. */
  function AllCosts(s: Symbol, e: Extra, n: int, k: int): int
    requires ValidExtra(s, e) && 0 <= n <= s.CblkNbr() && 0 <= k <= |s.bloktab|
    decreases n
  {
    if n == 0 then 0 else AllCosts(s, e, n - 1, k) + ColumnCosts(s, e, n - 1, k)
  }

  /** Costs of all the cuts of column block i. */
  function ColumnCosts(s: Symbol, e: Extra, i: int, k: int): int
    requires ValidExtra(s, e) && 0 <= i < s.CblkNbr() && 0 <= k <= |s.bloktab|
  {
    assert ExtraOk(s, e, i);
    CutCosts(s, e, i, e.sptcbnb[i] - 1, k)
  }

  lemma ColumnCostsNone(s: Symbol, e: Extra, i: int)
    requires ValidExtra(s, e) && 0 <= i < s.CblkNbr()
    ensures ColumnCosts(s, e, i, 0) == 0
  {
    assert ExtraOk(s, e, i);
    CutCostsNone(s, e, i, e.sptcbnb[i] - 1);
  }

  lemma ColumnCostsNext(s: Symbol, e: Extra, i: int, b: int, n: int, next: int)
    requires ValidExtra(s, e) && 0 <= i < n == i + 1 <= s.CblkNbr() && 0 <= b < next == b + 1 <= |s.bloktab|
    requires 0 <= s.bloktab[b].fcblknm < s.CblkNbr()
    ensures ColumnCosts(s, e, i, next) == ColumnCosts(s, e, i, b) + BlokCost(s, e, n, b) - BlokCost(s, e, i, b)
  {
    assert ExtraOk(s, e, i);
    CutCostsOf(s, e, i, b, e.sptcbnb[i] - 1, next);
  }

  lemma {:induction false} AllCostsNone(s: Symbol, e: Extra, n: int)
    requires ValidExtra(s, e) && 0 <= n <= s.CblkNbr()
    ensures AllCosts(s, e, n, 0) == 0
    decreases n
  {
    if n > 0 {
      AllCostsNone(s, e, n - 1);
      ColumnCostsNone(s, e, n - 1);
    }
  }

  /** A block is only divided by cuts of the column block it faces. */
  lemma {:induction false} NoCutElsewhere(s: Symbol, e: Extra, b: int, i: int, m: int)
    requires ValidExtra(s, e) && 0 <= b < |s.bloktab| && 0 <= i < s.CblkNbr() && s.bloktab[b].fcblknm != i
    requires ExtraOk(s, e, i) && 0 <= m <= |Pieces(s, e, i)|
    ensures CutsIn(s.bloktab[b], Pieces(s, e, i), m) == 0
    decreases m
  {
    if m > 0 {
      NoCutElsewhere(s, e, b, i, m - 1);
      PieceInside(Pieces(s, e, i), s.cblktab[i].fcolnum, s.cblktab[i].lcolnum, m - 1);
      if Crosses(s.bloktab[b], Pieces(s, e, i)[m - 1].lcolnum) {
        CrossingFaces(s, b, i, Pieces(s, e, i)[m - 1].lcolnum);
      }
    }
  }

  /** What block b adds to the costs of the cuts of the first n column blocks. */
  function BlokCost(s: Symbol, e: Extra, n: int, b: int): int
    requires ValidExtra(s, e) && 0 <= b < |s.bloktab| && 0 <= s.bloktab[b].fcblknm < s.CblkNbr()
  {
    if IsDiag(s, b) || n <= s.bloktab[b].fcblknm then 0 else Times(CutsOf(s, e, b), Weight(s, e.sptcbnb, b))
  }

  lemma CutCostsOf(s: Symbol, e: Extra, i: int, b: int, m: int, next: int)
    requires ValidExtra(s, e) && 0 <= i < s.CblkNbr() && 0 <= b < |s.bloktab| && 0 <= s.bloktab[b].fcblknm < s.CblkNbr()
    requires 0 <= m == e.sptcbnb[i] - 1 && next == b + 1
    ensures CutCosts(s, e, i, m, next) == CutCosts(s, e, i, m, b) + BlokCost(s, e, i + 1, b) - BlokCost(s, e, i, b)
  {
    assert ExtraOk(s, e, i);
    CutCostsNext(s, e, i, m, b);
    if i != s.bloktab[b].fcblknm { NoCutElsewhere(s, e, b, i, m); }
  }

  lemma {:induction false} AllCostsNext(s: Symbol, e: Extra, n: int, b: int, next: int)
    requires ValidExtra(s, e) && 0 <= n <= s.CblkNbr() && 0 <= b < |s.bloktab|
             && 0 <= s.bloktab[b].fcblknm < s.CblkNbr() && next == b + 1
    ensures AllCosts(s, e, n, next) == AllCosts(s, e, n, b) + BlokCost(s, e, n, b)
    decreases n
  {
    if n > 0 {
      AllCostsNext(s, e, n - 1, b, next);
      ColumnCostsNext(s, e, n - 1, b, n, next);
    }
  }

  /** Copies of the off-diagonal blocks before k. */
  function OffCopies(s: Symbol, e: Extra, k: int): int
    requires ValidExtra(s, e) && 0 <= k <= |s.bloktab|
    decreases k
  {
    if k == 0 then 0 else OffCopies(s, e, k - 1) + if IsDiag(s, k - 1) then 0 else Copies(s, e, k - 1)
  }

  lemma TimesSwap(m: int, x: int)
    requires 0 <= m && 0 <= x
    ensures Times(m, x) == Times(x, m)
  {
    TimesIs(m, x);
    TimesIs(x, m);
  }

  lemma {:induction false} TimesOne(m: int)
    requires 0 <= m
    ensures Times(m, 1) == m
    decreases m
  {
    if m > 0 { TimesOne(m - 1); }
  }

  /** One block: its parts in all its copies are its copies, and one more for each cut. */
  lemma PartsInCopies(s: Symbol, e: Extra, b: int)
    requires ValidExtra(s, e) && 0 <= b < |s.bloktab| && !IsDiag(s, b)
    ensures 0 <= s.bloktab[b].fcblknm < s.CblkNbr()
    ensures Times(Copies(s, e, b), Parts(s, e, b)) == Copies(s, e, b) + Times(CutsOf(s, e, b), Weight(s, e.sptcbnb, b))
  {
    PartsOfBlok(s, e, b);
    OwnerInRange(s, b);
    TimesPlus(Copies(s, e, b), 1, CutsOf(s, e, b));
    TimesOne(Copies(s, e, b));
    TimesSwap(Copies(s, e, b), CutsOf(s, e, b));
  }

  lemma {:induction false} OffBlocksAre(s: Symbol, e: Extra, k: int)
    requires ValidExtra(s, e) && 0 <= k <= |s.bloktab|
    ensures OffBlocks(s, e, k) == OffCopies(s, e, k) + AllCosts(s, e, s.CblkNbr(), k)
    decreases k
  {
    if k == 0 {
      AllCostsNone(s, e, s.CblkNbr());
    } else {
      OffBlocksAre(s, e, k - 1);
      PartsOfBlok(s, e, k - 1);
      AllCostsNext(s, e, s.CblkNbr(), k - 1, k);
      if !IsDiag(s, k - 1) { PartsInCopies(s, e, k - 1); }
    }
  }

  /** The counter of each cut, less one. */
  function Counter(s: Symbol, e: Extra, i: int, m: int): int
    requires ValidExtra(s, e) && 0 <= i < s.CblkNbr() && 0 <= m < e.sptcbnb[i] - 1
  {
    assert ExtraOk(s, e, i);
    Cost(s, e.sptcbnb, Pieces(s, e, i)[m].lcolnum, |s.bloktab|)
  }

  function CounterSum(s: Symbol, e: Extra, i: int, m: int): int
    requires ValidExtra(s, e) && 0 <= i < s.CblkNbr() && 0 <= m < e.sptcbnb[i]
    decreases m
  {
    if m == 0 then 0 else CounterSum(s, e, i, m - 1) + Counter(s, e, i, m - 1) - 1
  }

  function CounterSums(s: Symbol, e: Extra, n: int): int
    requires ValidExtra(s, e) && 0 <= n <= s.CblkNbr()
    decreases n
  {
    if n == 0 then 0 else CounterSums(s, e, n - 1) + ColumnCounters(s, e, n - 1)
  }

  /** The counters of all the cuts of column block i. */
  function ColumnCounters(s: Symbol, e: Extra, i: int): int
    requires ValidExtra(s, e) && 0 <= i < s.CblkNbr()
  {
    assert ExtraOk(s, e, i);
    CounterSum(s, e, i, e.sptcbnb[i] - 1)
  }

  lemma ColumnCountersAre(s: Symbol, e: Extra, i: int)
    requires ValidExtra(s, e) && 0 <= i < s.CblkNbr()
    ensures ColumnCounters(s, e, i) == ColumnCosts(s, e, i, |s.bloktab|)
  {
    assert ExtraOk(s, e, i);
    CountersAreCosts(s, e, i, e.sptcbnb[i] - 1);
  }

  lemma {:induction false} CountersAreCosts(s: Symbol, e: Extra, i: int, m: int)
    requires ValidExtra(s, e) && 0 <= i < s.CblkNbr() && 0 <= m < e.sptcbnb[i]
    ensures CounterSum(s, e, i, m) == CutCosts(s, e, i, m, |s.bloktab|)
    decreases m
  {
    if m > 0 {
      assert ExtraOk(s, e, i) && ValidColumn(s, i);
      CountersAreCosts(s, e, i, m - 1);
      var p := Pieces(s, e, i);
      PieceInside(p, s.cblktab[i].fcolnum, s.cblktab[i].lcolnum, m - 1);
      PieceInside(p, s.cblktab[i].fcolnum, s.cblktab[i].lcolnum, m);
      assert PieceOk(p, m - 1);
      CostSplits(s, e.sptcbnb, i, p[m - 1].lcolnum, |s.bloktab|);
    }
  }

  lemma {:induction false} SumsAreCosts(s: Symbol, e: Extra, n: int)
    requires ValidExtra(s, e) && 0 <= n <= s.CblkNbr()
    ensures CounterSums(s, e, n) == AllCosts(s, e, n, |s.bloktab|)
    decreases n
  {
    if n > 0 {
      SumsAreCosts(s, e, n - 1);
      ColumnCountersAre(s, e, n - 1);
    }
  }

  /** The blocks of the new structure: the triangles of the diagonal, the copies of the
      off-diagonal blocks, and for every cut its counter less one. */
  lemma BlocksFromCounters(s: Symbol, e: Extra)
    requires ValidExtra(s, e) && s.CblkNbr() > 0
    ensures |Merged(s, e).bloktab|
            == Triangles(e, s.CblkNbr()) + OffCopies(s, e, |s.bloktab|) + CounterSums(s, e, s.CblkNbr())
  {
    BlocksInAll(s, e);
    BlocksByKind(s, e, s.CblkNbr());
    OffBlocksAre(s, e, |s.bloktab|);
    SumsAreCosts(s, e, s.CblkNbr());
  }
}

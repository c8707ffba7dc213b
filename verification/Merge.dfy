/** extraCblkMerge of blend/extracblk.c: the pass that renumbers and counts, and the pass that
    fills the tables of the new structure. The cursors of the source are the lengths of the
    sequences that are filled; the two final assertions say that they end where the first
    pass said they would. */
module Merge {
  import opened SymbolMatrix
  import opened Split
  import opened SplitProps

  // ----- Counting -----

  lemma {:induction false} CutSize(b: Blok, p: seq<Cblk>, base: int, base2: int, q: int, q2: int, k: int)
    requires 0 <= k <= |p|
    ensures |Cut(b, p, base, q, k)| == |Cut(b, p, base2, q2, k)|
    decreases k
  {
    if k > 0 { CutSize(b, p, base, base2, q, q2, k - 1); }
  }

  /** In how many parts old block b is cut. */
  function Parts(s: Symbol, e: Extra, b: int): (h: int)
    requires ValidExtra(s, e) && 0 <= b < |s.bloktab| && 0 <= s.bloktab[b].fcblknm < s.CblkNbr()
    ensures 0 <= h
  {
    |CutBlok(s, e, b, 0)|
  }

  lemma PartsAny(s: Symbol, e: Extra, b: int, q: int)
    requires ValidExtra(s, e) && 0 <= b < |s.bloktab| && 0 <= s.bloktab[b].fcblknm < s.CblkNbr()
    ensures |CutBlok(s, e, b, q)| == Parts(s, e, b)
  {
    var f := s.bloktab[b].fcblknm;
    assert ExtraOk(s, e, f);
    CutSize(s.bloktab[b], Pieces(s, e, f), NewNum(e, f), NewNum(e, f), q, 0, |Pieces(s, e, f)|);
  }

  /** Parts of the off-diagonal blocks of i before block k. */
  function PartsOf(s: Symbol, e: Extra, i: int, k: int): (h: int)
    requires ValidExtra(s, e) && 0 <= i < s.CblkNbr() && s.First(i) < k <= s.Last(i)
    ensures 0 <= h
    decreases k - s.First(i)
  {
    if k == s.First(i) + 1 then 0
    else OldBlokIs(s, i, k - 1); PartsOf(s, e, i, k - 1) + Parts(s, e, k - 1)
  }

  lemma {:induction false} OffSize(s: Symbol, e: Extra, i: int, q: int, k: int)
    requires ValidExtra(s, e) && 0 <= i < s.CblkNbr() && s.First(i) < k <= s.Last(i)
    ensures |Off(s, e, i, q, k)| == PartsOf(s, e, i, k)
    decreases k - s.First(i)
  {
    if k > s.First(i) + 1 {
      OffSize(s, e, i, q, k - 1);
      OffSizeNext(s, e, i, q, k - 1, k);
    }
  }

  lemma OffSizeNext(s: Symbol, e: Extra, i: int, q: int, b: int, k: int)
    requires ValidExtra(s, e) && 0 <= i < s.CblkNbr() && s.First(i) < b < k == b + 1 <= s.Last(i)
    requires |Off(s, e, i, q, b)| == PartsOf(s, e, i, b)
    ensures |Off(s, e, i, q, k)| == PartsOf(s, e, i, k)
  {
    OldBlokIs(s, i, b);
    PartsAny(s, e, b, q);
  }

  /** Blocks of the first m pieces of a column block cut in w pieces, off its diagonal block. */
  function Triangle(w: int, m: int): int
    requires 0 <= m
    decreases m
  {
    if m == 0 then 0 else Triangle(w, m - 1) + w - m + 1
  }

  lemma {:induction false} TriangleTwice(w: int, m: int)
    requires 0 <= m
    ensures 2 * Triangle(w, m) == m * (2 * w - m + 1)
    decreases m
  {
    if m > 0 {
      TriangleTwice(w, m - 1);
      assert (m - 1) * (2 * w - (m - 1) + 1) == m * (2 * w - m + 1) - 2 * (w - m + 1);
    }
  }

  lemma TriangleIs(w: int)
    requires 0 <= w
    ensures (w + 1) * w / 2 == Triangle(w, w)
  {
    TriangleTwice(w, w);
    assert w * (2 * w - w + 1) == (w + 1) * w;
  }

  function Times(m: int, x: int): int
    requires 0 <= m
    decreases m
  {
    if m == 0 then 0 else Times(m - 1, x) + x
  }

  lemma {:induction false} TimesIs(m: int, x: int)
    requires 0 <= m
    ensures Times(m, x) == m * x
    decreases m
  {
    if m > 0 { TimesIs(m - 1, x); }
  }

  /** Blocks of the new columns that come from column block i. */
  function Blocks(s: Symbol, e: Extra, i: int): int
    requires ValidExtra(s, e) && 0 <= i < s.CblkNbr()
  {
    assert ValidColumn(s, i) && ExtraOk(s, e, i);
    Triangle(e.sptcbnb[i], e.sptcbnb[i]) + Times(e.sptcbnb[i], PartsOf(s, e, i, s.Last(i)))
  }

  function BlocksUpTo(s: Symbol, e: Extra, i: int): int
    requires ValidExtra(s, e) && 0 <= i <= s.CblkNbr()
    decreases i
  {
    if i == 0 then 0 else BlocksUpTo(s, e, i - 1) + Blocks(s, e, i - 1)
  }

  /** Blocks before new column (i, m). */
  function BlocksBefore(s: Symbol, e: Extra, i: int, m: int): int
    requires ValidExtra(s, e) && 0 <= i < s.CblkNbr() && 0 <= m <= e.sptcbnb[i]
  {
    assert ValidColumn(s, i);
    BlocksUpTo(s, e, i) + Triangle(e.sptcbnb[i], m) + Times(m, PartsOf(s, e, i, s.Last(i)))
  }

  lemma BlocksNext(s: Symbol, e: Extra, i: int, m: int, next: int)
    requires ValidExtra(s, e) && 0 <= i < s.CblkNbr() && 0 <= m < e.sptcbnb[i] && next == m + 1
    ensures BlocksBefore(s, e, i, next) == BlocksBefore(s, e, i, m) + |SplitColumn(s, e, i, m).bloks|
  {
    assert ValidColumn(s, i);
    ColumnSize(s, e, i, m);
  }

  lemma BlocksFirst(s: Symbol, e: Extra, i: int)
    requires ValidExtra(s, e) && 0 <= i < s.CblkNbr()
    ensures 1 <= e.sptcbnb[i] && BlocksBefore(s, e, i, 0) == BlocksUpTo(s, e, i)
    ensures BlocksBefore(s, e, i, e.sptcbnb[i]) == BlocksUpTo(s, e, i + 1)
  {
    assert ExtraOk(s, e, i) && ValidColumn(s, i);
  }

  lemma StartNext(s: Symbol, e: Extra, i: int, j: int, q: int, next: int, cols: seq<Column>)
    requires At(s, e, i, j, q) && cols == Columns(s, e, s.CblkNbr()) && next == q + 1
    ensures 0 <= q < |cols| && Start(cols, next) == Start(cols, q) + |SplitColumn(s, e, i, j).bloks|
  {
    ColumnsAt(s, e, i, j, s.CblkNbr());
    StartStep(cols, q, next);
  }

  lemma StartStep(cols: seq<Column>, q: int, next: int)
    requires 0 <= q < |cols| && next == q + 1
    ensures Start(cols, next) == Start(cols, q) + |cols[q].bloks|
  {
  }

  lemma {:induction false} StartInRow(s: Symbol, e: Extra, i: int, m: int, base: int, q: int, cols: seq<Column>)
    requires ValidExtra(s, e) && 0 <= i < s.CblkNbr() && 0 <= m <= e.sptcbnb[i] && cols == Columns(s, e, s.CblkNbr())
    requires base == NewNum(e, i) && 0 <= base <= |cols| && Start(cols, base) == BlocksUpTo(s, e, i) && q == base + m
    ensures StartsRight(s, e, i, m, q, cols)
    decreases m
  {
    if m > 0 {
      var k := m - 1;
      StartInRow(s, e, i, k, base, q - 1, cols);
      StartsNext(s, e, i, k, q - 1, m, q, cols);
    } else {
      BlocksFirst(s, e, i);
    }
  }

  ghost predicate StartsRight(s: Symbol, e: Extra, i: int, m: int, q: int, cols: seq<Column>)
    requires ValidExtra(s, e) && 0 <= i < s.CblkNbr() && 0 <= m <= e.sptcbnb[i]
  {
    0 <= q <= |cols| && Start(cols, q) == BlocksBefore(s, e, i, m)
  }

  lemma StartsNext(s: Symbol, e: Extra, i: int, k: int, q: int, m: int, next: int, cols: seq<Column>)
    requires At(s, e, i, k, q) && cols == Columns(s, e, s.CblkNbr()) && m == k + 1 && next == q + 1
    requires StartsRight(s, e, i, k, q, cols)
    ensures StartsRight(s, e, i, m, next, cols)
  {
    StartNext(s, e, i, k, q, next, cols);
    BlocksNext(s, e, i, k, m);
  }

  /** Where the blocks of the new columns of i start. */
  lemma {:induction false} StartOfRow(s: Symbol, e: Extra, i: int, cols: seq<Column>)
    requires ValidExtra(s, e) && 0 <= i <= s.CblkNbr() && cols == Columns(s, e, s.CblkNbr())
    ensures 0 <= NewNum(e, i) <= |cols| && Start(cols, NewNum(e, i)) == BlocksUpTo(s, e, i)
    decreases i
  {
    if i > 0 {
      StartOfRow(s, e, i - 1, cols);
      StartOfNext(s, e, i - 1, i, cols);
    }
  }

  lemma StartOfNext(s: Symbol, e: Extra, k: int, i: int, cols: seq<Column>)
    requires ValidExtra(s, e) && 0 <= k < i == k + 1 <= s.CblkNbr() && cols == Columns(s, e, s.CblkNbr())
    requires 0 <= NewNum(e, k) <= |cols| && Start(cols, NewNum(e, k)) == BlocksUpTo(s, e, k)
    ensures 0 <= NewNum(e, i) <= |cols| && Start(cols, NewNum(e, i)) == BlocksUpTo(s, e, i)
  {
    assert ExtraOk(s, e, k);
    BlocksFirst(s, e, k);
    StartInRow(s, e, k, e.sptcbnb[k], NewNum(e, k), NewNum(e, i), cols);
  }

  lemma ColumnSize(s: Symbol, e: Extra, i: int, j: int)
    requires ValidExtra(s, e) && 0 <= i < s.CblkNbr() && 0 <= j < e.sptcbnb[i]
    ensures ValidColumn(s, i) && |SplitColumn(s, e, i, j).bloks| == e.sptcbnb[i] - j + PartsOf(s, e, i, s.Last(i))
  {
    var q := NewNum(e, i) + j;
    assert ValidColumn(s, i) && ExtraOk(s, e, i) && At(s, e, i, j, q);
    ColumnIs(s, e, i, j, q);
    OffSize(s, e, i, q, s.Last(i));
  }

  /** The new structure has as many blocks as the formula says. */
  lemma BlocksInAll(s: Symbol, e: Extra)
    requires ValidExtra(s, e) && s.CblkNbr() > 0
    ensures |Merged(s, e).bloktab| == BlocksUpTo(s, e, s.CblkNbr())
  {
    StartOfRow(s, e, s.CblkNbr(), Columns(s, e, s.CblkNbr()));
  }

  // ----- One block against the pieces of the column block it faces -----

  /** First row of b that is not in the first k pieces. */
  function Reached(b: Blok, p: seq<Cblk>, k: int): int
    requires 0 <= k <= |p|
  {
    if k == 0 then b.frownum else Max(b.frownum, p[k - 1].lcolnum + 1)
  }

  /** Once the rows end before piece k, no later piece is met. */
  lemma {:induction false} NoMore(b: Blok, p: seq<Cblk>, f: int, l: int, base: int, q: int, k: int, m: int)
    requires Tiles(p, f, l) && 0 <= k < |p| && k <= m <= |p| && b.lrownum < p[k].fcolnum
    ensures Cut(b, p, base, q, m) == Cut(b, p, base, q, k)
    decreases m
  {
    if m > k {
      NoMore(b, p, f, l, base, q, k, m - 1);
      assert PieceOk(p, k);
      if m - 1 > k { PiecesIncrease(p, f, l, k, m - 1); }
    }
  }

  /** What the loops test of piece k. */
  lemma StepOverPiece(b: Blok, p: seq<Cblk>, f: int, l: int, base: int, q: int, k: int)
    requires Tiles(p, f, l) && 0 <= k < |p| && f <= b.frownum <= b.lrownum <= l
    ensures Reached(b, p, k) > p[k].lcolnum ==>
              Cut(b, p, base, q, k + 1) == Cut(b, p, base, q, k) && Reached(b, p, k + 1) == Reached(b, p, k)
    ensures Reached(b, p, k) <= p[k].lcolnum && p[k].fcolnum <= b.lrownum ==>
              && p[k].fcolnum <= Reached(b, p, k) <= b.lrownum && Reached(b, p, k + 1) == p[k].lcolnum + 1
              && Cut(b, p, base, q, k + 1)
                 == Cut(b, p, base, q, k) + [Blok(Reached(b, p, k), Min(b.lrownum, p[k].lcolnum), q, base + k)]
  {
    assert PieceOk(p, k);
    if k > 0 { assert PieceOk(p, k - 1); }
  }

  /** A block that faces a column block left whole stays whole. */
  lemma WholeBlok(s: Symbol, e: Extra, i: int, b: int, q: int)
    requires ValidExtra(s, e) && OldBlok(s, i, b) && e.sptcbnb[s.bloktab[b].fcblknm] <= 1
    ensures CutBlok(s, e, b, q)
            == [Blok(s.bloktab[b].frownum, s.bloktab[b].lrownum, q, NewNum(e, s.bloktab[b].fcblknm))]
  {
    var f := s.bloktab[b].fcblknm;
    assert ExtraOk(s, e, f);
    assert Pieces(s, e, f) == [s.cblktab[f]];
    assert Cut(s.bloktab[b], Pieces(s, e, f), NewNum(e, f), q, 0) == [];
  }

  /** Number of parts of a block, counted without building them. */
  method CountParts(s: Symbol, e: Extra, ghost i: int, j: int) returns (sptcbnbh: int)
    requires ValidExtra(s, e) && OldBlok(s, i, j)
    ensures sptcbnbh == Parts(s, e, j)
  {
    var fcblknum := s.bloktab[j].fcblknm;
    assert ExtraOk(s, e, fcblknum);
    if e.sptcbnb[fcblknum] > 1 {
      var frownum, lrownum := s.bloktab[j].frownum, s.bloktab[j].lrownum;
      ghost var b, p, base := s.bloktab[j], Pieces(s, e, fcblknum), NewNum(e, fcblknum);
      ghost var f, l := s.cblktab[fcblknum].fcolnum, s.cblktab[fcblknum].lcolnum;
      sptcbnbh := 0;
      var k := 0;
      while k < e.sptcbnb[fcblknum]
        invariant 0 <= k <= e.sptcbnb[fcblknum] == |p|
        invariant sptcbnbh == |Cut(b, p, base, 0, k)| && frownum == Reached(b, p, k)
      {
        var newfcblk := e.cblktab[e.sptcblk[fcblknum] + k];
        assert newfcblk == p[k];
        StepOverPiece(b, p, f, l, base, 0, k);
        if frownum <= newfcblk.lcolnum {
          if lrownum < newfcblk.fcolnum {
            NoMore(b, p, f, l, base, 0, k, |p|);
            return;
          }
          assert frownum <= lrownum;
          sptcbnbh := sptcbnbh + 1;
          frownum := newfcblk.lcolnum + 1;
        }
        k := k + 1;
      }
    } else {
      WholeBlok(s, e, i, j, 0);
      sptcbnbh := 1;
    }
  }

  /** Tables of the new numbers: of old column blocks, and of the entries of the extra table. */
  ghost predicate Numbered(s: Symbol, e: Extra, newnum: seq<int>, extranewnum: seq<int>, i: int)
    requires ValidExtra(s, e) && 0 <= i <= s.CblkNbr()
  {
    && |newnum| == s.CblkNbr() + 1 && |extranewnum| == |e.cblktab|
    && (forall k :: 0 <= k <= i ==> newnum[k] == NewNum(e, k))
    && (forall k :: 0 <= k < i ==> ExtraNumbered(s, e, extranewnum, k))
  }

  ghost predicate ExtraNumbered(s: Symbol, e: Extra, extranewnum: seq<int>, k: int)
    requires ValidExtra(s, e) && 0 <= k < s.CblkNbr() && |extranewnum| == |e.cblktab|
  {
    assert ExtraOk(s, e, k);
    e.sptcbnb[k] > 1 ==>
      forall t :: e.sptcblk[k] <= t < e.sptcblk[k] + e.sptcbnb[k] ==> extranewnum[t] == NewNum(e, k) + t - e.sptcblk[k]
  }

  /** Appends the parts of old block k for the new column q. */
  method EmitParts(s: Symbol, e: Extra, newnum: seq<int>, extranewnum: seq<int>, ghost i: int, k: int, q: int,
                   bloktab: seq<Blok>)
    returns (r: seq<Blok>)
    requires ValidExtra(s, e) && OldBlok(s, i, k) && Numbered(s, e, newnum, extranewnum, s.CblkNbr())
    ensures r == bloktab + CutBlok(s, e, k, q)
  {
    var fcblknum := s.bloktab[k].fcblknm;
    assert ExtraOk(s, e, fcblknum);
    if e.sptcbnb[fcblknum] > 1 {
      assert ExtraNumbered(s, e, extranewnum, fcblknum);
      r := EmitCut(s, e, i, k, q, extranewnum[e.sptcblk[fcblknum]], bloktab);
    } else {
      WholeBlok(s, e, i, k, q);
      r := bloktab + [Blok(s.bloktab[k].frownum, s.bloktab[k].lrownum, q, newnum[fcblknum])];
    }
  }

  method EmitCut(s: Symbol, e: Extra, ghost i: int, k: int, q: int, newfcblknum: int, bloktab: seq<Blok>)
    returns (r: seq<Blok>)
    requires ValidExtra(s, e) && OldBlok(s, i, k) && e.sptcbnb[s.bloktab[k].fcblknm] > 1
    requires newfcblknum == NewNum(e, s.bloktab[k].fcblknm)
    ensures r == bloktab + CutBlok(s, e, k, q)
  {
    var fcblknum := s.bloktab[k].fcblknm;
    assert ExtraOk(s, e, fcblknum);
    var frownum, lrownum := s.bloktab[k].frownum, s.bloktab[k].lrownum;
    ghost var b, p := s.bloktab[k], Pieces(s, e, fcblknum);
    ghost var fc, lc := s.cblktab[fcblknum].fcolnum, s.cblktab[fcblknum].lcolnum;
    r := bloktab;
    var l := 0;
    while l < e.sptcbnb[fcblknum]
      invariant 0 <= l <= e.sptcbnb[fcblknum] == |p|
      invariant r == bloktab + Cut(b, p, newfcblknum, q, l) && frownum == Reached(b, p, l)
    {
      var newfcblk := e.cblktab[e.sptcblk[fcblknum] + l];
      assert newfcblk == p[l];
      StepOverPiece(b, p, fc, lc, newfcblknum, q, l);
      if frownum <= newfcblk.lcolnum {
        if lrownum < newfcblk.fcolnum {
          NoMore(b, p, fc, lc, newfcblknum, q, l, |p|);
          return;
        }
        assert frownum <= lrownum;
        assert frownum >= newfcblk.fcolnum;
        r := r + [Blok(frownum, Min(lrownum, newfcblk.lcolnum), q, newfcblknum + l)];
        frownum := newfcblk.lcolnum + 1;
      }
      l := l + 1;
    }
  }

  // ----- First pass -----

  lemma TimesAdd(m: int, x: int, y: int)
    requires 0 <= m
    ensures Times(m, x + y) == Times(m, x) + m * y
  {
    TimesIs(m, x);
    TimesIs(m, y);
    TimesIs(m, x + y);
    assert m * (x + y) == m * x + m * y;
  }

  lemma {:induction false} TimesZero(m: int)
    requires 0 <= m
    ensures Times(m, 0) == 0
    decreases m
  {
    if m > 0 { TimesZero(m - 1); }
  }

  method DiagCount(sptcbnbw: int, addblok0: int) returns (addblok: int)
    requires 0 <= sptcbnbw
    ensures addblok == addblok0 + Triangle(sptcbnbw, sptcbnbw) - 1
  {
    TriangleIs(sptcbnbw);
    addblok := addblok0 + (sptcbnbw + 1) * sptcbnbw / 2 - 1;
  }

  lemma PartsNext(s: Symbol, e: Extra, i: int, j: int, w: int, h: int)
    requires ValidExtra(s, e) && OldBlok(s, i, j) && 0 <= w && h == Parts(s, e, j)
    ensures Times(w, PartsOf(s, e, i, j + 1)) == Times(w, PartsOf(s, e, i, j)) + w * h
  {
    TimesAdd(w, PartsOf(s, e, i, j), h);
  }

  /** Extra blocks of one off-diagonal block. */
  method CountBlok(s: Symbol, e: Extra, ghost i: int, j: int, sptcbnbw: int, addblok0: int) returns (addblok: int)
    requires ValidExtra(s, e) && 0 <= i < s.CblkNbr() && s.First(i) < j < s.Last(i) && 0 <= sptcbnbw
    ensures addblok == addblok0 + Times(sptcbnbw, PartsOf(s, e, i, j + 1)) - Times(sptcbnbw, PartsOf(s, e, i, j)) - 1
  {
    OldBlokIs(s, i, j);
    var sptcbnbh := CountParts(s, e, i, j);
    PartsNext(s, e, i, j, sptcbnbw, sptcbnbh);
    addblok := addblok0 + sptcbnbw * sptcbnbh - 1;
  }

  /** Extra blocks of the off-diagonal blocks of one column block. */
  method CountOff(s: Symbol, e: Extra, i: int, sptcbnbw: int, addblok0: int) returns (addblok: int)
    requires ValidExtra(s, e) && 0 <= i < s.CblkNbr() && 0 <= sptcbnbw && CblkOk(s, i)
    ensures addblok == addblok0 + Times(sptcbnbw, PartsOf(s, e, i, s.Last(i))) - (s.Last(i) - s.First(i) - 1)
  {
    var j := s.cblktab[i].bloknum + 1;
    addblok := addblok0;
    TimesZero(sptcbnbw);
    while j < s.cblktab[i + 1].bloknum
      invariant s.First(i) < j <= s.Last(i)
      invariant addblok == addblok0 + Times(sptcbnbw, PartsOf(s, e, i, j)) - (j - s.First(i) - 1)
    {
      addblok := CountBlok(s, e, i, j, sptcbnbw, addblok);
      j := j + 1;
    }
  }

  /** Extra blocks of one column block: its pieces times the parts of its blocks, less what it had. */
  method CountColumn(s: Symbol, e: Extra, i: int, addblok0: int) returns (addblok: int)
    requires ValidExtra(s, e) && 0 <= i < s.CblkNbr()
    ensures addblok == addblok0 + Blocks(s, e, i) - (s.Last(i) - s.First(i))
  {
    assert ExtraOk(s, e, i) && CblkOk(s, i);
    addblok := DiagCount(e.sptcbnb[i], addblok0);
    addblok := CountOff(s, e, i, e.sptcbnb[i], addblok);
  }

  /** The column blocks of the new structure that come from the first i old ones. */
  function PieceCblks(s: Symbol, e: Extra, i: int): (c: seq<Cblk>)
    requires ValidExtra(s, e) && 0 <= i <= s.CblkNbr()
    ensures |c| == NewNum(e, i)
    decreases i
  {
    if i == 0 then [] else assert ExtraOk(s, e, i - 1); PieceCblks(s, e, i - 1) + Pieces(s, e, i - 1)
  }

  lemma Regroup<T>(x: seq<T>, y: seq<T>, z: seq<T>)
    ensures x + y + z == x + (y + z)
  {
  }

  lemma SliceMore<T>(x: seq<T>, v: seq<T>, a: int, k: int, next: int)
    requires 0 <= a <= k < |v| && next == k + 1
    ensures x + v[a..k] + [v[k]] == x + v[a..next]
  {
  }

  lemma CopyOne(s: Symbol, e: Extra, k: int, next: int)
    requires ValidExtra(s, e) && 0 <= k < s.CblkNbr() && e.sptcbnb[k] <= 1 && next == k + 1
    ensures PieceCblks(s, e, next) == PieceCblks(s, e, k) + [s.cblktab[k]]
  {
    assert ExtraOk(s, e, k);
  }

  lemma CopySplit(s: Symbol, e: Extra, k: int, next: int)
    requires ValidExtra(s, e) && 0 <= k < s.CblkNbr() && e.sptcbnb[k] > 1 && next == k + 1
    requires 0 <= e.sptcblk[k] && e.sptcblk[k] + e.sptcbnb[k] <= |e.cblktab|
    ensures PieceCblks(s, e, next) == PieceCblks(s, e, k) + e.cblktab[e.sptcblk[k]..e.sptcblk[k] + e.sptcbnb[k]]
  {
  }

  /** Column blocks a..i-1 are not split: they are copied together. */
  lemma {:induction false} CopyTogether(s: Symbol, e: Extra, a: int, i: int)
    requires ValidExtra(s, e) && 0 <= a <= i <= s.CblkNbr() && forall k :: a <= k < i ==> e.sptcbnb[k] <= 1
    ensures PieceCblks(s, e, i) == PieceCblks(s, e, a) + s.cblktab[a..i]
    decreases i
  {
    if a < i {
      var k := i - 1;
      CopyTogether(s, e, a, k);
      CopyOne(s, e, k, i);
      SliceMore(PieceCblks(s, e, a), s.cblktab, a, k, i);
    }
  }

  lemma PieceCblkNew(s: Symbol, e: Extra, i: int, j: int, next: int, q: int)
    requires At(s, e, i, j, q) && next == i + 1
    ensures ExtraOk(s, e, i) && 0 <= q < |PieceCblks(s, e, next)| && PieceCblks(s, e, next)[q] == Pieces(s, e, i)[j]
  {
    assert ExtraOk(s, e, i);
    NewNumGrows(s, e, i);
    var v, w := PieceCblks(s, e, i), Pieces(s, e, i);
    assert PieceCblks(s, e, next) == v + w;
    InJoined(v, w, q);
  }

  lemma {:induction false} PieceCblkAt(s: Symbol, e: Extra, i: int, j: int, n: int, q: int)
    requires At(s, e, i, j, q) && i < n <= s.CblkNbr()
    ensures ExtraOk(s, e, i) && 0 <= q < |PieceCblks(s, e, n)| && PieceCblks(s, e, n)[q] == Pieces(s, e, i)[j]
    decreases n
  {
    if i < n - 1 {
      PieceCblkAt(s, e, i, j, n - 1, q);
      assert ExtraOk(s, e, n - 1);
      InJoined(PieceCblks(s, e, n - 1), Pieces(s, e, n - 1), q);
    } else {
      PieceCblkNew(s, e, i, j, n, q);
    }
  }

  lemma EntryInside(s: Symbol, e: Extra, i: int, t: int)
    requires ValidExtra(s, e) && 0 <= i < s.CblkNbr() && e.sptcbnb[i] > 1
             && e.sptcblk[i] <= t < e.sptcblk[i] + e.sptcbnb[i]
    ensures 0 <= t < |e.cblktab|
    ensures s.cblktab[i].fcolnum <= e.cblktab[t].fcolnum <= e.cblktab[t].lcolnum <= s.cblktab[i].lcolnum
  {
    assert ExtraOk(s, e, i);
    PieceInside(Pieces(s, e, i), s.cblktab[i].fcolnum, s.cblktab[i].lcolnum, t - e.sptcblk[i]);
  }

  /** Two split column blocks have different entries in the extra table. */
  lemma SlicesApart(s: Symbol, e: Extra, i: int, k: int, t: int)
    requires ValidExtra(s, e) && 0 <= i < k < s.CblkNbr() && e.sptcbnb[i] > 1 && e.sptcbnb[k] > 1
    ensures ExtraOk(s, e, i) && ExtraOk(s, e, k)
    ensures !(e.sptcblk[i] <= t < e.sptcblk[i] + e.sptcbnb[i] && e.sptcblk[k] <= t < e.sptcblk[k] + e.sptcbnb[k])
  {
    assert ExtraOk(s, e, i) && ExtraOk(s, e, k);
    if e.sptcblk[i] <= t < e.sptcblk[i] + e.sptcbnb[i] && e.sptcblk[k] <= t < e.sptcblk[k] + e.sptcbnb[k] {
      ColumnsIncrease(s, i, k);
      EntryInside(s, e, i, t);
      EntryInside(s, e, k, t);
      assert false;
    }
  }

  /** What the first pass knows after i column blocks: those after last are still to be copied. */
  ghost predicate Renumbered(s: Symbol, e: Extra, newnum: seq<int>, extranewnum: seq<int>, cblktab: seq<Cblk>,
                             last: int, i: int)
    requires ValidExtra(s, e) && 0 <= i <= s.CblkNbr()
  {
    && Numbered(s, e, newnum, extranewnum, i) && (forall k :: i <= k < s.CblkNbr() ==> newnum[k + 1] == e.sptcbnb[k])
    && -1 <= last < i && (forall k :: last < k < i ==> e.sptcbnb[k] <= 1)
    && cblktab == PieceCblks(s, e, last + 1)
  }

  /** Gives their numbers to the pieces of column block i. */
  method NumberPieces(s: Symbol, e: Extra, i: int, newcblknum: int, extranewnum: seq<int>) returns (r: seq<int>)
    requires ValidExtra(s, e) && 0 <= i < s.CblkNbr() && e.sptcbnb[i] > 1 && newcblknum == NewNum(e, i)
    requires |extranewnum| == |e.cblktab| && forall k :: 0 <= k < i ==> ExtraNumbered(s, e, extranewnum, k)
    ensures |r| == |e.cblktab| && forall k :: 0 <= k < i + 1 ==> ExtraNumbered(s, e, r, k)
  {
    assert ExtraOk(s, e, i);
    r := extranewnum;
    var j := 0;
    while j < e.sptcbnb[i]
      invariant 0 <= j <= e.sptcbnb[i] && NumbersFrom(extranewnum, r, e.sptcblk[i], newcblknum, j)
    {
      r := r[e.sptcblk[i] + j := newcblknum + j];
      j := j + 1;
    }
    AllNumbered(s, e, i, extranewnum, r);
  }

  lemma AllNumbered(s: Symbol, e: Extra, i: int, before: seq<int>, r: seq<int>)
    requires ValidExtra(s, e) && 0 <= i < s.CblkNbr() && e.sptcbnb[i] > 1 && |before| == |e.cblktab|
    requires NumbersFrom(before, r, e.sptcblk[i], NewNum(e, i), e.sptcbnb[i])
    requires forall k :: 0 <= k < i ==> ExtraNumbered(s, e, before, k)
    ensures forall k :: 0 <= k < i + 1 ==> ExtraNumbered(s, e, r, k)
  {
    assert ExtraOk(s, e, i);
    forall k | 0 <= k < i + 1 ensures ExtraNumbered(s, e, r, k) {
      if k < i { OthersNumbered(s, e, i, k, before, r); }
    }
  }

  /** j numbers from n on are written from place first on. */
  predicate NumbersFrom(before: seq<int>, r: seq<int>, first: int, n: int, j: int) {
    && |r| == |before|
    && forall t :: 0 <= t < |r| ==> r[t] == if first <= t < first + j then n + t - first else before[t]
  }

  /** The pieces of other column blocks keep their numbers. */
  lemma OthersNumbered(s: Symbol, e: Extra, i: int, k: int, before: seq<int>, after: seq<int>)
    requires ValidExtra(s, e) && 0 <= k < i < s.CblkNbr() && e.sptcbnb[i] > 1 && |before| == |e.cblktab| == |after|
    requires ExtraNumbered(s, e, before, k)
    requires forall t :: 0 <= t < |after| && !(e.sptcblk[i] <= t < e.sptcblk[i] + e.sptcbnb[i]) ==>
               after[t] == before[t]
    ensures ExtraNumbered(s, e, after, k)
  {
    if e.sptcbnb[k] > 1 {
      assert ExtraOk(s, e, k);
      forall t | e.sptcblk[k] <= t < e.sptcblk[k] + e.sptcbnb[k] ensures after[t] == before[t] {
        SlicesApart(s, e, k, i, t);
      }
    }
  }

  /** Numbers column block i, and copies it if it is split, with those before it that are not. */
  method Renumber(s: Symbol, e: Extra, i: int, newnum0: seq<int>, extranewnum0: seq<int>, cblktab0: seq<Cblk>,
                  last0: int)
    returns (newnum: seq<int>, extranewnum: seq<int>, cblktab: seq<Cblk>, lastcblksplit: int)
    requires ValidExtra(s, e) && 0 <= i < s.CblkNbr() && Renumbered(s, e, newnum0, extranewnum0, cblktab0, last0, i)
    ensures Renumbered(s, e, newnum, extranewnum, cblktab, lastcblksplit, i + 1)
  {
    newnum, extranewnum, cblktab, lastcblksplit := newnum0, extranewnum0, cblktab0, last0;
    assert ExtraOk(s, e, i);
    var newcblknum := newnum[i];
    if e.sptcbnb[i] > 1 {
      cblktab := CopyPieces(s, e, i, newnum, cblktab, lastcblksplit);
      extranewnum := NumberPieces(s, e, i, newcblknum, extranewnum);
      lastcblksplit := i;
    } else {
      assert ExtraNumbered(s, e, extranewnum, i);
    }
    newnum := newnum[i + 1 := newnum[i + 1] + newcblknum];
  }

  /** Copies column blocks that are not split. */
  method CopyWhole(s: Symbol, e: Extra, cblktab0: seq<Cblk>, first: int, number: int, ghost next: int)
    returns (cblktab: seq<Cblk>)
    requires ValidExtra(s, e) && 0 <= first && 0 <= number && next == first + number <= s.CblkNbr()
    requires cblktab0 == PieceCblks(s, e, first) && forall k :: first <= k < next ==> e.sptcbnb[k] <= 1
    ensures cblktab == PieceCblks(s, e, next)
  {
    CopyTogether(s, e, first, next);
    cblktab := cblktab0 + s.cblktab[first..first + number];
  }

  /** Copies the pieces of one column block. */
  method AppendPieces(s: Symbol, e: Extra, i: int, cblktab0: seq<Cblk>) returns (cblktab: seq<Cblk>)
    requires ValidExtra(s, e) && 0 <= i < s.CblkNbr() && e.sptcbnb[i] > 1 && cblktab0 == PieceCblks(s, e, i)
    ensures cblktab == PieceCblks(s, e, i + 1)
  {
    assert ExtraOk(s, e, i);
    var sptcblk := e.sptcblk[i];
    CopySplit(s, e, i, i + 1);
    cblktab := cblktab0 + e.cblktab[sptcblk..sptcblk + e.sptcbnb[i]];
  }

  /** Copies the column blocks since the last one that is split, then the pieces of this one. */
  method CopyPieces(s: Symbol, e: Extra, i: int, newnum: seq<int>, cblktab0: seq<Cblk>, last: int)
    returns (cblktab: seq<Cblk>)
    requires ValidExtra(s, e) && 0 <= i < s.CblkNbr() && e.sptcbnb[i] > 1 && -1 <= last < i
    requires |newnum| == s.CblkNbr() + 1 && forall k :: 0 <= k <= i ==> newnum[k] == NewNum(e, k)
    requires cblktab0 == PieceCblks(s, e, last + 1) && forall k :: last < k < i ==> e.sptcbnb[k] <= 1
    ensures cblktab == PieceCblks(s, e, i + 1)
  {
    var nbcblk2copy := i - last - 1;
    cblktab := cblktab0;
    if nbcblk2copy > 0 {
      assert |cblktab| == newnum[last + 1];
      cblktab := CopyWhole(s, e, cblktab, last + 1, nbcblk2copy, i);
    }
    assert |cblktab| == newnum[i];
    cblktab := AppendPieces(s, e, i, cblktab);
  }

  /** Renumbers the column blocks and counts the blocks that the second pass will make. */
  method FirstPass(s: Symbol, e: Extra)
    returns (newnum: seq<int>, extranewnum: seq<int>, cblktab: seq<Cblk>, addblok: int)
    requires ValidExtra(s, e)
    ensures Numbered(s, e, newnum, extranewnum, s.CblkNbr()) && cblktab == PieceCblks(s, e, s.CblkNbr())
    ensures |s.bloktab| + addblok == BlocksUpTo(s, e, s.CblkNbr())
  {
    newnum := [0] + e.sptcbnb;
    extranewnum := seq(|e.cblktab|, _ => 0);
    cblktab, addblok := [], 0;
    var lastcblksplit, i := -1, 0;
    RenumberedStart(s, e);
    while i < s.CblkNbr()
      invariant 0 <= i <= s.CblkNbr() && Renumbered(s, e, newnum, extranewnum, cblktab, lastcblksplit, i)
      invariant s.First(i) + addblok == BlocksUpTo(s, e, i)
    {
      addblok := CountColumn(s, e, i, addblok);
      newnum, extranewnum, cblktab, lastcblksplit := Renumber(s, e, i, newnum, extranewnum, cblktab, lastcblksplit);
      i := i + 1;
    }
    cblktab := CopyRest(s, e, cblktab, lastcblksplit);
  }

  /** Copies the column blocks after the last one that is split. */
  method CopyRest(s: Symbol, e: Extra, cblktab0: seq<Cblk>, lastcblksplit: int) returns (cblktab: seq<Cblk>)
    requires ValidExtra(s, e) && -1 <= lastcblksplit < s.CblkNbr() && cblktab0 == PieceCblks(s, e, lastcblksplit + 1)
    requires forall k :: lastcblksplit < k < s.CblkNbr() ==> e.sptcbnb[k] <= 1
    ensures cblktab == PieceCblks(s, e, s.CblkNbr())
  {
    cblktab := cblktab0;
    if lastcblksplit < s.CblkNbr() - 1 {
      var nbcblk2copy := s.CblkNbr() - lastcblksplit - 1;
      cblktab := CopyWhole(s, e, cblktab, lastcblksplit + 1, nbcblk2copy, s.CblkNbr());
    }
  }

  /** Before the first pass. */
  lemma RenumberedStart(s: Symbol, e: Extra)
    requires ValidExtra(s, e)
    ensures Renumbered(s, e, [0] + e.sptcbnb, seq(|e.cblktab|, _ => 0), [], -1, 0)
  {
  }

  // ----- Second pass -----

  /** The columns of the new column blocks are known; the first q know where their blocks start. */
  ghost predicate Filled(cblktab: seq<Cblk>, cols: seq<Column>, q: int) {
    && |cblktab| == |cols| && 0 <= q <= |cols|
    && (forall p :: 0 <= p < |cols| ==> SameColumns(cblktab, cols, p))
    && (forall p :: 0 <= p < q ==> cblktab[p].bloknum == Start(cols, p))
  }

  predicate SameColumns(cblktab: seq<Cblk>, cols: seq<Column>, p: int)
    requires 0 <= p < |cblktab| == |cols|
  {
    cblktab[p].fcolnum == cols[p].fcolnum && cblktab[p].lcolnum == cols[p].lcolnum
  }

  lemma PiecesFill(s: Symbol, e: Extra, cols: seq<Column>)
    requires ValidExtra(s, e) && cols == Columns(s, e, s.CblkNbr())
    ensures Filled(PieceCblks(s, e, s.CblkNbr()), cols, 0)
  {
    var cblktab := PieceCblks(s, e, s.CblkNbr());
    forall p | 0 <= p < |cols| ensures SameColumns(cblktab, cols, p) {
      var i, j := Origin(s, e, p, s.CblkNbr());
      assert At(s, e, i, j, p);
      PieceFills(s, e, i, j, p, cblktab, cols);
    }
  }

  lemma PieceFills(s: Symbol, e: Extra, i: int, j: int, p: int, cblktab: seq<Cblk>, cols: seq<Column>)
    requires At(s, e, i, j, p) && 0 <= p < |cols| && cols == Columns(s, e, s.CblkNbr())
    requires cblktab == PieceCblks(s, e, s.CblkNbr())
    ensures SameColumns(cblktab, cols, p)
  {
    PieceCblkAt(s, e, i, j, s.CblkNbr(), p);
    ColumnsAt(s, e, i, j, s.CblkNbr());
    ColumnIs(s, e, i, j, p);
  }

  /** The parts of the off-diagonal blocks before k follow x in r. */
  ghost predicate Emitted(s: Symbol, e: Extra, i: int, q: int, k: int, x: seq<Blok>, r: seq<Blok>)
    requires ValidExtra(s, e) && 0 <= i < s.CblkNbr() && s.First(i) < k <= s.Last(i)
  {
    r == x + Off(s, e, i, q, k)
  }

  lemma EmittedNone(s: Symbol, e: Extra, i: int, q: int, x: seq<Blok>)
    requires ValidExtra(s, e) && 0 <= i < s.CblkNbr()
    ensures CblkOk(s, i) && Emitted(s, e, i, q, s.First(i) + 1, x, x)
  {
    assert CblkOk(s, i);
    assert x + [] == x;
  }

  lemma EmittedAll(s: Symbol, e: Extra, i: int, q: int, x: seq<Blok>, r: seq<Blok>)
    requires ValidExtra(s, e) && 0 <= i < s.CblkNbr() && CblkOk(s, i) && Emitted(s, e, i, q, s.Last(i), x, r)
    ensures r == x + Below(s, e, i, q)
  {
  }

  lemma EmittedNext(s: Symbol, e: Extra, i: int, q: int, k: int, next: int, x: seq<Blok>, r: seq<Blok>)
    requires ValidExtra(s, e) && OldBlok(s, i, k) && next == k + 1 && Emitted(s, e, i, q, k, x, r)
    ensures Emitted(s, e, i, q, next, x, r + CutBlok(s, e, k, q))
  {
    assert Off(s, e, i, q, next) == Off(s, e, i, q, k) + CutBlok(s, e, k, q);
    Regroup(x, Off(s, e, i, q, k), CutBlok(s, e, k, q));
  }

  /** The blocks of piece j of column block i, which is new column block curcblknum. */
  method EmitColumn(s: Symbol, e: Extra, newnum: seq<int>, extranewnum: seq<int>, i: int, j: int, curcblknum: int,
                    cblktab: seq<Cblk>, ghost cols: seq<Column>, bloktab: seq<Blok>)
    returns (r: seq<Blok>)
    requires At(s, e, i, j, curcblknum) && Numbered(s, e, newnum, extranewnum, s.CblkNbr())
    requires cols == Columns(s, e, s.CblkNbr()) && Filled(cblktab, cols, curcblknum + 1)
    ensures r == bloktab + SplitColumn(s, e, i, j).bloks
  {
    ColumnIs(s, e, i, j, curcblknum);
    var diag := EmitDiag(s, e, i, j, curcblknum, cblktab, cols, bloktab);
    r := EmitOff(s, e, newnum, extranewnum, i, curcblknum, diag);
    Regroup(bloktab, Diag(Pieces(s, e, i), NewNum(e, i), j), Below(s, e, i, curcblknum));
  }

  /** The parts of the off-diagonal blocks. */
  method EmitOff(s: Symbol, e: Extra, newnum: seq<int>, extranewnum: seq<int>, i: int, q: int, bloktab: seq<Blok>)
    returns (r: seq<Blok>)
    requires ValidExtra(s, e) && 0 <= i < s.CblkNbr() && Numbered(s, e, newnum, extranewnum, s.CblkNbr())
    ensures r == bloktab + Below(s, e, i, q)
  {
    r := bloktab;
    var k := s.cblktab[i].bloknum + 1;
    EmittedNone(s, e, i, q, bloktab);
    while k < s.cblktab[i + 1].bloknum
      invariant s.First(i) < k <= s.Last(i) && Emitted(s, e, i, q, k, bloktab, r)
    {
      OldBlokIs(s, i, k);
      ghost var was := r;
      r := EmitParts(s, e, newnum, extranewnum, i, k, q, r);
      EmittedNext(s, e, i, q, k, k + 1, bloktab, was);
      k := k + 1;
    }
    EmittedAll(s, e, i, q, bloktab, r);
  }

  method EmitDiag(s: Symbol, e: Extra, i: int, j: int, curcblknum: int, cblktab: seq<Cblk>, ghost cols: seq<Column>,
                  bloktab: seq<Blok>)
    returns (r: seq<Blok>)
    requires At(s, e, i, j, curcblknum) && ExtraOk(s, e, i) && cols == Columns(s, e, s.CblkNbr())
             && Filled(cblktab, cols, curcblknum + 1)
    ensures r == bloktab + Diag(Pieces(s, e, i), NewNum(e, i), j)
  {
    ghost var diag := Diag(Pieces(s, e, i), NewNum(e, i), j);
    r := bloktab;
    var k := 0;
    while k < e.sptcbnb[i] - j
      invariant 0 <= k <= e.sptcbnb[i] - j == |diag| && r == bloktab + diag[..k]
    {
      DiagEntry(s, e, i, j, curcblknum, k, Pieces(s, e, i), cblktab, cols);
      var c := cblktab[curcblknum + k];
      r := r + [Blok(c.fcolnum, c.lcolnum, curcblknum, curcblknum + k)];
      k := k + 1;
    }
  }

  lemma PieceColumns(s: Symbol, e: Extra, i: int, x: int, p: int, cblktab: seq<Cblk>, cols: seq<Column>)
    requires At(s, e, i, x, p) && cols == Columns(s, e, s.CblkNbr()) && Filled(cblktab, cols, 0)
    ensures ExtraOk(s, e, i) && 0 <= p < |cblktab|
    ensures cblktab[p].fcolnum == Pieces(s, e, i)[x].fcolnum && cblktab[p].lcolnum == Pieces(s, e, i)[x].lcolnum
  {
    ColumnIs(s, e, i, x, p);
    ColumnsAt(s, e, i, x, s.CblkNbr());
    assert SameColumns(cblktab, cols, p);
  }

  lemma DiagEntry(s: Symbol, e: Extra, i: int, j: int, q: int, k: int, p: seq<Cblk>, cblktab: seq<Cblk>,
                  cols: seq<Column>)
    requires At(s, e, i, j, q) && cols == Columns(s, e, s.CblkNbr()) && Filled(cblktab, cols, q + 1)
    requires ExtraOk(s, e, i) && p == Pieces(s, e, i) && 0 <= k < |p| - j
    ensures 0 <= q + k < |cblktab|
    ensures Diag(p, NewNum(e, i), j)[k] == Blok(cblktab[q + k].fcolnum, cblktab[q + k].lcolnum, q, q + k)
  {
    var x, r := j + k, q + k;
    assert At(s, e, i, x, r);
    PieceColumns(s, e, i, x, r, cblktab, cols);
    DiagAt(p, NewNum(e, i), j, k);
  }

  lemma DiagAt(p: seq<Cblk>, base: int, j: int, k: int)
    requires 0 <= j <= |p| && 0 <= k < |p| - j
    ensures Diag(p, base, j)[k] == Blok(p[j + k].fcolnum, p[j + k].lcolnum, base + j, base + j + k)
  {
    assert Diag(p, base, j)[k] == DiagPart(p, base, base + j, j + k);
  }

  /** The blocks of one new column block, after those of the others. */
  method FillColumn(s: Symbol, e: Extra, newnum: seq<int>, extranewnum: seq<int>, i: int, j: int, curcblknum: int,
                    ghost cols: seq<Column>, cblktab0: seq<Cblk>, bloktab0: seq<Blok>)
    returns (cblktab: seq<Cblk>, bloktab: seq<Blok>)
    requires At(s, e, i, j, curcblknum) && Numbered(s, e, newnum, extranewnum, s.CblkNbr())
             && cols == Columns(s, e, s.CblkNbr())
    requires Filled(cblktab0, cols, curcblknum) && bloktab0 == FlatBloks(cols, curcblknum)
    ensures Filled(cblktab, cols, curcblknum + 1) && bloktab == FlatBloks(cols, curcblknum + 1)
  {
    ColumnsAt(s, e, i, j, s.CblkNbr());
    cblktab := cblktab0[curcblknum := cblktab0[curcblknum].(bloknum := |bloktab0|)];
    forall p | 0 <= p < |cols| ensures SameColumns(cblktab, cols, p) { assert SameColumns(cblktab0, cols, p); }
    bloktab := EmitColumn(s, e, newnum, extranewnum, i, j, curcblknum, cblktab, cols, bloktab0);
  }

  /** The pieces of one old column block. */
  method FillPieces(s: Symbol, e: Extra, newnum: seq<int>, extranewnum: seq<int>, i: int, curcblknum0: int,
                    ghost cols: seq<Column>, cblktab0: seq<Cblk>, bloktab0: seq<Blok>)
    returns (curcblknum: int, cblktab: seq<Cblk>, bloktab: seq<Blok>)
    requires ValidExtra(s, e) && 0 <= i < s.CblkNbr() && curcblknum0 == NewNum(e, i) <= |cols|
    requires Numbered(s, e, newnum, extranewnum, s.CblkNbr()) && cols == Columns(s, e, s.CblkNbr())
    requires Filled(cblktab0, cols, curcblknum0) && bloktab0 == FlatBloks(cols, curcblknum0)
    ensures curcblknum == NewNum(e, i + 1) <= |cols|
    ensures Filled(cblktab, cols, curcblknum) && bloktab == FlatBloks(cols, curcblknum)
  {
    curcblknum, cblktab, bloktab := curcblknum0, cblktab0, bloktab0;
    assert ExtraOk(s, e, i);
    var j := 0;
    while j < e.sptcbnb[i]
      invariant 0 <= j <= e.sptcbnb[i] && curcblknum == NewNum(e, i) + j <= |cols|
      invariant Filled(cblktab, cols, curcblknum) && bloktab == FlatBloks(cols, curcblknum)
    {
      cblktab, bloktab := FillColumn(s, e, newnum, extranewnum, i, j, curcblknum, cols, cblktab, bloktab);
      j, curcblknum := j + 1, curcblknum + 1;
    }
  }

  /** extraCblkMerge, for a structure of which some column block was split: the result is the
      structure that Merged describes. */
  method ExtraCblkMerge(s: Symbol, e: Extra, addcblk: int) returns (r: Symbol)
    requires ValidExtra(s, e) && s.CblkNbr() > 0 && addcblk == NewNum(e, s.CblkNbr()) - s.CblkNbr()
    ensures r == if addcblk == 0 then s else Merged(s, e)
  {
    if addcblk == 0 { return s; }
    var newnum, extranewnum, cblktab, addblok := FirstPass(s, e);
    var bloktab: seq<Blok> := [];
    ghost var cols := Columns(s, e, s.CblkNbr());
    PiecesFill(s, e, cols);
    var curcblknum, i := 0, 0;
    while i < s.CblkNbr()
      invariant 0 <= i <= s.CblkNbr() && curcblknum == NewNum(e, i) <= |cols|
      invariant Filled(cblktab, cols, curcblknum) && bloktab == FlatBloks(cols, curcblknum)
    {
      curcblknum, cblktab, bloktab := FillPieces(s, e, newnum, extranewnum, i, curcblknum, cols, cblktab, bloktab);
      i := i + 1;
    }
    BlocksInAll(s, e);
    assert curcblknum == s.CblkNbr() + addcblk;
    assert |bloktab| == |s.bloktab| + addblok;
    r := Closing(s, e, cols, cblktab, bloktab);
  }

  /** One more column block closes the table. */
  method Closing(s: Symbol, e: Extra, ghost cols: seq<Column>, cblktab: seq<Cblk>, bloktab: seq<Blok>)
    returns (r: Symbol)
    requires ValidExtra(s, e) && s.CblkNbr() > 0 && cols == Columns(s, e, s.CblkNbr())
    requires Filled(cblktab, cols, |cols|) && bloktab == FlatBloks(cols, |cols|)
    ensures r == Merged(s, e)
  {
    NewNumGrows(s, e, s.CblkNbr());
    var lcolnum := cblktab[|cblktab| - 1].lcolnum;
    r := Symbol(cblktab + [Cblk(lcolnum + 1, lcolnum + 1, |bloktab|)], bloktab);
    ClosingIs(cblktab, cols);
  }

  lemma ClosingAt(cblktab: seq<Cblk>, cols: seq<Column>, q: int)
    requires |cols| > 0 && Filled(cblktab, cols, |cols|) && 0 <= q < |cols|
    ensures cblktab[q] == FlatCblk(cols, q)
  {
    assert SameColumns(cblktab, cols, q);
  }

  lemma ClosingLast(cblktab: seq<Cblk>, cols: seq<Column>)
    requires |cols| > 0 && Filled(cblktab, cols, |cols|)
    ensures FlatCblk(cols, |cols|)
            == Cblk(cblktab[|cblktab| - 1].lcolnum + 1, cblktab[|cblktab| - 1].lcolnum + 1, Start(cols, |cols|))
  {
    var last := |cols| - 1;
    assert SameColumns(cblktab, cols, last);
  }

  lemma ClosingIs(cblktab: seq<Cblk>, cols: seq<Column>)
    requires |cols| > 0 && Filled(cblktab, cols, |cols|)
    ensures cblktab + [Cblk(cblktab[|cblktab| - 1].lcolnum + 1, cblktab[|cblktab| - 1].lcolnum + 1,
                            Start(cols, |cols|))] == FlatCblks(cols)
  {
    ClosingLast(cblktab, cols);
    forall q | 0 <= q < |cols| ensures cblktab[q] == FlatCblk(cols, q) { ClosingAt(cblktab, cols, q); }
    JoinedLast(cblktab, FlatCblk(cols, |cols|), FlatCblks(cols));
  }

  lemma JoinedLast<T>(v: seq<T>, x: T, c: seq<T>)
    requires |c| == |v| + 1 && c[|v|] == x && forall q :: 0 <= q < |v| ==> c[q] == v[q]
    ensures v + [x] == c
  {
  }
}

/** What the split of column blocks keeps: the result is a valid structure that stores the
    same lower-triangular positions, and a complete factorization stays complete. */
module SplitProps {
  import opened SymbolMatrix
  import opened Split

  /** New column block q is piece j of old column block i. */
  ghost predicate At(s: Symbol, e: Extra, i: int, j: int, q: int) {
    ValidExtra(s, e) && 0 <= i < s.CblkNbr() && 0 <= j < e.sptcbnb[i] && q == NewNum(e, i) + j
  }

  /** Block b0 of old column block i. */
  ghost predicate OldBlok(s: Symbol, i: int, b0: int) {
    Valid(s) && 0 <= i < s.CblkNbr() && s.First(i) < b0 < s.Last(i) && 0 <= b0 < |s.bloktab|
    && i < s.bloktab[b0].fcblknm < s.CblkNbr() && ValidBlok(s, i, b0)
  }

  lemma OldBlokIs(s: Symbol, i: int, b0: int)
    requires Valid(s) && 0 <= i < s.CblkNbr() && s.First(i) < b0 < s.Last(i)
    ensures OldBlok(s, i, b0)
  {
    FacesLater(s, i, b0);
    assert ValidColumn(s, i);
    assert ValidBlok(s, i, b0);
  }

  /** A block of the new column q is the part of old block b0 in piece l of the column it faces. */
  ghost predicate IsPart(s: Symbol, e: Extra, i: int, q: int, b0: int, l: int, c: Blok) {
    && ValidExtra(s, e) && OldBlok(s, i, b0)
    && var f := s.bloktab[b0].fcblknm;
       && ExtraOk(s, e, f) && 0 <= l < e.sptcbnb[f] && Meets(s.bloktab[b0], Pieces(s, e, f)[l])
       && c == Part(s.bloktab[b0], Pieces(s, e, f)[l], q, NewNum(e, f) + l)
  }

  lemma CutBlokHas(s: Symbol, e: Extra, i: int, b0: int, q: int, c: Blok) returns (l: int)
    requires ValidExtra(s, e) && OldBlok(s, i, b0) && c in CutBlok(s, e, b0, q)
    ensures IsPart(s, e, i, q, b0, l, c)
  {
    var f, v := s.bloktab[b0].fcblknm, CutBlok(s, e, b0, q);
    assert ExtraOk(s, e, f);
    var x :| 0 <= x < |v| && v[x] == c;
    l := CutHas(s.bloktab[b0], Pieces(s, e, f), NewNum(e, f), q, |Pieces(s, e, f)|, x);
  }

  lemma {:induction false} OffHas(s: Symbol, e: Extra, i: int, q: int, k: int, c: Blok) returns (b0: int, l: int)
    requires ValidExtra(s, e) && 0 <= i < s.CblkNbr() && s.First(i) < k <= s.Last(i) && c in Off(s, e, i, q, k)
    ensures b0 < k && IsPart(s, e, i, q, b0, l, c)
    decreases k
  {
    if k > s.First(i) + 1 {
      b0 := k - 1;
      OldBlokIs(s, i, b0);
      OffNext(s, e, i, q, b0, k, c);
      if c in CutBlok(s, e, b0, q) {
        l := CutBlokHas(s, e, i, b0, q, c);
      } else {
        b0, l := OffHas(s, e, i, q, b0, c);
      }
    }
  }

  lemma {:induction false} OffGet(s: Symbol, e: Extra, i: int, q: int, k: int, b0: int, l: int, c: Blok)
    requires ValidExtra(s, e) && 0 <= i < s.CblkNbr() && s.First(i) < b0 < k <= s.Last(i)
             && IsPart(s, e, i, q, b0, l, c)
    ensures c in Off(s, e, i, q, k)
    decreases k
  {
    var prev := k - 1;
    OldBlokIs(s, i, prev);
    if b0 == prev { CutBlokGet(s, e, i, q, b0, l, c); } else { OffGet(s, e, i, q, prev, b0, l, c); }
    OffNext(s, e, i, q, prev, k, c);
  }

  lemma CutBlokGet(s: Symbol, e: Extra, i: int, q: int, b0: int, l: int, c: Blok)
    requires IsPart(s, e, i, q, b0, l, c)
    ensures c in CutBlok(s, e, b0, q)
  {
    var f := s.bloktab[b0].fcblknm;
    CutGet(s.bloktab[b0], Pieces(s, e, f), NewNum(e, f), q, |Pieces(s, e, f)|, l);
  }

  lemma OffNext(s: Symbol, e: Extra, i: int, q: int, k: int, next: int, c: Blok)
    requires ValidExtra(s, e) && OldBlok(s, i, k) && next == k + 1
    ensures c in Off(s, e, i, q, next) <==> c in Off(s, e, i, q, k) || c in CutBlok(s, e, k, q)
  {
    InConcat(Off(s, e, i, q, k), CutBlok(s, e, k, q), c);
  }

  /** Rows and new column block of a part. */
  lemma PartIn(s: Symbol, e: Extra, i: int, q: int, b0: int, l: int, c: Blok)
    requires IsPart(s, e, i, q, b0, l, c)
    ensures c.lcblknm == q && At(s, e, s.bloktab[b0].fcblknm, l, c.fcblknm)
    ensures s.bloktab[b0].frownum <= c.frownum <= c.lrownum <= s.bloktab[b0].lrownum
    ensures SplitColumn(s, e, s.bloktab[b0].fcblknm, l).fcolnum <= c.frownum
    ensures c.lrownum <= SplitColumn(s, e, s.bloktab[b0].fcblknm, l).lcolnum
  {
    var f := s.bloktab[b0].fcblknm;
    PieceInside(Pieces(s, e, f), s.cblktab[f].fcolnum, s.cblktab[f].lcolnum, l);
  }

  lemma {:induction false} OffSorted(s: Symbol, e: Extra, i: int, q: int, k: int)
    requires ValidExtra(s, e) && 0 <= i < s.CblkNbr() && s.First(i) < k <= s.Last(i)
    ensures SortedBloks(Off(s, e, i, q, k))
    decreases k - s.First(i)
  {
    if k > s.First(i) + 1 {
      OffSorted(s, e, i, q, k - 1);
      OffSortedNext(s, e, i, q, k - 1, k);
    }
  }

  lemma OffSortedNext(s: Symbol, e: Extra, i: int, q: int, b: int, k: int)
    requires ValidExtra(s, e) && 0 <= i < s.CblkNbr() && s.First(i) < b < k == b + 1 <= s.Last(i)
    requires SortedBloks(Off(s, e, i, q, b))
    ensures SortedBloks(Off(s, e, i, q, k))
  {
    OldBlokIs(s, i, b);
    var v, w := Off(s, e, i, q, b), CutBlok(s, e, b, q);
    CutBlokSorted(s, e, i, b, q);
    forall c, d | c in v && d in w ensures c.lrownum < d.frownum { OffBeforeCut(s, e, i, q, b, c, d); }
    SortedAppend(v, w);
  }

  lemma CutBlokSorted(s: Symbol, e: Extra, i: int, b0: int, q: int)
    requires ValidExtra(s, e) && OldBlok(s, i, b0)
    ensures SortedBloks(CutBlok(s, e, b0, q))
  {
    var f := s.bloktab[b0].fcblknm;
    assert ExtraOk(s, e, f);
    CutSorted(s.bloktab[b0], Pieces(s, e, f), s.cblktab[f].fcolnum, s.cblktab[f].lcolnum, NewNum(e, f), q,
              |Pieces(s, e, f)|);
  }

  lemma OffBeforeCut(s: Symbol, e: Extra, i: int, q: int, k: int, c: Blok, d: Blok)
    requires ValidExtra(s, e) && OldBlok(s, i, k) && c in Off(s, e, i, q, k) && d in CutBlok(s, e, k, q)
    ensures c.lrownum < d.frownum
  {
    assert ValidColumn(s, i);
    var b0, l := OffHas(s, e, i, q, k, c);
    PartIn(s, e, i, q, b0, l, c);
    CutAbove(s, e, i, k, q, d);
  }

  lemma CutAbove(s: Symbol, e: Extra, i: int, b0: int, q: int, d: Blok)
    requires ValidExtra(s, e) && OldBlok(s, i, b0) && d in CutBlok(s, e, b0, q)
    ensures s.bloktab[b0].frownum <= d.frownum
  {
    var l := CutBlokHas(s, e, i, b0, q, d);
  }

  lemma DiagHas(p: seq<Cblk>, base: int, j: int, c: Blok) returns (x: int)
    requires 0 <= j <= |p| && c in Diag(p, base, j)
    ensures j <= x < |p| && c == DiagPart(p, base, base + j, x)
  {
    var v := Diag(p, base, j);
    var y :| 0 <= y < |v| && v[y] == c;
    x := j + y;
  }

  lemma DiagGet(p: seq<Cblk>, base: int, j: int, q: int, x: int)
    requires 0 <= j <= x < |p| && q == base + j
    ensures DiagPart(p, base, q, x) in Diag(p, base, j)
  {
    var v := Diag(p, base, j);
    assert v[x - j] in v;
  }

  lemma InConcat(v: seq<Blok>, w: seq<Blok>, c: Blok)
    ensures c in v + w <==> c in v || c in w
  {
  }

  /** The parts of the off-diagonal blocks. */
  function Below(s: Symbol, e: Extra, i: int, q: int): seq<Blok>
    requires ValidExtra(s, e) && 0 <= i < s.CblkNbr()
  {
    assert ValidColumn(s, i);
    Off(s, e, i, q, s.Last(i))
  }

  lemma ColumnIs(s: Symbol, e: Extra, i: int, j: int, q: int)
    requires At(s, e, i, j, q)
    ensures ExtraOk(s, e, i) && |Pieces(s, e, i)| == e.sptcbnb[i]
    ensures SplitColumn(s, e, i, j).fcolnum == Pieces(s, e, i)[j].fcolnum
    ensures SplitColumn(s, e, i, j).lcolnum == Pieces(s, e, i)[j].lcolnum
    ensures SplitColumn(s, e, i, j).bloks == Diag(Pieces(s, e, i), NewNum(e, i), j) + Below(s, e, i, q)
  {
    assert ExtraOk(s, e, i);
  }

  /** The blocks of a new column: those of the diagonal, then parts of off-diagonal blocks. */
  lemma ColumnHas(s: Symbol, e: Extra, i: int, j: int, q: int, c: Blok) returns (diag: bool, x: int, l: int)
    requires At(s, e, i, j, q) && c in SplitColumn(s, e, i, j).bloks
    ensures ExtraOk(s, e, i) && |Pieces(s, e, i)| == e.sptcbnb[i]
    ensures diag ==> j <= x < e.sptcbnb[i] && c == DiagPart(Pieces(s, e, i), NewNum(e, i), q, x)
    ensures !diag ==> IsPart(s, e, i, q, x, l, c)
  {
    ColumnIs(s, e, i, j, q);
    var v, w := Diag(Pieces(s, e, i), NewNum(e, i), j), Below(s, e, i, q);
    InConcat(v, w, c);
    diag, l := c in v, 0;
    if diag {
      x := DiagHas(Pieces(s, e, i), NewNum(e, i), j, c);
    } else {
      assert ValidColumn(s, i);
      x, l := OffHas(s, e, i, q, s.Last(i), c);
    }
  }

  lemma ColumnGet(s: Symbol, e: Extra, i: int, j: int, q: int, x: int)
    requires At(s, e, i, j, q) && j <= x < e.sptcbnb[i]
    ensures ExtraOk(s, e, i) && x < |Pieces(s, e, i)|
    ensures DiagPart(Pieces(s, e, i), NewNum(e, i), q, x) in SplitColumn(s, e, i, j).bloks
  {
    ColumnIs(s, e, i, j, q);
    DiagGet(Pieces(s, e, i), NewNum(e, i), j, q, x);
    InConcat(Diag(Pieces(s, e, i), NewNum(e, i), j), Below(s, e, i, q), DiagPart(Pieces(s, e, i), NewNum(e, i), q, x));
  }

  lemma ColumnGetPart(s: Symbol, e: Extra, i: int, j: int, q: int, b0: int, l: int, c: Blok)
    requires At(s, e, i, j, q) && IsPart(s, e, i, q, b0, l, c)
    ensures c in SplitColumn(s, e, i, j).bloks
  {
    ColumnIs(s, e, i, j, q);
    assert ValidColumn(s, i);
    OffGet(s, e, i, q, s.Last(i), b0, l, c);
    InConcat(Diag(Pieces(s, e, i), NewNum(e, i), j), Below(s, e, i, q), c);
  }

  // ----- The result is a valid structure -----

  lemma NextPiece(s: Symbol, e: Extra, i: int, j: int)
    requires ValidExtra(s, e) && 0 <= i < s.CblkNbr() && 0 <= j && j + 1 < e.sptcbnb[i]
    ensures SplitColumn(s, e, i, j + 1).fcolnum == SplitColumn(s, e, i, j).lcolnum + 1
  {
    assert ExtraOk(s, e, i);
    assert PieceOk(Pieces(s, e, i), j);
  }

  lemma NextFirst(s: Symbol, e: Extra, i: int, j: int)
    requires ValidExtra(s, e) && 0 <= i && i + 1 < s.CblkNbr() && 0 <= j == e.sptcbnb[i] - 1
    ensures 1 <= e.sptcbnb[i + 1] && SplitColumn(s, e, i + 1, 0).fcolnum == SplitColumn(s, e, i, j).lcolnum + 1
  {
    assert ExtraOk(s, e, i) && ExtraOk(s, e, i + 1) && CblkOk(s, i);
  }

  lemma NextIs(s: Symbol, e: Extra, i: int, j: int, q: int)
    requires At(s, e, i, j, q)
    ensures 0 <= q < NewNum(e, s.CblkNbr())
    ensures Columns(s, e, s.CblkNbr())[q].fcolnum == SplitColumn(s, e, i, j).fcolnum
  {
    ColumnsAt(s, e, i, j, s.CblkNbr());
  }

  lemma NextColumn(s: Symbol, e: Extra, i: int, j: int, q: int)
    requires At(s, e, i, j, q) && 0 <= q && q + 1 < NewNum(e, s.CblkNbr())
    ensures Columns(s, e, s.CblkNbr())[q + 1].fcolnum == SplitColumn(s, e, i, j).lcolnum + 1
  {
    if j + 1 < e.sptcbnb[i] {
      NextPiece(s, e, i, j);
      NextIs(s, e, i, j + 1, q + 1);
    } else {
      assert NewNum(e, i + 1) == q + 1;
      assert i + 1 < s.CblkNbr();
      NextFirst(s, e, i, j);
      NextIs(s, e, i + 1, 0, q + 1);
    }
  }

  lemma ColumnBloksIn(s: Symbol, e: Extra, i: int, j: int, q: int, b: Blok)
    requires At(s, e, i, j, q) && b in SplitColumn(s, e, i, j).bloks
    ensures BlokIn(Columns(s, e, s.CblkNbr()), q, b)
  {
    var diag, x, l := ColumnHas(s, e, i, j, q, b);
    if diag {
      assert At(s, e, i, x, b.fcblknm);
      ColumnIs(s, e, i, x, b.fcblknm);
      assert PieceOk(Pieces(s, e, i), x);
      FacesColumn(s, e, i, x, b, q);
    } else {
      PartIn(s, e, i, q, x, l, b);
      FacesColumn(s, e, s.bloktab[x].fcblknm, l, b, q);
    }
  }

  lemma FacesColumn(s: Symbol, e: Extra, f: int, l: int, b: Blok, q: int)
    requires At(s, e, f, l, b.fcblknm) && b.lcblknm == q && b.frownum <= b.lrownum
    requires SplitColumn(s, e, f, l).fcolnum <= b.frownum && b.lrownum <= SplitColumn(s, e, f, l).lcolnum
    ensures BlokIn(Columns(s, e, s.CblkNbr()), q, b)
  {
    ColumnsAt(s, e, f, l, s.CblkNbr());
  }

  lemma DiagSorted(p: seq<Cblk>, f: int, l: int, base: int, j: int)
    requires Tiles(p, f, l) && 0 <= j <= |p|
    ensures SortedBloks(Diag(p, base, j))
  {
    var v := Diag(p, base, j);
    forall x, y | 0 <= x < y < |v| ensures v[x].lrownum < v[y].frownum {
      PiecesIncrease(p, f, l, j + x, j + y);
      assert v[x] == DiagPart(p, base, base + j, j + x) && v[y] == DiagPart(p, base, base + j, j + y);
    }
  }

  lemma ColumnSorted(s: Symbol, e: Extra, i: int, j: int, q: int)
    requires At(s, e, i, j, q)
    ensures SortedBloks(SplitColumn(s, e, i, j).bloks)
  {
    ColumnIs(s, e, i, j, q);
    assert ValidColumn(s, i);
    var p, f, l := Pieces(s, e, i), s.cblktab[i].fcolnum, s.cblktab[i].lcolnum;
    var v, w := Diag(p, NewNum(e, i), j), Below(s, e, i, q);
    DiagSorted(p, f, l, NewNum(e, i), j);
    OffSorted(s, e, i, q, s.Last(i));
    forall c, d | c in v && d in w ensures c.lrownum < d.frownum {
      var x := DiagHas(p, NewNum(e, i), j, c);
      PieceInside(p, f, l, x);
      var b0, m := OffHas(s, e, i, q, s.Last(i), d);
      PartIn(s, e, i, q, b0, m, d);
    }
    SortedAppend(v, w);
  }

  lemma ColumnFirst(s: Symbol, e: Extra, i: int, j: int, q: int)
    requires At(s, e, i, j, q)
    ensures var c := SplitColumn(s, e, i, j); |c.bloks| > 0 && c.bloks[0] == Blok(c.fcolnum, c.lcolnum, q, q)
  {
    ColumnIs(s, e, i, j, q);
    var v := Diag(Pieces(s, e, i), NewNum(e, i), j);
    assert v[0] == DiagPart(Pieces(s, e, i), NewNum(e, i), q, j);
  }

  lemma NewColumnOk(s: Symbol, e: Extra, i: int, j: int, q: int)
    requires At(s, e, i, j, q)
    ensures 0 <= q < NewNum(e, s.CblkNbr()) && ColumnOk(Columns(s, e, s.CblkNbr()), q)
  {
    var cols := Columns(s, e, s.CblkNbr());
    ColumnsAt(s, e, i, j, s.CblkNbr());
    ColumnIs(s, e, i, j, q);
    ColumnFirst(s, e, i, j, q);
    assert PieceOk(Pieces(s, e, i), j);
    if q + 1 < |cols| { NextColumn(s, e, i, j, q); }
    forall b | b in cols[q].bloks ensures BlokIn(cols, q, b) { ColumnBloksIn(s, e, i, j, q, b); }
    ColumnSorted(s, e, i, j, q);
  }

  /** Blocks sorted and disjoint, each inside the columns of the column block it faces. */
  lemma MergedIsValid(s: Symbol, e: Extra)
    requires ValidExtra(s, e) && s.CblkNbr() > 0
    ensures Valid(Merged(s, e)) && Merged(s, e).CblkNbr() == NewNum(e, s.CblkNbr())
  {
    var cols := Columns(s, e, s.CblkNbr());
    NewNumGrows(s, e, s.CblkNbr());
    forall q | 0 <= q < |cols| ensures ColumnOk(cols, q) {
      var i, j := Origin(s, e, q, s.CblkNbr());
      NewColumnOk(s, e, i, j, q);
    }
    FlatValid(cols);
  }

  // ----- Stored positions -----

  predicate HasCol(c: Cblk, col: int) { c.fcolnum <= col <= c.lcolnum }
  predicate HasRow(b: Blok, row: int) { b.frownum <= row <= b.lrownum }

  /** Block b of column block i stores the position. */
  ghost predicate StoredBy(s: Symbol, row: int, col: int, i: int, b: int) {
    && Valid(s) && 0 <= i < s.CblkNbr() && HasCol(s.cblktab[i], col)
    && 0 <= b < |s.bloktab| && s.First(i) <= b < s.Last(i) && HasRow(s.bloktab[b], row)
  }

  ghost predicate Stored(s: Symbol, row: int, col: int) {
    exists i, b :: StoredBy(s, row, col, i, b)
  }

  lemma ColumnIn(s: Symbol, e: Extra, i: int, j: int, q: int) returns (cols: seq<Column>)
    requires At(s, e, i, j, q)
    ensures 0 <= q < |cols| && cols[q] == SplitColumn(s, e, i, j) && Merged(s, e) == Flat(cols)
  {
    cols := Columns(s, e, s.CblkNbr());
    ColumnsAt(s, e, i, j, s.CblkNbr());
  }

  /** Column block q of the new structure is the column (i, j). */
  lemma MergedColumn(s: Symbol, e: Extra, i: int, j: int, q: int)
    requires At(s, e, i, j, q)
    ensures 0 <= q < Merged(s, e).CblkNbr() && 0 <= Merged(s, e).First(q)
    ensures Merged(s, e).cblktab[q].fcolnum == SplitColumn(s, e, i, j).fcolnum
    ensures Merged(s, e).cblktab[q].lcolnum == SplitColumn(s, e, i, j).lcolnum
    ensures Merged(s, e).Last(q) == Merged(s, e).First(q) + |SplitColumn(s, e, i, j).bloks|
  {
    var cols := ColumnIn(s, e, i, j, q);
    FlatIs(cols, q);
  }

  lemma MergedBlok(s: Symbol, e: Extra, i: int, j: int, q: int, x: int)
    requires At(s, e, i, j, q) && 0 <= x < |SplitColumn(s, e, i, j).bloks|
    ensures 0 <= q < Merged(s, e).CblkNbr() && 0 <= Merged(s, e).First(q) + x < |Merged(s, e).bloktab|
    ensures Merged(s, e).bloktab[Merged(s, e).First(q) + x] == SplitColumn(s, e, i, j).bloks[x]
  {
    var cols := ColumnIn(s, e, i, j, q);
    BlokInFlat(cols, Merged(s, e), q, x);
  }

  lemma BlokInFlat(cols: seq<Column>, g: Symbol, q: int, x: int)
    requires 0 <= q < |cols| && 0 <= x < |cols[q].bloks| && g == Flat(cols)
    ensures 0 <= q < g.CblkNbr() && 0 <= g.First(q) + x < |g.bloktab|
    ensures g.bloktab[g.First(q) + x] == cols[q].bloks[x]
  {
    FlatBlok(cols, q, x);
  }

  /** A block of the flat structure, from its column. */
  lemma FlatGet(s: Symbol, e: Extra, i: int, j: int, q: int, c: Blok) returns (b: int)
    requires At(s, e, i, j, q) && c in SplitColumn(s, e, i, j).bloks
    ensures InMerged(s, e, i, j, q, b, c)
  {
    var x := IndexIn(SplitColumn(s, e, i, j).bloks, c);
    MergedColumn(s, e, i, j, q);
    MergedBlok(s, e, i, j, q, x);
    FirstOnly(s, e, i, j, q, x);
    b := Merged(s, e).First(q) + x;
  }

  lemma IndexIn(v: seq<Blok>, c: Blok) returns (x: int)
    requires c in v
    ensures 0 <= x < |v| && v[x] == c
  {
    x :| 0 <= x < |v| && v[x] == c;
  }

  /** Block b of the new structure is block c of the column (i, j), which is number q. */
  ghost predicate InMerged(s: Symbol, e: Extra, i: int, j: int, q: int, b: int, c: Blok) {
    && At(s, e, i, j, q) && c in SplitColumn(s, e, i, j).bloks
    && 0 <= q < Merged(s, e).CblkNbr() && 0 <= b < |Merged(s, e).bloktab|
    && Merged(s, e).bloktab[b] == c && Merged(s, e).First(q) <= b < Merged(s, e).Last(q)
    && (b == Merged(s, e).First(q) <==> c == SplitColumn(s, e, i, j).bloks[0])
    && Merged(s, e).cblktab[q].fcolnum == SplitColumn(s, e, i, j).fcolnum
    && Merged(s, e).cblktab[q].lcolnum == SplitColumn(s, e, i, j).lcolnum
  }

  lemma FlatHas(s: Symbol, e: Extra, q: int, b: int) returns (i: int, j: int, c: Blok)
    requires ValidExtra(s, e) && s.CblkNbr() > 0 && 0 <= q < Merged(s, e).CblkNbr()
             && Merged(s, e).First(q) <= b < Merged(s, e).Last(q)
    ensures InMerged(s, e, i, j, q, b, c)
  {
    i, j := MergedOrigin(s, e, q);
    MergedColumn(s, e, i, j, q);
    var x := MergedHas(s, e, i, j, q, b);
    FirstOnly(s, e, i, j, q, x);
    c := SplitColumn(s, e, i, j).bloks[x];
  }

  lemma MergedOrigin(s: Symbol, e: Extra, q: int) returns (i: int, j: int)
    requires ValidExtra(s, e) && s.CblkNbr() > 0 && 0 <= q < Merged(s, e).CblkNbr()
    ensures At(s, e, i, j, q)
  {
    i, j := Origin(s, e, q, s.CblkNbr());
  }

  /** The first block of a column occurs once in it. */
  lemma FirstOnly(s: Symbol, e: Extra, i: int, j: int, q: int, x: int)
    requires At(s, e, i, j, q) && 0 <= x < |SplitColumn(s, e, i, j).bloks|
    ensures SplitColumn(s, e, i, j).bloks[x] == SplitColumn(s, e, i, j).bloks[0] <==> x == 0
  {
    var v := SplitColumn(s, e, i, j).bloks;
    ColumnSorted(s, e, i, j, q);
    ColumnFirst(s, e, i, j, q);
    ColumnIs(s, e, i, j, q);
    assert PieceOk(Pieces(s, e, i), j);
    if x > 0 { assert v[0].lrownum < v[x].frownum; }
  }

  lemma StoredAfter(s: Symbol, e: Extra, row: int, col: int)
    requires ValidExtra(s, e) && s.CblkNbr() > 0 && col <= row && Stored(s, row, col)
    ensures Stored(Merged(s, e), row, col)
  {
    var i, b0 :| StoredBy(s, row, col, i, b0);
    MergedIsValid(s, e);
    assert ExtraOk(s, e, i) && ValidColumn(s, i);
    var p, f, l := Pieces(s, e, i), s.cblktab[i].fcolnum, s.cblktab[i].lcolnum;
    var j := PieceOf(p, f, l, col, |p| - 1);
    var q := NewNum(e, i) + j;
    var c := ColumnWith(s, e, i, j, q, b0, row, col);
    var b := FlatGet(s, e, i, j, q, c);
    assert StoredBy(Merged(s, e), row, col, q, b);
  }

  /** The new column that has the column has the row. */
  lemma ColumnWith(s: Symbol, e: Extra, i: int, j: int, q: int, b0: int, row: int, col: int) returns (c: Blok)
    requires At(s, e, i, j, q) && StoredBy(s, row, col, i, b0) && col <= row
    requires ExtraOk(s, e, i) && HasCol(Pieces(s, e, i)[j], col)
    ensures c in SplitColumn(s, e, i, j).bloks && HasRow(c, row)
  {
    assert ValidColumn(s, i);
    var p, f, l := Pieces(s, e, i), s.cblktab[i].fcolnum, s.cblktab[i].lcolnum;
    if b0 == s.First(i) {
      var x := PieceOf(p, f, l, row, |p| - 1);
      if x < j { PiecesIncrease(p, f, l, x, j); }
      ColumnGet(s, e, i, j, q, x);
      c := DiagPart(p, NewNum(e, i), q, x);
    } else {
      c := PartWith(s, e, i, j, q, b0, row);
    }
  }

  lemma PartWith(s: Symbol, e: Extra, i: int, j: int, q: int, b0: int, row: int) returns (c: Blok)
    requires At(s, e, i, j, q) && s.First(i) < b0 < s.Last(i) && 0 <= b0 < |s.bloktab| && HasRow(s.bloktab[b0], row)
    ensures c in SplitColumn(s, e, i, j).bloks && HasRow(c, row)
  {
    OldBlokIs(s, i, b0);
    var f := s.bloktab[b0].fcblknm;
    assert ExtraOk(s, e, f);
    var p := Pieces(s, e, f);
    var l := PieceOf(p, s.cblktab[f].fcolnum, s.cblktab[f].lcolnum, row, |p| - 1);
    c := Part(s.bloktab[b0], p[l], q, NewNum(e, f) + l);
    ColumnGetPart(s, e, i, j, q, b0, l, c);
  }

  lemma StoredBefore(s: Symbol, e: Extra, row: int, col: int)
    requires ValidExtra(s, e) && s.CblkNbr() > 0 && Stored(Merged(s, e), row, col)
    ensures Stored(s, row, col)
  {
    var q, b :| StoredBy(Merged(s, e), row, col, q, b);
    var i, j, c := FlatHas(s, e, q, b);
    var diag, x, l := ColumnHas(s, e, i, j, q, c);
    var p := Pieces(s, e, i);
    PieceInside(p, s.cblktab[i].fcolnum, s.cblktab[i].lcolnum, j);
    assert ValidColumn(s, i);
    if diag {
      PieceInside(p, s.cblktab[i].fcolnum, s.cblktab[i].lcolnum, x);
      assert StoredBy(s, row, col, i, s.First(i));
    } else {
      PartIn(s, e, i, q, x, l, c);
      assert StoredBy(s, row, col, i, x);
    }
  }

  /** The meaning of the structure: the same positions of the lower triangle are stored. */
  lemma SamePositions(s: Symbol, e: Extra, row: int, col: int)
    requires ValidExtra(s, e) && s.CblkNbr() > 0 && col <= row
    ensures Stored(Merged(s, e), row, col) <==> Stored(s, row, col)
  {
    if Stored(s, row, col) { StoredAfter(s, e, row, col); }
    if Stored(Merged(s, e), row, col) { StoredBefore(s, e, row, col); }
  }

  // ----- Complete factorizations stay complete -----

  /** Block c of the new column q, other than the first. */
  ghost predicate BelowFirst(s: Symbol, e: Extra, i: int, j: int, q: int, c: Blok) {
    At(s, e, i, j, q) && c in SplitColumn(s, e, i, j).bloks && c != SplitColumn(s, e, i, j).bloks[0]
  }

  /** Some block of new column q1 covers c. */
  ghost predicate CoveredIn(s: Symbol, e: Extra, i1: int, j1: int, q1: int, c: Blok) {
    At(s, e, i1, j1, q1) && exists d :: d in SplitColumn(s, e, i1, j1).bloks && Covers(d, c)
  }

  /** c1 and c2 are blocks of one column with c1 not after c2, and c1 comes from the diagonal. */
  lemma CoveredFromDiag(s: Symbol, e: Extra, i: int, j: int, q: int, c1: Blok, c2: Blok, x1: int)
    requires BelowFirst(s, e, i, j, q, c1) && c2 in SplitColumn(s, e, i, j).bloks && c1.frownum <= c2.frownum
    requires ExtraOk(s, e, i) && j <= x1 < |Pieces(s, e, i)| == e.sptcbnb[i]
             && c1 == DiagPart(Pieces(s, e, i), NewNum(e, i), q, x1)
    ensures CoveredIn(s, e, i, x1, c1.fcblknm, c2)
  {
    var q1, p := c1.fcblknm, Pieces(s, e, i);
    assert At(s, e, i, x1, q1);
    var diag, x2, l := ColumnHas(s, e, i, j, q, c2);
    if diag {
      assert PieceOk(p, x2);
      if x2 < x1 { PiecesIncrease(p, s.cblktab[i].fcolnum, s.cblktab[i].lcolnum, x2, x1); }
      ColumnGet(s, e, i, x1, q1, x2);
      assert Covers(DiagPart(p, NewNum(e, i), q1, x2), c2);
    } else {
      var f := s.bloktab[x2].fcblknm;
      var d := Part(s.bloktab[x2], Pieces(s, e, f)[l], q1, NewNum(e, f) + l);
      ColumnGetPart(s, e, i, x1, q1, x2, l, d);
      assert Covers(d, c2);
    }
  }

  /** Both come from off-diagonal blocks b1 and b2; block d of the column that b1 faces covers b2. */
  lemma CoveredFromPart(s: Symbol, e: Extra, i: int, q: int, c1: Blok, c2: Blok, b1: int, l1: int, b2: int, l2: int,
                        d: int)
    requires IsPart(s, e, i, q, b1, l1, c1) && IsPart(s, e, i, q, b2, l2, c2) && c1.frownum <= c2.frownum
    requires 0 <= d < |s.bloktab| && s.First(s.bloktab[b1].fcblknm) <= d < s.Last(s.bloktab[b1].fcblknm)
             && Covers(s.bloktab[d], s.bloktab[b2])
    ensures CoveredIn(s, e, s.bloktab[b1].fcblknm, l1, c1.fcblknm, c2)
  {
    var f, q1 := s.bloktab[b1].fcblknm, c1.fcblknm;
    CoverFaces(s, i, b2, f, d);
    PartIn(s, e, i, q, b2, l2, c2);
    PartIn(s, e, i, q, b1, l1, c1);
    var g := s.bloktab[b2].fcblknm;
    if d == s.First(f) {
      assert ValidColumn(s, f) && g == f;
      var p := Pieces(s, e, f);
      if l2 < l1 { PiecesIncrease(p, s.cblktab[f].fcolnum, s.cblktab[f].lcolnum, l2, l1); }
      ColumnGet(s, e, f, l1, q1, l2);
      assert Covers(DiagPart(p, NewNum(e, f), q1, l2), c2);
    } else {
      OldBlokIs(s, f, d);
      var c := Part(s.bloktab[d], Pieces(s, e, g)[l2], q1, NewNum(e, g) + l2);
      assert IsPart(s, e, f, q1, d, l2, c);
      ColumnGetPart(s, e, f, l1, q1, d, l2, c);
      assert Covers(c, c2);
    }
  }

  /** Blocks of the diagonal come first. */
  lemma PartsAreBelow(s: Symbol, e: Extra, i: int, j: int, q: int, c1: Blok, c2: Blok, b1: int, l1: int)
    returns (b2: int, l2: int)
    requires At(s, e, i, j, q) && c2 in SplitColumn(s, e, i, j).bloks && IsPart(s, e, i, q, b1, l1, c1)
             && c1.frownum <= c2.frownum
    ensures IsPart(s, e, i, q, b2, l2, c2) && b1 <= b2
  {
    PartIn(s, e, i, q, b1, l1, c1);
    assert ValidColumn(s, i);
    var diag;
    diag, b2, l2 := ColumnHas(s, e, i, j, q, c2);
    if diag {
      PieceInside(Pieces(s, e, i), s.cblktab[i].fcolnum, s.cblktab[i].lcolnum, b2);
      assert false;
    }
    PartIn(s, e, i, q, b2, l2, c2);
  }

  lemma PairCovered(s: Symbol, e: Extra, i: int, j: int, q: int, c1: Blok, c2: Blok) returns (i1: int, j1: int)
    requires Closed(s) && BelowFirst(s, e, i, j, q, c1) && c2 in SplitColumn(s, e, i, j).bloks
             && c1.frownum <= c2.frownum
    ensures CoveredIn(s, e, i1, j1, c1.fcblknm, c2)
  {
    var diag, x1, l1 := ColumnHas(s, e, i, j, q, c1);
    if diag {
      CoveredFromDiag(s, e, i, j, q, c1, c2, x1);
      i1, j1 := i, x1;
    } else {
      var b2, l2 := PartsAreBelow(s, e, i, j, q, c1, c2, x1, l1);
      assert ClosedPair(s, i, x1, b2);
      var f := s.bloktab[x1].fcblknm;
      assert ValidColumn(s, f);
      var d :| s.First(f) <= d < s.Last(f) && Covers(s.bloktab[d], s.bloktab[b2]);
      CoveredFromPart(s, e, i, q, c1, c2, x1, l1, b2, l2, d);
      i1, j1 := f, l1;
    }
  }

  /** Two blocks below the first of a new column, in order. */
  lemma MergedPair(s: Symbol, e: Extra, q: int, b1: int, b2: int) returns (i: int, j: int, c1: Blok, c2: Blok)
    requires ValidExtra(s, e) && s.CblkNbr() > 0 && Valid(Merged(s, e))
    requires 0 <= q < Merged(s, e).CblkNbr() && Merged(s, e).First(q) < b1 <= b2 < Merged(s, e).Last(q)
    ensures BelowFirst(s, e, i, j, q, c1) && c2 in SplitColumn(s, e, i, j).bloks && c1.frownum <= c2.frownum
    ensures 0 <= b1 <= b2 < |Merged(s, e).bloktab| && Merged(s, e).bloktab[b1] == c1 && Merged(s, e).bloktab[b2] == c2
  {
    i, j := MergedOrigin(s, e, q);
    var x1 := MergedHas(s, e, i, j, q, b1);
    var x2 := MergedHas(s, e, i, j, q, b2);
    c1, c2 := SplitColumn(s, e, i, j).bloks[x1], SplitColumn(s, e, i, j).bloks[x2];
    FirstOnly(s, e, i, j, q, x1);
    InOrder(s, e, i, j, q, x1, x2);
  }

  lemma MergedHas(s: Symbol, e: Extra, i: int, j: int, q: int, b: int) returns (x: int)
    requires At(s, e, i, j, q) && 0 <= q < Merged(s, e).CblkNbr() && Merged(s, e).First(q) <= b < Merged(s, e).Last(q)
    ensures x == b - Merged(s, e).First(q) && 0 <= x < |SplitColumn(s, e, i, j).bloks|
    ensures 0 <= b < |Merged(s, e).bloktab| && Merged(s, e).bloktab[b] == SplitColumn(s, e, i, j).bloks[x]
  {
    MergedColumn(s, e, i, j, q);
    x := b - Merged(s, e).First(q);
    MergedBlok(s, e, i, j, q, x);
  }

  lemma InOrder(s: Symbol, e: Extra, i: int, j: int, q: int, x1: int, x2: int)
    requires At(s, e, i, j, q) && 0 <= x1 <= x2 < |SplitColumn(s, e, i, j).bloks|
    ensures SplitColumn(s, e, i, j).bloks[x1].frownum <= SplitColumn(s, e, i, j).bloks[x2].frownum
  {
    var v := SplitColumn(s, e, i, j).bloks;
    ColumnSorted(s, e, i, j, q);
    ColumnBloksIn(s, e, i, j, q, v[x1]);
    if x1 < x2 { assert v[x1].lrownum < v[x2].frownum; }
  }

  lemma PairStays(s: Symbol, e: Extra, q: int, b1: int, b2: int)
    requires Closed(s) && ValidExtra(s, e) && s.CblkNbr() > 0 && Valid(Merged(s, e))
    requires 0 <= q < Merged(s, e).CblkNbr() && Merged(s, e).First(q) < b1 <= b2 < Merged(s, e).Last(q)
    ensures ClosedPair(Merged(s, e), q, b1, b2)
  {
    var i, j, c1, c2 := MergedPair(s, e, q, b1, b2);
    var i1, j1 := PairCovered(s, e, i, j, q, c1, c2);
    var d :| d in SplitColumn(s, e, i1, j1).bloks && Covers(d, c2);
    var b := FlatGet(s, e, i1, j1, c1.fcblknm, d);
    OldBlokIs(Merged(s, e), q, b1);
    assert ValidColumn(Merged(s, e), c1.fcblknm);
    assert Covers(Merged(s, e).bloktab[b], Merged(s, e).bloktab[b2]);
  }

  /** Splitting a complete factorization leaves a complete factorization. */
  lemma ClosedStays(s: Symbol, e: Extra)
    requires Closed(s) && ValidExtra(s, e) && s.CblkNbr() > 0
    ensures Closed(Merged(s, e))
  {
    MergedIsValid(s, e);
    var m := Merged(s, e);
    forall q, b1, b2 | 0 <= q < m.CblkNbr() && m.First(q) < b1 <= b2 < m.Last(q) ensures ClosedPair(m, q, b1, b2) {
      PairStays(s, e, q, b1, b2);
    }
  }
}

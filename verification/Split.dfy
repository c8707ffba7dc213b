/** What extraCblkMerge of blend/extracblk.c makes of a block structure: each split column
    block becomes several, and its blocks are cut along the new columns and the new rows. */
module Split {
  import opened SymbolMatrix

  /** The tables of ExtraCblk_t: how many column blocks replace each old one, and where they
      are in cblktab. */
  datatype Extra = Extra(sptcblk: seq<int>, sptcbnb: seq<int>, cblktab: seq<Cblk>)

  // ----- Pieces of a column block -----

  /** The column blocks that replace column block i. */
  function Pieces(s: Symbol, e: Extra, i: int): (p: seq<Cblk>)
    requires 0 <= i < s.CblkNbr() && i < |e.sptcbnb| == |e.sptcblk|
    requires e.sptcbnb[i] > 1 ==> 0 <= e.sptcblk[i] && e.sptcblk[i] + e.sptcbnb[i] <= |e.cblktab|
    ensures |p| == if e.sptcbnb[i] > 1 then e.sptcbnb[i] else 1
  {
    if e.sptcbnb[i] > 1 then e.cblktab[e.sptcblk[i]..e.sptcblk[i] + e.sptcbnb[i]] else [s.cblktab[i]]
  }

  predicate PieceOk(p: seq<Cblk>, k: int)
    requires 0 <= k < |p|
  {
    p[k].fcolnum <= p[k].lcolnum && (k + 1 < |p| ==> p[k + 1].fcolnum == p[k].lcolnum + 1)
  }

  /** The pieces follow one another from column f to column l. */
  ghost predicate Tiles(p: seq<Cblk>, f: int, l: int) {
    |p| >= 1 && p[0].fcolnum == f && p[|p| - 1].lcolnum == l && forall k :: 0 <= k < |p| ==> PieceOk(p, k)
  }

  ghost predicate ExtraOk(s: Symbol, e: Extra, i: int)
    requires 0 <= i < s.CblkNbr() && i < |e.sptcbnb| == |e.sptcblk|
  {
    && e.sptcbnb[i] >= 1
    && (e.sptcbnb[i] > 1 ==> 0 <= e.sptcblk[i] && e.sptcblk[i] + e.sptcbnb[i] <= |e.cblktab|)
    && Tiles(Pieces(s, e, i), s.cblktab[i].fcolnum, s.cblktab[i].lcolnum)
  }

  ghost predicate ValidExtra(s: Symbol, e: Extra) {
    && Valid(s) && |e.sptcbnb| == |e.sptcblk| == s.CblkNbr()
    && forall i :: 0 <= i < s.CblkNbr() ==> ExtraOk(s, e, i)
  }

  lemma {:induction false} PiecesIncrease(p: seq<Cblk>, f: int, l: int, k: int, m: int)
    requires Tiles(p, f, l) && 0 <= k < m < |p|
    ensures p[k].lcolnum < p[m].fcolnum
    decreases m
  {
    assert PieceOk(p, m - 1) && PieceOk(p, m);
    if k < m - 1 { PiecesIncrease(p, f, l, k, m - 1); }
  }

  lemma PieceInside(p: seq<Cblk>, f: int, l: int, k: int)
    requires Tiles(p, f, l) && 0 <= k < |p|
    ensures f <= p[k].fcolnum <= p[k].lcolnum <= l
  {
    assert PieceOk(p, k) && PieceOk(p, 0) && PieceOk(p, |p| - 1);
    if k > 0 { PiecesIncrease(p, f, l, 0, k); }
    if k < |p| - 1 { PiecesIncrease(p, f, l, k, |p| - 1); }
  }

  /** Every column is in a piece. */
  lemma {:induction false} PieceOf(p: seq<Cblk>, f: int, l: int, c: int, k: int) returns (m: int)
    requires Tiles(p, f, l) && 0 <= k < |p| && f <= c <= p[k].lcolnum
    ensures 0 <= m <= k && p[m].fcolnum <= c <= p[m].lcolnum
    decreases k
  {
    if c >= p[k].fcolnum {
      m := k;
    } else {
      assert PieceOk(p, k - 1);
      m := PieceOf(p, f, l, c, k - 1);
    }
  }

  // ----- Columns and their flat storage -----

  /** A column block with its blocks. */
  datatype Column = Column(fcolnum: int, lcolnum: int, bloks: seq<Blok>)

  function Start(cols: seq<Column>, q: int): (b: int)
    requires 0 <= q <= |cols|
    ensures 0 <= b
    decreases q
  {
    if q == 0 then 0 else Start(cols, q - 1) + |cols[q - 1].bloks|
  }

  function FlatBloks(cols: seq<Column>, q: int): (b: seq<Blok>)
    requires 0 <= q <= |cols|
    ensures |b| == Start(cols, q)
    decreases q
  {
    if q == 0 then [] else FlatBloks(cols, q - 1) + cols[q - 1].bloks
  }

  function FlatCblk(cols: seq<Column>, q: int): Cblk
    requires 0 <= q <= |cols| && |cols| > 0
  {
    if q < |cols| then Cblk(cols[q].fcolnum, cols[q].lcolnum, Start(cols, q))
    else Cblk(cols[q - 1].lcolnum + 1, cols[q - 1].lcolnum + 1, Start(cols, q))
  }

  function FlatCblks(cols: seq<Column>): (c: seq<Cblk>)
    requires |cols| > 0
    ensures |c| == |cols| + 1 && forall q :: 0 <= q < |c| ==> c[q] == FlatCblk(cols, q)
  {
    seq(|cols| + 1, q requires 0 <= q <= |cols| => FlatCblk(cols, q))
  }

  /** The structure that stores the columns one after the other. */
  function Flat(cols: seq<Column>): Symbol
    requires |cols| > 0
  {
    Symbol(FlatCblks(cols), FlatBloks(cols, |cols|))
  }

  lemma {:induction false} FlatAt(cols: seq<Column>, q: int, x: int, n: int)
    requires 0 <= q < n <= |cols| && 0 <= x < |cols[q].bloks|
    ensures 0 <= Start(cols, q) + x < Start(cols, n)
    ensures FlatBloks(cols, n)[Start(cols, q) + x] == cols[q].bloks[x]
    decreases n
  {
    if q < n - 1 { FlatAt(cols, q, x, n - 1); }
  }

  predicate BlokIn(cols: seq<Column>, q: int, b: Blok) {
    && b.lcblknm == q && 0 <= b.fcblknm < |cols|
    && cols[b.fcblknm].fcolnum <= b.frownum <= b.lrownum <= cols[b.fcblknm].lcolnum
  }

  ghost predicate SortedBloks(v: seq<Blok>) {
    forall x, y :: 0 <= x < y < |v| ==> v[x].lrownum < v[y].frownum
  }

  ghost predicate ColumnOk(cols: seq<Column>, q: int)
    requires 0 <= q < |cols|
  {
    var c := cols[q];
    && c.fcolnum <= c.lcolnum && (q + 1 < |cols| ==> cols[q + 1].fcolnum == c.lcolnum + 1)
    && |c.bloks| > 0 && c.bloks[0] == Blok(c.fcolnum, c.lcolnum, q, q)
    && (forall b :: b in c.bloks ==> BlokIn(cols, q, b))
    && SortedBloks(c.bloks)
  }

  lemma FlatStart(cols: seq<Column>, q: int)
    requires 0 <= q <= |cols| && |cols| > 0
    ensures |Flat(cols).cblktab| == |cols| + 1 && Flat(cols).cblktab[q] == FlatCblk(cols, q)
    ensures Flat(cols).cblktab[q].bloknum == Start(cols, q)
  {
  }

  /** Column block q of the flat structure. */
  lemma FlatIs(cols: seq<Column>, q: int)
    requires 0 <= q < |cols|
    ensures Flat(cols).CblkNbr() == |cols|
    ensures Flat(cols).cblktab[q].fcolnum == cols[q].fcolnum && Flat(cols).cblktab[q].lcolnum == cols[q].lcolnum
    ensures Flat(cols).First(q) == Start(cols, q) >= 0 && Flat(cols).Last(q) == Start(cols, q) + |cols[q].bloks|
  {
    FlatStart(cols, q);
    FlatStart(cols, q + 1);
  }

  lemma FlatBlok(cols: seq<Column>, q: int, x: int)
    requires 0 <= q < |cols| && 0 <= x < |cols[q].bloks|
    ensures 0 <= q < Flat(cols).CblkNbr() && 0 <= Flat(cols).First(q) + x < |Flat(cols).bloktab|
    ensures Flat(cols).bloktab[Flat(cols).First(q) + x] == cols[q].bloks[x]
  {
    FlatIs(cols, q);
    FlatAt(cols, q, x, |cols|);
  }

  lemma FlatColumn(cols: seq<Column>, q: int)
    requires 0 <= q < |cols| && ValidCblks(Flat(cols)) && ColumnOk(cols, q)
    ensures ValidColumn(Flat(cols), q)
  {
    var s, bloks := Flat(cols), cols[q].bloks;
    FlatIs(cols, q);
    FlatBlok(cols, q, 0);
    FlatBlok(cols, q, |bloks| - 1);
    forall b | s.First(q) <= b < s.Last(q) ensures ValidBlok(s, q, b) { FlatBlokOk(cols, q, b - s.First(q)); }
    forall b, c | s.First(q) <= b < c < s.Last(q) ensures s.bloktab[b].lrownum < s.bloktab[c].frownum {
      FlatBlok(cols, q, b - s.First(q));
      FlatBlok(cols, q, c - s.First(q));
    }
  }

  lemma FlatBlokOk(cols: seq<Column>, q: int, x: int)
    requires 0 <= q < |cols| && ValidCblks(Flat(cols)) && ColumnOk(cols, q) && 0 <= x < |cols[q].bloks|
    ensures 0 <= Flat(cols).First(q) + x < |Flat(cols).bloktab| && ValidBlok(Flat(cols), q, Flat(cols).First(q) + x)
  {
    FlatBlok(cols, q, x);
    var b := cols[q].bloks[x];
    assert b in cols[q].bloks && BlokIn(cols, q, b);
    FlatIs(cols, b.fcblknm);
  }

  lemma FlatValid(cols: seq<Column>)
    requires |cols| > 0 && forall q :: 0 <= q < |cols| ==> ColumnOk(cols, q)
    ensures Valid(Flat(cols))
  {
    var s := Flat(cols);
    forall q | 0 <= q < s.CblkNbr()
      ensures s.cblktab[q].fcolnum <= s.cblktab[q].lcolnum && s.cblktab[q + 1].fcolnum == s.cblktab[q].lcolnum + 1
              && s.First(q) < s.Last(q)
    {
      assert ColumnOk(cols, q);
    }
    forall q | 0 <= q < s.CblkNbr() ensures ValidColumn(s, q) { FlatColumn(cols, q); }
  }

  // ----- Cutting a block along the pieces of the column block it faces -----

  predicate Meets(b: Blok, c: Cblk) { b.frownum <= c.lcolnum && c.fcolnum <= b.lrownum }

  function Max(a: int, b: int): int { if a > b then a else b }
  function Min(a: int, b: int): int { if a < b then a else b }

  /** The rows of b in piece c. */
  function Part(b: Blok, c: Cblk, q: int, f: int): Blok {
    Blok(Max(b.frownum, c.fcolnum), Min(b.lrownum, c.lcolnum), q, f)
  }

  /** The parts of b in the first k pieces, numbered from base, for the new column block q. */
  function Cut(b: Blok, p: seq<Cblk>, base: int, q: int, k: int): (v: seq<Blok>)
    requires 0 <= k <= |p|
    decreases k
  {
    if k == 0 then []
    else Cut(b, p, base, q, k - 1) + if Meets(b, p[k - 1]) then [Part(b, p[k - 1], q, base + k - 1)] else []
  }

  lemma {:induction false} CutHas(b: Blok, p: seq<Cblk>, base: int, q: int, k: int, x: int) returns (l: int)
    requires 0 <= k <= |p| && 0 <= x < |Cut(b, p, base, q, k)|
    ensures 0 <= l < k && Meets(b, p[l]) && Cut(b, p, base, q, k)[x] == Part(b, p[l], q, base + l)
    decreases k
  {
    if x < |Cut(b, p, base, q, k - 1)| { l := CutHas(b, p, base, q, k - 1, x); } else { l := k - 1; }
  }

  lemma {:induction false} CutGet(b: Blok, p: seq<Cblk>, base: int, q: int, k: int, l: int)
    requires 0 <= l < k <= |p| && Meets(b, p[l])
    ensures Part(b, p[l], q, base + l) in Cut(b, p, base, q, k)
    decreases k
  {
    if l < k - 1 { CutGet(b, p, base, q, k - 1, l); }
  }

  lemma SortedAppend(v: seq<Blok>, w: seq<Blok>)
    requires SortedBloks(v) && SortedBloks(w)
    requires forall b, c :: b in v && c in w ==> b.lrownum < c.frownum
    ensures SortedBloks(v + w)
  {
    var u := v + w;
    forall x, y | 0 <= x < y < |u| ensures u[x].lrownum < u[y].frownum {
      if x < |v| <= y { assert u[x] in v && u[y] in w; }
    }
  }

  lemma {:induction false} CutSorted(b: Blok, p: seq<Cblk>, f: int, l: int, base: int, q: int, k: int)
    requires Tiles(p, f, l) && 0 <= k <= |p|
    ensures SortedBloks(Cut(b, p, base, q, k))
    decreases k
  {
    if k > 0 {
      CutSorted(b, p, f, l, base, q, k - 1);
      var v := Cut(b, p, base, q, k - 1);
      var w := if Meets(b, p[k - 1]) then [Part(b, p[k - 1], q, base + k - 1)] else [];
      forall c, d | c in v && d in w ensures c.lrownum < d.frownum {
        var x :| 0 <= x < |v| && v[x] == c;
        var m := CutHas(b, p, base, q, k - 1, x);
        PiecesIncrease(p, f, l, m, k - 1);
      }
      SortedAppend(v, w);
    }
  }

  // ----- The new columns -----

  /** New number of the first column block that comes from i. */
  function NewNum(e: Extra, i: int): (n: int)
    requires 0 <= i <= |e.sptcbnb|
    decreases i
  {
    if i == 0 then 0 else NewNum(e, i - 1) + e.sptcbnb[i - 1]
  }

  /** The diagonal block of piece x, as part of the new column block q. */
  function DiagPart(p: seq<Cblk>, base: int, q: int, x: int): Blok
    requires 0 <= x < |p|
  {
    Blok(p[x].fcolnum, p[x].lcolnum, q, base + x)
  }

  /** The diagonal block of piece j and those below it that come from the same diagonal block. */
  function Diag(p: seq<Cblk>, base: int, j: int): (v: seq<Blok>)
    requires 0 <= j <= |p|
    ensures |v| == |p| - j
  {
    seq(|p| - j, k requires 0 <= k < |p| - j => DiagPart(p, base, base + j, j + k))
  }

  /** The parts of old block b in the new column block q. */
  function CutBlok(s: Symbol, e: Extra, b: int, q: int): seq<Blok>
    requires ValidExtra(s, e) && 0 <= b < |s.bloktab| && 0 <= s.bloktab[b].fcblknm < s.CblkNbr()
  {
    var f := s.bloktab[b].fcblknm;
    assert ExtraOk(s, e, f);
    Cut(s.bloktab[b], Pieces(s, e, f), NewNum(e, f), q, |Pieces(s, e, f)|)
  }

  /** The parts of the off-diagonal blocks of i before block k. */
  function Off(s: Symbol, e: Extra, i: int, q: int, k: int): seq<Blok>
    requires ValidExtra(s, e) && 0 <= i < s.CblkNbr() && s.First(i) < k <= s.Last(i)
    decreases k
  {
    assert ValidColumn(s, i);
    if k == s.First(i) + 1 then []
    else assert ValidBlok(s, i, k - 1); Off(s, e, i, q, k - 1) + CutBlok(s, e, k - 1, q)
  }

  /** Piece j of column block i with its blocks. */
  function SplitColumn(s: Symbol, e: Extra, i: int, j: int): Column
    requires ValidExtra(s, e) && 0 <= i < s.CblkNbr() && 0 <= j < e.sptcbnb[i]
  {
    assert ExtraOk(s, e, i) && ValidColumn(s, i);
    var p, base := Pieces(s, e, i), NewNum(e, i);
    Column(p[j].fcolnum, p[j].lcolnum, Diag(p, base, j) + Off(s, e, i, base + j, s.Last(i)))
  }

  function SplitColumns(s: Symbol, e: Extra, i: int): (v: seq<Column>)
    requires ValidExtra(s, e) && 0 <= i < s.CblkNbr()
    ensures |v| == e.sptcbnb[i] && forall j :: 0 <= j < |v| ==> v[j] == SplitColumn(s, e, i, j)
  {
    assert ExtraOk(s, e, i);
    seq(e.sptcbnb[i], j requires 0 <= j < e.sptcbnb[i] => SplitColumn(s, e, i, j))
  }

  /** The new columns that come from the first i old ones. */
  function Columns(s: Symbol, e: Extra, i: int): (v: seq<Column>)
    requires ValidExtra(s, e) && 0 <= i <= s.CblkNbr()
    ensures |v| == NewNum(e, i)
    decreases i
  {
    if i == 0 then [] else Columns(s, e, i - 1) + SplitColumns(s, e, i - 1)
  }

  lemma InJoined<T>(v: seq<T>, w: seq<T>, k: int)
    requires 0 <= k < |v| + |w|
    ensures (v + w)[k] == if k < |v| then v[k] else w[k - |v|]
  {
  }

  lemma ColumnsNew(s: Symbol, e: Extra, i: int, j: int, next: int)
    requires ValidExtra(s, e) && 0 <= i < s.CblkNbr() && 0 <= j < e.sptcbnb[i] && next == i + 1
    ensures 0 <= NewNum(e, i) && NewNum(e, i) + j < NewNum(e, next)
    ensures Columns(s, e, next)[NewNum(e, i) + j] == SplitColumn(s, e, i, j)
  {
    NewNumGrows(s, e, i);
    var v, w := Columns(s, e, i), SplitColumns(s, e, i);
    assert Columns(s, e, next) == v + w;
    InJoined(v, w, |v| + j);
  }

  lemma ColumnsOld(s: Symbol, e: Extra, q: int, n: int, next: int)
    requires ValidExtra(s, e) && 0 <= n < s.CblkNbr() && next == n + 1 && 0 <= q < NewNum(e, n)
    ensures q < NewNum(e, next) && Columns(s, e, next)[q] == Columns(s, e, n)[q]
  {
    assert ExtraOk(s, e, n);
    var v, w := Columns(s, e, n), SplitColumns(s, e, n);
    assert Columns(s, e, next) == v + w;
    InJoined(v, w, q);
  }

  lemma ColumnsAt(s: Symbol, e: Extra, i: int, j: int, n: int)
    requires ValidExtra(s, e) && 0 <= i < n <= s.CblkNbr() && 0 <= j < e.sptcbnb[i]
    ensures 0 <= NewNum(e, i) && NewNum(e, i) + j < NewNum(e, n)
    ensures Columns(s, e, n)[NewNum(e, i) + j] == SplitColumn(s, e, i, j)
  {
    ColumnHolds(s, e, i, j, n, NewNum(e, i) + j);
  }

  ghost predicate ColumnIn(s: Symbol, e: Extra, n: int, q: int, c: Column)
    requires ValidExtra(s, e) && 0 <= n <= s.CblkNbr()
  {
    0 <= q < NewNum(e, n) && Columns(s, e, n)[q] == c
  }

  lemma {:induction false} ColumnHolds(s: Symbol, e: Extra, i: int, j: int, n: int, q: int)
    requires ValidExtra(s, e) && 0 <= i < n <= s.CblkNbr() && 0 <= j < e.sptcbnb[i] && q == NewNum(e, i) + j
    ensures 0 <= NewNum(e, i) && ColumnIn(s, e, n, q, SplitColumn(s, e, i, j))
    decreases n
  {
    if i < n - 1 {
      ColumnHolds(s, e, i, j, n - 1, q);
      ColumnsOld(s, e, q, n - 1, n);
    } else {
      ColumnsNew(s, e, i, j, n);
    }
  }

  lemma {:induction false} NewNumGrows(s: Symbol, e: Extra, i: int)
    requires ValidExtra(s, e) && 0 <= i <= s.CblkNbr()
    ensures i <= NewNum(e, i)
    decreases i
  {
    if i > 0 {
      assert ExtraOk(s, e, i - 1);
      NewNumGrows(s, e, i - 1);
    }
  }

  /** Where new column block q comes from. */
  lemma {:induction false} Origin(s: Symbol, e: Extra, q: int, n: int) returns (i: int, j: int)
    requires ValidExtra(s, e) && 0 <= n <= s.CblkNbr() && 0 <= q < NewNum(e, n)
    ensures 0 <= i < n && 0 <= j < e.sptcbnb[i] && q == NewNum(e, i) + j
    decreases n
  {
    if q < NewNum(e, n - 1) { i, j := Origin(s, e, q, n - 1); } else { i, j := n - 1, q - NewNum(e, n - 1); }
  }

  /** The structure after the split. */
  function Merged(s: Symbol, e: Extra): Symbol
    requires ValidExtra(s, e) && s.CblkNbr() > 0
  {
    NewNumGrows(s, e, s.CblkNbr());
    Flat(Columns(s, e, s.CblkNbr()))
  }
}

/** Where the coefficients of a column block are stored (blend/solver_matrix_gen.c): block after
    block when the layout is 2D, column after column otherwise. */
module CoefTable {
  import opened SymbolMatrix

  function RowNbr(s: Symbol, b: int): int
    requires 0 <= b < |s.bloktab|
  {
    s.bloktab[b].lrownum - s.bloktab[b].frownum + 1
  }

  function ColNbr(s: Symbol, i: int): int
    requires 0 <= i < |s.cblktab|
  {
    s.cblktab[i].lcolnum - s.cblktab[i].fcolnum + 1
  }

  /** Rows of the blocks f .. b - 1: what stride holds when the loop reaches block b. */
  function Height(s: Symbol, f: int, b: int): int
    requires 0 <= f <= b <= |s.bloktab|
    decreases b - f
  {
    if b == f then 0 else Height(s, f, b - 1) + RowNbr(s, b - 1)
  }

  ghost predicate Column(s: Symbol, i: int) { Valid(s) && 0 <= i < s.CblkNbr() && ValidColumn(s, i) }

  function Stride(s: Symbol, i: int): int
    requires 0 <= i < s.CblkNbr() && 0 <= s.First(i) <= s.Last(i) <= |s.bloktab|
  {
    Height(s, s.First(i), s.Last(i))
  }

  function Coefind(s: Symbol, i: int, b: int, layout2d: bool): int
    requires 0 <= i < s.CblkNbr() && 0 <= s.First(i) <= b <= |s.bloktab|
  {
    if layout2d then Height(s, s.First(i), b) * ColNbr(s, i) else Height(s, s.First(i), b)
  }

  /** Offset of row r and column c of block b in the coefficients of column block i. */
  function Offset(s: Symbol, i: int, b: int, r: int, c: int, layout2d: bool): int
    requires 0 <= i < s.CblkNbr() && 0 <= s.First(i) <= b < s.Last(i) <= |s.bloktab|
  {
    Coefind(s, i, b, layout2d) + c * (if layout2d then RowNbr(s, b) else Stride(s, i)) + r
  }

  /** A coefficient of block b. */
  ghost predicate InBlok(s: Symbol, i: int, b: int, r: int, c: int) {
    Column(s, i) && s.First(i) <= b < s.Last(i) && 0 <= r < RowNbr(s, b) && 0 <= c < ColNbr(s, i)
  }

  // ----- Rows -----

  lemma RowsPositive(s: Symbol, i: int, b: int)
    requires Column(s, i) && s.First(i) <= b < s.Last(i)
    ensures RowNbr(s, b) >= 1 && ColNbr(s, i) >= 1
  {
    assert ValidBlok(s, i, b) && CblkOk(s, i);
  }

  lemma {:induction false} HeightGrows(s: Symbol, i: int, b: int, d: int)
    requires Column(s, i) && s.First(i) <= b <= d <= s.Last(i)
    ensures 0 <= Height(s, s.First(i), b) <= Height(s, s.First(i), d)
    ensures b < d ==> Height(s, s.First(i), b) + RowNbr(s, b) <= Height(s, s.First(i), d)
    decreases d
  {
    if b < d {
      RowsPositive(s, i, d - 1);
      HeightGrows(s, i, b, d - 1);
    } else if s.First(i) < b {
      HeightGrows(s, i, s.First(i), b - 1);
      RowsPositive(s, i, b - 1);
    }
  }

  /** The block at height x. */
  lemma {:induction false} BlokAt(s: Symbol, i: int, x: int, e: int) returns (b: int)
    requires Column(s, i) && s.First(i) <= e <= s.Last(i) && 0 <= x < Height(s, s.First(i), e)
    ensures s.First(i) <= b < e && Height(s, s.First(i), b) <= x < Height(s, s.First(i), b) + RowNbr(s, b)
    decreases e
  {
    if x < Height(s, s.First(i), e - 1) { b := BlokAt(s, i, x, e - 1); } else { b := e - 1; }
  }

  // ----- Products -----

  lemma NextTimes(c: int, d: int, w: int)
    requires 0 < w
    ensures c < d ==> c * w + w <= d * w
  {
    if c < d {
      var more := d - c - 1;
      assert d * w == c * w + w + more * w;
      assert 0 <= more * w;
    }
  }

  lemma Below(c: int, h: int, w: int, r: int)
    requires 0 <= c < h && 0 <= r < w
    ensures 0 <= c * w + r < h * w
  {
    assert (c + 1) * w <= h * w;
  }

  lemma AreaBelow(h: int, n: int, g: int, w: int)
    requires 0 <= h && 0 < n && h + n <= g && 0 < w
    ensures 0 <= h * w && h * w + w * n <= g * w
  {
    var more := g - h - n;
    assert g * w == h * w + w * n + more * w;
    assert 0 <= more * w;
  }

  lemma PositiveHeight(x: int, h: int, w: int)
    requires 0 <= x < h * w && 0 <= w
    ensures 0 < w
  {
  }

  lemma Split(x: int, h: int, w: int) returns (c: int, r: int)
    requires 0 <= x < h * w && 0 < w
    ensures 0 <= c < h && 0 <= r < w && c * w + r == x
  {
    c, r := x / w, x % w;
    assert c * w + r == x;
    NextTimes(c, h, w);
    NextTimes(h, c, w);
    NextTimes(c, 0, w);
  }

  lemma SplitOnce(c: int, r: int, d: int, q: int, w: int)
    requires 0 <= r < w && 0 <= q < w && c * w + r == d * w + q
    ensures c == d && r == q
  {
    NextTimes(c, d, w);
    NextTimes(d, c, w);
  }

  // ----- Tiling -----

  /** The 2D area of block b. */
  lemma AreaOf(s: Symbol, i: int, b: int, r: int, c: int)
    requires InBlok(s, i, b, r, c)
    ensures Coefind(s, i, b, true) <= Offset(s, i, b, r, c, true) < Coefind(s, i, b, true) + ColNbr(s, i) * RowNbr(s, b)
  {
    Below(c, ColNbr(s, i), RowNbr(s, b), r);
  }

  lemma Areas(s: Symbol, i: int, b: int, d: int)
    requires Column(s, i) && s.First(i) <= b < d <= s.Last(i)
    ensures 0 <= Coefind(s, i, b, true)
    ensures Coefind(s, i, b, true) + ColNbr(s, i) * RowNbr(s, b) <= Coefind(s, i, d, true)
  {
    HeightGrows(s, i, b, d);
    RowsPositive(s, i, b);
    AreaBelow(Height(s, s.First(i), b), RowNbr(s, b), Height(s, s.First(i), d), ColNbr(s, i));
  }

  /** Every coefficient of the column block is inside its storage. */
  lemma OffsetInRange(s: Symbol, i: int, b: int, r: int, c: int, layout2d: bool)
    requires InBlok(s, i, b, r, c)
    ensures 0 <= Offset(s, i, b, r, c, layout2d) < Stride(s, i) * ColNbr(s, i)
  {
    if layout2d {
      AreaOf(s, i, b, r, c);
      Areas(s, i, b, s.Last(i));
    } else {
      HeightGrows(s, i, b, s.Last(i));
      HeightGrows(s, i, s.First(i), b);
      Below(c, ColNbr(s, i), Stride(s, i), Height(s, s.First(i), b) + r);
      assert ColNbr(s, i) * Stride(s, i) == Stride(s, i) * ColNbr(s, i);
    }
  }

  /** No gap: every place of the storage holds a coefficient. */
  lemma OffsetOnto(s: Symbol, i: int, x: int, layout2d: bool) returns (b: int, r: int, c: int)
    requires Column(s, i) && 0 <= x < Stride(s, i) * ColNbr(s, i)
    ensures InBlok(s, i, b, r, c) && Offset(s, i, b, r, c, layout2d) == x
  {
    assert CblkOk(s, i);
    if layout2d {
      var y, o := Split(x, Stride(s, i), ColNbr(s, i));
      b := BlokAt(s, i, y, s.Last(i));
      c, r := InArea(s, i, x, y, o, b);
    } else {
      assert x < ColNbr(s, i) * Stride(s, i);
      HeightGrows(s, i, s.First(i), s.Last(i));
      PositiveHeight(x, ColNbr(s, i), Stride(s, i));
      var y;
      c, y := Split(x, ColNbr(s, i), Stride(s, i));
      b := BlokAt(s, i, y, s.Last(i));
      r := y - Height(s, s.First(i), b);
    }
  }

  lemma InArea(s: Symbol, i: int, x: int, y: int, o: int, b: int) returns (c: int, r: int)
    requires Column(s, i) && s.First(i) <= b < s.Last(i) && x == y * ColNbr(s, i) + o && 0 <= o < ColNbr(s, i)
    requires Height(s, s.First(i), b) <= y < Height(s, s.First(i), b) + RowNbr(s, b)
    ensures InBlok(s, i, b, r, c) && Offset(s, i, b, r, c, true) == x
  {
    var w, h := ColNbr(s, i), Height(s, s.First(i), b);
    Below(y - h, RowNbr(s, b), w, o);
    assert (y - h) * w == y * w - h * w;
    assert x - Coefind(s, i, b, true) == (y - h) * w + o;
    assert RowNbr(s, b) * w == w * RowNbr(s, b);
    RowsPositive(s, i, b);
    c, r := Split(x - Coefind(s, i, b, true), w, RowNbr(s, b));
  }

  /** No overlap: different coefficients are at different places. */
  lemma OffsetsApart(s: Symbol, i: int, b: int, r: int, c: int, d: int, q: int, e: int, layout2d: bool)
    requires InBlok(s, i, b, r, c) && InBlok(s, i, d, q, e)
    requires Offset(s, i, b, r, c, layout2d) == Offset(s, i, d, q, e, layout2d)
    ensures b == d && r == q && c == e
  {
    if layout2d {
      AreaOf(s, i, b, r, c);
      AreaOf(s, i, d, q, e);
      if b < d { Areas(s, i, b, d); }
      if d < b { Areas(s, i, d, b); }
      SplitOnce(c, r, e, q, RowNbr(s, b));
    } else {
      RowsApart(s, i, b, r, c, d, q, e);
    }
  }

  lemma RowsApart(s: Symbol, i: int, b: int, r: int, c: int, d: int, q: int, e: int)
    requires InBlok(s, i, b, r, c) && InBlok(s, i, d, q, e)
    requires Offset(s, i, b, r, c, false) == Offset(s, i, d, q, e, false)
    ensures b == d && r == q && c == e
  {
    var h, g := Height(s, s.First(i), b), Height(s, s.First(i), d);
    HeightGrows(s, i, b, s.Last(i));
    HeightGrows(s, i, d, s.Last(i));
    HeightGrows(s, i, s.First(i), b);
    HeightGrows(s, i, s.First(i), d);
    SplitOnce(c, h + r, e, g + q, Stride(s, i));
    if b < d { HeightGrows(s, i, b, d); }
    if d < b { HeightGrows(s, i, d, b); }
  }
}

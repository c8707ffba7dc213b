/** What splitSymbol of blend/splitsymbol.c makes of a structure, said of the new structure: where
    its column blocks come from, which of the old ones are cut and where, and the rows of its blocks. */
module SplitResult {
  import opened SymbolMatrix
  import opened Split
  import opened SplitProps
  import opened Counters
  import opened SplitSmart

  /** Numbers of pieces, from the new number of the first piece of each old column block. */
  ghost function PieceNbrs(starts: seq<int>): (n: seq<int>)
    requires |starts| >= 1
    ensures |n| == |starts| - 1
  {
    seq(|starts| - 1, i requires 0 <= i < |starts| - 1 => starts[i + 1] - starts[i])
  }

  /** Column block i becomes the column blocks starts[i] to starts[i + 1] - 1, over the same columns. */
  ghost predicate Spans(s: Symbol, r: Symbol, starts: seq<int>, i: int) {
    && |starts| == s.CblkNbr() + 1 && 0 <= i < s.CblkNbr()
    && 0 <= starts[i] < starts[i + 1] <= r.CblkNbr()
    && r.cblktab[starts[i]].fcolnum == s.cblktab[i].fcolnum
    && r.cblktab[starts[i + 1] - 1].lcolnum == s.cblktab[i].lcolnum
  }

  /** Lines within limit of the one asked for, after the first column. */
  predicate Near(f: int, l: int, asked: int, limit: int, line: int) {
    f < line <= l && asked - limit <= line <= asked + limit
  }

  /** A column block of the new structure ends at the last column l when what is left is
      not longer than step and limit together, and else at the first line, in the order they are
      tried, that the fewest blocks cross. */
  ghost predicate EndsWell(s: Symbol, r: Symbol, nbcb: seq<int>, l: int, step: int, limit: int, q: int)
    requires 0 <= q < r.CblkNbr()
  {
    var f, e := r.cblktab[q].fcolnum, r.cblktab[q].lcolnum;
    var asked := f + step - 1;
    && (e == l <==> l - f < step + limit)
    && (e < l ==>
          && (e == asked || Near(f, l, asked, limit, e))
          && forall line :: line == asked || Near(f, l, asked, limit, line) ==>
                && LineCost(s, nbcb, e) <= LineCost(s, nbcb, line)
                && (TriedBefore(asked, line, e) ==> LineCost(s, nbcb, e) < LineCost(s, nbcb, line)))
  }

  /** Column blocks that are not wider than blcolmax, or not twice as wide as blcolmin, are left whole. */
  ghost predicate CutAsAsked(s: Symbol, r: Symbol, starts: seq<int>, pm: Params, i: int) {
    && Spans(s, r, starts, i) && pm.blcolmin >= 2
    && var width := s.cblktab[i].lcolnum - s.cblktab[i].fcolnum + 1;
       if width <= pm.blcolmax || width < 2 * pm.blcolmin then starts[i + 1] == starts[i] + 1
       else
         var n := width / pm.blcolmin;
         n >= 1 &&
         var step := (width + n - 1) / n;
         AllEndWell(s, r, starts, i, step, (step * pm.percent + 99) / 100)
  }

  ghost predicate AllEndWell(s: Symbol, r: Symbol, starts: seq<int>, i: int, step: int, limit: int)
    requires Spans(s, r, starts, i)
  {
    forall q :: starts[i] <= q < starts[i + 1] ==>
      EndsWell(s, r, PieceNbrs(starts), s.cblktab[i].lcolnum, step, limit, q)
  }

  /** The rows of block c of r are those of block b of s in the columns that c faces. */
  predicate RowsOf(s: Symbol, r: Symbol, b: int, c: Blok) {
    && 0 <= b < |s.bloktab| && 0 <= c.fcblknm < r.CblkNbr()
    && c.frownum == Max(s.bloktab[b].frownum, r.cblktab[c.fcblknm].fcolnum)
    && c.lrownum == Min(s.bloktab[b].lrownum, r.cblktab[c.fcblknm].lcolnum)
  }

  ghost predicate FromBlok(s: Symbol, r: Symbol, starts: seq<int>, i: int, q: int, b: int) {
    && Spans(s, r, starts, i)
    && (starts[i] <= q < starts[i + 1] && r.First(q) <= b < r.Last(q) ==>
          0 <= b < |r.bloktab| && exists b0 :: s.First(i) <= b0 < s.Last(i) && RowsOf(s, r, b0, r.bloktab[b]))
  }

  /** r is what the split of s gives. */
  ghost predicate SplitOf(s: Symbol, r: Symbol, starts: seq<int>, pm: Params) {
    && Valid(s) && Valid(r) && |starts| == s.CblkNbr() + 1 && starts[0] == 0 && starts[s.CblkNbr()] == r.CblkNbr()
    && (forall i :: 0 <= i < s.CblkNbr() ==> CutAsAsked(s, r, starts, pm, i))
    && (forall i, q, b :: 0 <= i < s.CblkNbr() ==> FromBlok(s, r, starts, i, q, b))
  }

  // ----- The cut at the end of a column block -----

  /** No block crosses the last line of a column block. */
  lemma {:induction false} LastLineIsFree(s: Symbol, nbcb: seq<int>, c: int, k: int)
    requires Valid(s) && 0 <= c < s.CblkNbr() && 0 <= k <= |s.bloktab|
    ensures Cost(s, nbcb, s.cblktab[c].lcolnum, k) == 0
    decreases k
  {
    if k > 0 {
      LastLineIsFree(s, nbcb, c, k - 1);
      assert CblkOk(s, c);
      if Crosses(s.bloktab[k - 1], s.cblktab[c].lcolnum) {
        CrossingFaces(s, k - 1, c, s.cblktab[c].lcolnum);
        var i := OwnerOf(s, k - 1, s.CblkNbr());
        assert false;
      }
    }
  }

  /** The diagonal block crosses the other lines. */
  lemma {:induction false} InnerLineCosts(s: Symbol, nbcb: seq<int>, c: int, line: int, k: int)
    requires Valid(s) && 0 <= c < s.CblkNbr() && 0 <= k <= |s.bloktab|
             && s.cblktab[c].fcolnum <= line < s.cblktab[c].lcolnum
    requires forall i :: 0 <= i < |nbcb| ==> nbcb[i] >= 1
    ensures Cost(s, nbcb, line, k) >= if k > s.First(c) then 1 else 0
    decreases k
  {
    if k > 0 {
      InnerLineCosts(s, nbcb, c, line, k - 1);
      assert ValidColumn(s, c);
      if k - 1 == s.First(c) { assert ValidBlok(s, c, k - 1); }
    }
  }

  /** The rest of a column block is left whole exactly when its last line is among those tried. */
  lemma LastPiece(s: Symbol, nbcb: seq<int>, c: int, f: int, step: int, limit: int, e: int)
    requires Valid(s) && 0 <= c < s.CblkNbr() && s.cblktab[c].fcolnum <= f <= s.cblktab[c].lcolnum
    requires 1 < step && 0 <= limit && forall i :: 0 <= i < |nbcb| ==> nbcb[i] >= 1
    requires BestCut(s, nbcb, f, s.cblktab[c].lcolnum - f + 1, step, limit, e)
    ensures e == s.cblktab[c].lcolnum <==> s.cblktab[c].lcolnum - f < step + limit
  {
    var l := s.cblktab[c].lcolnum;
    assert ValidColumn(s, c);
    if step < l - f + 1 && l - f < step + limit {
      assert InWindow(f, l - f + 1, step, limit, l);
      LastLineIsFree(s, nbcb, c, |s.bloktab|);
      if e < l { InnerLineCosts(s, nbcb, c, e, |s.bloktab|); }
    }
  }

  // ----- From the tables of the extra column blocks -----

  /** Piece j of column block i is a column block of r. */
  ghost predicate PieceAt(s: Symbol, e: Extra, r: Symbol, i: int, j: int)
    requires ValidExtra(s, e) && 0 <= i < s.CblkNbr()
  {
    && ExtraOk(s, e, i) && 0 <= j < |Pieces(s, e, i)| && 0 <= NewNum(e, i) + j < r.CblkNbr()
    && r.cblktab[NewNum(e, i) + j].fcolnum == Pieces(s, e, i)[j].fcolnum
    && r.cblktab[NewNum(e, i) + j].lcolnum == Pieces(s, e, i)[j].lcolnum
  }

  ghost predicate PiecesIn(s: Symbol, e: Extra, r: Symbol, i: int)
    requires ValidExtra(s, e) && 0 <= i < s.CblkNbr()
  {
    forall j :: 0 <= j < e.sptcbnb[i] ==> PieceAt(s, e, r, i, j)
  }

  ghost function Starts(e: Extra): (v: seq<int>)
    ensures |v| == |e.sptcbnb| + 1 && forall i :: 0 <= i < |v| ==> v[i] == NewNum(e, i)
  {
    seq(|e.sptcbnb| + 1, i requires 0 <= i <= |e.sptcbnb| => NewNum(e, i))
  }

  lemma NumbersAgain(e: Extra)
    ensures PieceNbrs(Starts(e)) == e.sptcbnb
  {
    var n := PieceNbrs(Starts(e));
    forall i | 0 <= i < |n| ensures n[i] == e.sptcbnb[i] {
      assert Starts(e)[i + 1] == NewNum(e, i + 1);
    }
  }

  lemma StartsAt(e: Extra, i: int, next: int)
    requires 0 <= i < |e.sptcbnb| && next == i + 1
    ensures Starts(e)[i] == NewNum(e, i) && Starts(e)[next] == NewNum(e, i) + e.sptcbnb[i]
  {
    assert NewNum(e, next) == NewNum(e, i) + e.sptcbnb[i];
  }

  /** First and last column of the pieces of i. */
  lemma PiecesSpan(s: Symbol, e: Extra, r: Symbol, i: int, last: int)
    requires ValidExtra(s, e) && 0 <= i < s.CblkNbr() && PiecesIn(s, e, r, i) && last == e.sptcbnb[i] - 1
    ensures 0 <= last && 0 <= NewNum(e, i) && NewNum(e, i) + last < r.CblkNbr()
    ensures r.cblktab[NewNum(e, i)].fcolnum == s.cblktab[i].fcolnum
    ensures r.cblktab[NewNum(e, i) + last].lcolnum == s.cblktab[i].lcolnum
  {
    assert ExtraOk(s, e, i);
    NewNumGrows(s, e, i);
    var zero := 0;
    assert PieceAt(s, e, r, i, zero);
    assert PieceAt(s, e, r, i, last);
  }

  lemma SpansOf(s: Symbol, e: Extra, r: Symbol, i: int)
    requires ValidExtra(s, e) && 0 <= i < s.CblkNbr() && PiecesIn(s, e, r, i)
    ensures Spans(s, r, Starts(e), i) && Starts(e)[i] == NewNum(e, i)
            && Starts(e)[i + 1] == NewNum(e, i) + e.sptcbnb[i]
  {
    PiecesSpan(s, e, r, i, e.sptcbnb[i] - 1);
    StartsAt(e, i, i + 1);
  }

  /** The piece of a cut column block, in the terms of the new structure. */
  lemma PieceEnds(s: Symbol, e: Extra, r: Symbol, i: int, j: int, q: int, step: int, limit: int)
    requires ValidExtra(s, e) && 0 <= i < s.CblkNbr() && PieceAt(s, e, r, i, j) && q == NewNum(e, i) + j
    requires 1 < step && 0 <= limit
    requires PieceBest(s, e.sptcbnb, Pieces(s, e, i), s.cblktab[i].lcolnum, step, limit, j)
    ensures EndsWell(s, r, e.sptcbnb, s.cblktab[i].lcolnum, step, limit, q)
  {
    var p, l := Pieces(s, e, i), s.cblktab[i].lcolnum;
    PieceInside(p, s.cblktab[i].fcolnum, l, j);
    forall k | 0 <= k < |e.sptcbnb| ensures e.sptcbnb[k] >= 1 { assert ExtraOk(s, e, k); }
    LastPiece(s, e.sptcbnb, i, p[j].fcolnum, step, limit, p[j].lcolnum);
    var f, asked := p[j].fcolnum, p[j].fcolnum + step - 1;
    if p[j].lcolnum < l {
      forall line | line == asked || Near(f, l, asked, limit, line)
        ensures LineCost(s, e.sptcbnb, p[j].lcolnum) <= LineCost(s, e.sptcbnb, line)
        ensures TriedBefore(asked, line, p[j].lcolnum) ==>
                  LineCost(s, e.sptcbnb, p[j].lcolnum) < LineCost(s, e.sptcbnb, line)
      {
        var near := InWindow(f, l - f + 1, step, limit, line);
      }
    }
  }

  lemma AsksForMore(pm: Params, width: int)
    requires ParamsOk(pm) && 1 <= width
    ensures NSeq(pm, width) <= 1 <==> width <= pm.blcolmax || width < 2 * pm.blcolmin
    ensures NSeq(pm, width) > 1 ==> NSeq(pm, width) == width / pm.blcolmin
  {
    DivBounds(width, pm.blcolmin);
    if width >= 2 * pm.blcolmin { DivAtLeast(width, pm.blcolmin, 2); }
    if width / pm.blcolmin >= 2 { Smaller(2, width / pm.blcolmin, pm.blcolmin); }
  }

  lemma PiecesEnd(s: Symbol, e: Extra, r: Symbol, i: int, step: int, limit: int)
    requires ValidExtra(s, e) && 0 <= i < s.CblkNbr() && PiecesIn(s, e, r, i) && ExtraOk(s, e, i)
    requires 1 < step && 0 <= limit
    requires forall k :: 0 <= k < |Pieces(s, e, i)| ==>
               PieceBest(s, e.sptcbnb, Pieces(s, e, i), s.cblktab[i].lcolnum, step, limit, k)
    ensures Spans(s, r, Starts(e), i) && AllEndWell(s, r, Starts(e), i, step, limit)
  {
    SpansOf(s, e, r, i);
    NumbersAgain(e);
    var starts, p := Starts(e), Pieces(s, e, i);
    forall q | starts[i] <= q < starts[i + 1]
      ensures EndsWell(s, r, PieceNbrs(starts), s.cblktab[i].lcolnum, step, limit, q) {
      var j := q - starts[i];
      assert PieceAt(s, e, r, i, j);
      assert PieceBest(s, e.sptcbnb, p, s.cblktab[i].lcolnum, step, limit, j);
      PieceEnds(s, e, r, i, j, q, step, limit);
    }
  }

  lemma CutIsAsked(s: Symbol, e: Extra, r: Symbol, i: int, pm: Params)
    requires ValidExtra(s, e) && 0 <= i < s.CblkNbr() && PiecesIn(s, e, r, i) && ParamsOk(pm) && ExtraOk(s, e, i)
    requires WellCut(s, e, i, pm)
    ensures CutAsAsked(s, r, Starts(e), pm, i)
  {
    SpansOf(s, e, r, i);
    assert CblkOk(s, i);
    var width := Width(s, i);
    AsksForMore(pm, width);
    if NSeq(pm, width) > 1 {
      StepAboveOne(pm, width);
      var step := StepOf(pm, width);
      Product(step, pm.percent);
      PiecesEnd(s, e, r, i, step, LimitOf(pm, step));
      LimitIs(step * pm.percent);
    }
  }

  lemma LimitIs(x: int)
    requires 0 <= x
    ensures CeilDiv(x, 100) == (x + 99) / 100
  {
  }

  // ----- The structure after the merge -----

  lemma MergedPieces(s: Symbol, e: Extra, i: int)
    requires ValidExtra(s, e) && 0 <= i < s.CblkNbr()
    ensures PiecesIn(s, e, Merged(s, e), i)
  {
    forall j | 0 <= j < e.sptcbnb[i] ensures PieceAt(s, e, Merged(s, e), i, j) {
      var q := NewNum(e, i) + j;
      assert At(s, e, i, j, q);
      MergedColumn(s, e, i, j, q);
      ColumnIs(s, e, i, j, q);
    }
  }

  lemma BlokComesFrom(s: Symbol, e: Extra, i: int, j: int, q: int, b: int) returns (b0: int)
    requires At(s, e, i, j, q) && 0 <= q < Merged(s, e).CblkNbr() && Merged(s, e).First(q) <= b < Merged(s, e).Last(q)
    ensures 0 <= b < |Merged(s, e).bloktab| && s.First(i) <= b0 < s.Last(i)
    ensures RowsOf(s, Merged(s, e), b0, Merged(s, e).bloktab[b])
  {
    var y := MergedHas(s, e, i, j, q, b);
    var c := SplitColumn(s, e, i, j).bloks[y];
    var diag, x, l := ColumnHas(s, e, i, j, q, c);
    assert ValidColumn(s, i);
    if diag {
      b0 := s.First(i);
      PieceInside(Pieces(s, e, i), s.cblktab[i].fcolnum, s.cblktab[i].lcolnum, x);
      assert At(s, e, i, x, c.fcblknm);
      MergedColumn(s, e, i, x, c.fcblknm);
      ColumnIs(s, e, i, x, c.fcblknm);
    } else {
      b0 := x;
      var f := s.bloktab[x].fcblknm;
      assert At(s, e, f, l, c.fcblknm);
      MergedColumn(s, e, f, l, c.fcblknm);
      ColumnIs(s, e, f, l, c.fcblknm);
    }
  }

  lemma MergedFromBlok(s: Symbol, e: Extra, i: int, q: int, b: int)
    requires ValidExtra(s, e) && 0 <= i < s.CblkNbr()
    ensures FromBlok(s, Merged(s, e), Starts(e), i, q, b)
  {
    var r := Merged(s, e);
    MergedPieces(s, e, i);
    SpansOf(s, e, r, i);
    if Starts(e)[i] <= q < Starts(e)[i + 1] && r.First(q) <= b < r.Last(q) {
      assert At(s, e, i, q - Starts(e)[i], q);
      var b0 := BlokComesFrom(s, e, i, q - Starts(e)[i], q, b);
    }
  }

  lemma MergedIsSplit(s: Symbol, e: Extra, pm: Params)
    requires ValidExtra(s, e) && s.CblkNbr() > 0 && ParamsOk(pm)
    requires forall i :: 0 <= i < s.CblkNbr() ==> ExtraOk(s, e, i) && WellCut(s, e, i, pm)
    ensures SplitOf(s, Merged(s, e), Starts(e), pm)
  {
    var r := Merged(s, e);
    MergedIsValid(s, e);
    forall i | 0 <= i < s.CblkNbr() ensures CutAsAsked(s, r, Starts(e), pm, i) {
      assert ExtraOk(s, e, i) && WellCut(s, e, i, pm);
      MergedPieces(s, e, i);
      CutIsAsked(s, e, r, i, pm);
    }
    forall i, q, b | 0 <= i < s.CblkNbr() ensures FromBlok(s, r, Starts(e), i, q, b) {
      MergedFromBlok(s, e, i, q, b);
    }
  }

  // ----- Nothing to cut -----

  /** Without any extra column block each one stays whole. */
  lemma {:induction false} AllWhole(s: Symbol, e: Extra, i: int, n: int)
    requires ValidExtra(s, e) && 0 <= i <= n <= s.CblkNbr() && NewNum(e, n) == n
    ensures NewNum(e, i) == i && (i < n ==> e.sptcbnb[i] == 1)
    decreases n
  {
    if i < n {
      assert ExtraOk(s, e, n - 1);
      NewNumGrows(s, e, n - 1);
      AllWhole(s, e, i, n - 1);
    }
  }

  lemma WholePieces(s: Symbol, e: Extra, i: int)
    requires ValidExtra(s, e) && 0 <= i < s.CblkNbr() && NewNum(e, s.CblkNbr()) == s.CblkNbr()
    ensures PiecesIn(s, e, s, i)
  {
    assert ExtraOk(s, e, i);
    AllWhole(s, e, i, s.CblkNbr());
  }

  lemma WholeFromBlok(s: Symbol, e: Extra, i: int, q: int, b: int)
    requires ValidExtra(s, e) && 0 <= i < s.CblkNbr() && NewNum(e, s.CblkNbr()) == s.CblkNbr()
    ensures FromBlok(s, s, Starts(e), i, q, b)
  {
    WholePieces(s, e, i);
    SpansOf(s, e, s, i);
    AllWhole(s, e, i, s.CblkNbr());
    if q == i && s.First(q) <= b < s.Last(q) {
      assert ValidColumn(s, i);
      assert ValidBlok(s, i, b);
      assert RowsOf(s, s, b, s.bloktab[b]);
    }
  }

  lemma WholeIsSplit(s: Symbol, e: Extra, pm: Params)
    requires ValidExtra(s, e) && ParamsOk(pm) && NewNum(e, s.CblkNbr()) == s.CblkNbr()
    requires forall i :: 0 <= i < s.CblkNbr() ==> ExtraOk(s, e, i) && WellCut(s, e, i, pm)
    ensures SplitOf(s, s, Starts(e), pm)
  {
    forall i | 0 <= i < s.CblkNbr() ensures CutAsAsked(s, s, Starts(e), pm, i) {
      assert ExtraOk(s, e, i) && WellCut(s, e, i, pm);
      WholePieces(s, e, i);
      CutIsAsked(s, e, s, i, pm);
    }
    forall i, q, b | 0 <= i < s.CblkNbr() ensures FromBlok(s, s, Starts(e), i, q, b) {
      WholeFromBlok(s, e, i, q, b);
    }
  }
}

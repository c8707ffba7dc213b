/** The symbolic block structure of symbol/symbol.h and the search of the block that
    receives an update (pastixSymbolGetFacingBloknum in symbol/symbol.c). */
module SymbolMatrix {

  datatype Cblk = Cblk(fcolnum: int, lcolnum: int, bloknum: int)
  datatype Blok = Blok(frownum: int, lrownum: int, lcblknm: int, fcblknm: int)

  /** cblktab holds one extra column block that closes the last one. */
  datatype Symbol = Symbol(cblktab: seq<Cblk>, bloktab: seq<Blok>) {
    function CblkNbr(): (n: int) { |cblktab| - 1 }

    /** First (diagonal) block of column block i, and the end of its blocks. */
    function First(i: int): int requires 0 <= i < |cblktab| { cblktab[i].bloknum }
    function Last(i: int): int requires 0 <= i < |cblktab| - 1 { cblktab[i + 1].bloknum }
  }

  /** What pastixSymbolCheck verifies of the column block array. */
  ghost predicate ValidCblks(s: Symbol) {
    && |s.cblktab| >= 1
    && s.cblktab[0].bloknum == 0
    && s.cblktab[s.CblkNbr()].bloknum == |s.bloktab|
    && (forall i :: 0 <= i < s.CblkNbr() ==> CblkOk(s, i))
  }

  /** Column blocks are not empty and follow one another. */
  predicate CblkOk(s: Symbol, i: int)
    requires 0 <= i < s.CblkNbr()
  {
    && s.cblktab[i].fcolnum <= s.cblktab[i].lcolnum
    && s.cblktab[i + 1].fcolnum == s.cblktab[i].lcolnum + 1
    && s.First(i) < s.Last(i)
  }

  /** The blocks of column block i: the diagonal one, then disjoint blocks in row order,
      each inside the columns of the column block it faces. */
  ghost predicate ValidBlok(s: Symbol, i: int, b: int)
    requires ValidCblks(s) && 0 <= i < s.CblkNbr() && 0 <= b < |s.bloktab|
  {
    var blok := s.bloktab[b];
    && blok.lcblknm == i
    && 0 <= blok.fcblknm < s.CblkNbr()
    && s.cblktab[blok.fcblknm].fcolnum <= blok.frownum <= blok.lrownum <= s.cblktab[blok.fcblknm].lcolnum
  }

  ghost predicate ValidColumn(s: Symbol, i: int)
    requires ValidCblks(s) && 0 <= i < s.CblkNbr()
  {
    && CblkOk(s, i) && 0 <= s.First(i) <= s.Last(i) <= |s.bloktab|
    && s.bloktab[s.First(i)].fcblknm == i
    && s.bloktab[s.First(i)].frownum == s.cblktab[i].fcolnum
    && s.bloktab[s.First(i)].lrownum == s.cblktab[i].lcolnum
    && (forall b :: s.First(i) <= b < s.Last(i) ==> ValidBlok(s, i, b))
    && (forall b, c :: s.First(i) <= b < c < s.Last(i) ==> s.bloktab[b].lrownum < s.bloktab[c].frownum)
  }

  ghost predicate Valid(s: Symbol) {
    && ValidCblks(s)
    && forall i :: 0 <= i < s.CblkNbr() ==> ValidColumn(s, i)
  }

  /** Column blocks are numbered along the columns. */
  lemma {:induction false} ColumnsIncrease(s: Symbol, i: int, c: int)
    requires ValidCblks(s) && 0 <= i < c < s.CblkNbr()
    ensures s.cblktab[i].lcolnum < s.cblktab[c].fcolnum
    ensures s.Last(i) <= s.First(c)
    decreases c
  {
    assert CblkOk(s, c - 1);
    if i < c - 1 {
      ColumnsIncrease(s, i, c - 1);
    }
  }

  /** Every off-diagonal block faces a later column block. */
  lemma FacesLater(s: Symbol, i: int, b: int)
    requires Valid(s) && 0 <= i < s.CblkNbr() && s.First(i) < b < s.Last(i)
    ensures 0 <= b < |s.bloktab| && i < s.bloktab[b].fcblknm < s.CblkNbr()
  {
    assert ValidColumn(s, i);
    assert ValidBlok(s, i, b);
    var c := s.bloktab[b].fcblknm;
    if c < i {
      ColumnsIncrease(s, c, i);
    }
    assert s.bloktab[s.First(i)].lrownum < s.bloktab[b].frownum;
  }

  /** Column block that owns block b. */
  lemma {:induction false} OwnerOf(s: Symbol, b: int, n: int) returns (i: int)
    requires Valid(s) && 0 <= n <= s.CblkNbr() && 0 <= b < s.cblktab[n].bloknum
    ensures 0 <= i < n && s.First(i) <= b < s.Last(i) && 0 <= b < |s.bloktab| && ValidBlok(s, i, b)
    decreases n
  {
    assert ValidColumn(s, n - 1);
    if b < s.First(n - 1) { i := OwnerOf(s, b, n - 1); } else { i := n - 1; }
  }

  // ----- Facing block -----

  predicate Overlaps(b: Blok, k: Blok) {
    b.frownum <= k.lrownum && k.frownum <= b.lrownum
  }

  predicate Covers(b: Blok, k: Blok) {
    b.frownum <= k.frownum && k.lrownum <= b.lrownum
  }

  /** First block of [i, last) that shares a row with block k, or -1. */
  function FirstOverlap(s: Symbol, k: int, i: int, last: int): (b: int)
    requires 0 <= k < |s.bloktab| && 0 <= i <= last <= |s.bloktab|
    ensures b == -1 || i <= b < last
    ensures b != -1 ==> Overlaps(s.bloktab[b], s.bloktab[k])
    ensures forall x :: i <= x < last && (b == -1 || x < b) ==> !Overlaps(s.bloktab[x], s.bloktab[k])
    decreases last - i
  {
    if i == last then -1
    else if Overlaps(s.bloktab[i], s.bloktab[k]) then i
    else FirstOverlap(s, k, i + 1, last)
  }

  /** The block that receives the update of blocks j and k of one column block. */
  function Facing(s: Symbol, j: int, k: int): (b: int)
    requires 0 <= j < |s.bloktab| && 0 <= k < |s.bloktab| && Valid(s)
    requires 0 <= s.bloktab[j].fcblknm < s.CblkNbr()
  {
    assert ValidColumn(s, s.bloktab[j].fcblknm);
    FirstOverlap(s, k, s.First(s.bloktab[j].fcblknm), s.Last(s.bloktab[j].fcblknm))
  }

  /** Complete factorization: every update finds a block that contains its rows. */
  ghost predicate Closed(s: Symbol) {
    Valid(s) &&
    forall i, j, k :: 0 <= i < s.CblkNbr() && s.First(i) < j <= k < s.Last(i) ==>
      ClosedPair(s, i, j, k)
  }

  ghost predicate ClosedPair(s: Symbol, i: int, j: int, k: int)
    requires Valid(s) && 0 <= i < s.CblkNbr() && s.First(i) < j <= k < s.Last(i)
  {
    FacesLater(s, i, j);
    var c := s.bloktab[j].fcblknm;
    assert ValidColumn(s, c) && ValidColumn(s, i);
    exists b :: s.First(c) <= b < s.Last(c) && Covers(s.bloktab[b], s.bloktab[k])
  }

  /** A block that covers another one faces the same column block. */
  lemma CoverFaces(s: Symbol, i: int, j: int, p: int, b: int)
    requires Valid(s) && 0 <= i < s.CblkNbr() && 0 <= p < s.CblkNbr() && s.First(i) <= j < s.Last(i)
             && s.First(p) <= b < s.Last(p)
    requires 0 <= j < |s.bloktab| && 0 <= b < |s.bloktab| && Covers(s.bloktab[b], s.bloktab[j])
    ensures s.bloktab[b].fcblknm == s.bloktab[j].fcblknm
  {
    assert ValidColumn(s, i) && ValidColumn(s, p);
    assert ValidBlok(s, i, j) && ValidBlok(s, p, b);
    var f, g := s.bloktab[b].fcblknm, s.bloktab[j].fcblknm;
    if f < g { ColumnsIncrease(s, f, g); } else if g < f { ColumnsIncrease(s, g, f); }
  }

  /** Off-diagonal blocks j <= k of one column block i: they produce an update. */
  ghost predicate UpdatePair(s: Symbol, i: int, j: int, k: int) {
    && Valid(s) && 0 <= i < s.CblkNbr()
    && s.First(i) < j <= k < s.Last(i)
  }

  /** The blocks of the facing column block below the search hint end above block k. */
  ghost predicate HintOk(s: Symbol, j: int, k: int, start: int) {
    && Valid(s) && 0 <= j < |s.bloktab| && 0 <= k < |s.bloktab|
    && 0 <= s.bloktab[j].fcblknm < s.CblkNbr()
    && ValidColumn(s, s.bloktab[j].fcblknm)
    && var c := s.bloktab[j].fcblknm;
       && start < s.Last(c)
       && (forall x :: s.First(c) <= x < start ==> s.bloktab[x].lrownum < s.bloktab[k].frownum)
  }

  lemma PairInRange(s: Symbol, i: int, j: int, k: int)
    requires UpdatePair(s, i, j, k)
    ensures 0 <= j <= k < |s.bloktab|
    ensures i < s.bloktab[j].fcblknm < s.CblkNbr()
    ensures ValidColumn(s, i) && ValidColumn(s, s.bloktab[j].fcblknm)
    ensures ValidBlok(s, i, j) && ValidBlok(s, i, k)
    ensures j < k ==> s.bloktab[j].lrownum < s.bloktab[k].frownum
  {
    assert ValidColumn(s, i);
    FacesLater(s, i, j);
  }

  /** The search result is a good hint for the next block of the same column block. */
  lemma HintStays(s: Symbol, i: int, j: int, k: int, start: int)
    requires UpdatePair(s, i, j, k) && UpdatePair(s, i, j, k + 1)
    requires HintOk(s, j, k, start)
    ensures HintOk(s, j, k + 1, if Facing(s, j, k) == -1 then start else Facing(s, j, k))
  {
    PairInRange(s, i, j, k);
    PairInRange(s, i, j, k + 1);
    assert s.bloktab[k].lrownum < s.bloktab[k + 1].frownum;
    var c, b := s.bloktab[j].fcblknm, Facing(s, j, k);
    if b != -1 {
      forall x | s.First(c) <= x < b ensures s.bloktab[x].lrownum < s.bloktab[k].frownum {
        assert s.bloktab[x].lrownum < s.bloktab[b].frownum;
        assert ValidBlok(s, c, x);
      }
    }
  }

  /** A block always updates the diagonal block of the column block it faces. */
  lemma FacingDiagonal(s: Symbol, i: int, j: int)
    requires UpdatePair(s, i, j, j)
    ensures 0 <= j < |s.bloktab| && 0 <= s.bloktab[j].fcblknm < s.CblkNbr()
    ensures Facing(s, j, j) == s.First(s.bloktab[j].fcblknm)
  {
    PairInRange(s, i, j, j);
  }

  /** In a closed structure the facing block exists and contains the rows of the update. */
  lemma FacingCovers(s: Symbol, i: int, j: int, k: int)
    requires Closed(s) && UpdatePair(s, i, j, k)
    ensures 0 <= j <= k < |s.bloktab| && 0 <= s.bloktab[j].fcblknm < s.CblkNbr()
    ensures 0 <= Facing(s, j, k) < |s.bloktab| && Covers(s.bloktab[Facing(s, j, k)], s.bloktab[k])
  {
    PairInRange(s, i, j, k);
    assert ClosedPair(s, i, j, k);
    var c := s.bloktab[j].fcblknm;
    var b :| s.First(c) <= b < s.Last(c) && Covers(s.bloktab[b], s.bloktab[k]);
    assert Overlaps(s.bloktab[b], s.bloktab[k]);
  }

  /** The search of symbol.c: whatever correct hint it starts from, it answers the
      facing block. Without the ILU(k) flag the source asserts that a block exists. */
  method GetFacingBloknum(s: Symbol, ghost cblk: int, bloksrc: int, bloknum: int, startsearch: int, ricar: bool)
    returns (i: int)
    requires UpdatePair(s, cblk, bloksrc, bloknum) && HintOk(s, bloksrc, bloknum, startsearch)
    requires !ricar ==> Closed(s)
    ensures i == Facing(s, bloksrc, bloknum)
  {
    PairInRange(s, cblk, bloksrc, bloknum);
    var fcblknum := s.bloktab[bloksrc].fcblknm;
    var fbloknum := s.cblktab[fcblknum].bloknum;
    var lbloknum := s.cblktab[fcblknum + 1].bloknum;
    var start := if startsearch < fbloknum then fbloknum else startsearch;
    var bsrc := s.bloktab[bloknum];
    i := start;
    if !ricar {
      FacingCovers(s, cblk, bloksrc, bloknum);
      while i < lbloknum && s.bloktab[i].lrownum < bsrc.frownum
        invariant start <= i <= lbloknum
        invariant i <= Facing(s, bloksrc, bloknum)
      {
        i := i + 1;
      }
    } else {
      while i < lbloknum
        invariant start <= i <= lbloknum
        invariant forall x :: fbloknum <= x < i ==> s.bloktab[x].lrownum < bsrc.frownum
      {
        var bdst := s.bloktab[i];
        assert ValidBlok(s, fcblknum, i);
        if (bsrc.frownum >= bdst.frownum && bsrc.frownum <= bdst.lrownum)
           || (bsrc.lrownum >= bdst.frownum && bsrc.lrownum <= bdst.lrownum)
           || (bsrc.frownum <= bdst.frownum && bsrc.lrownum >= bdst.lrownum) {
          assert Overlaps(bdst, bsrc);
          return;
        }
        if bsrc.lrownum < bdst.frownum {
          return -1;
        }
        i := i + 1;
      }
      i := -1;
    }
  }
}

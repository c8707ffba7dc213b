/** pastixSymbolBuildRowtab of symbol/symbol.c: the row table of a structure, counted and then
    filled through the starts of its slices as cursors. */
module BuildRowtab {
  import opened SymbolMatrix
  import opened SolverGen

  /** Block b is off the diagonal and faces c. */
  predicate OffFacing(s: Symbol, c: int, b: int)
    requires 0 <= b < |s.bloktab|
  {
    && 0 <= s.bloktab[b].lcblknm < s.CblkNbr() && b != s.First(s.bloktab[b].lcblknm) && s.bloktab[b].fcblknm == c
  }

  /** Off-diagonal blocks before j that face c. */
  function CountIn(s: Symbol, c: int, j: int): (n: int)
    requires 0 <= j <= |s.bloktab|
    ensures 0 <= n <= j
    decreases j
  {
    if j == 0 then 0 else CountIn(s, c, j - 1) + if OffFacing(s, c, j - 1) then 1 else 0
  }

  /** Off-diagonal blocks before j that face a column block before c. */
  function CountBefore(s: Symbol, c: int, j: int): (n: int)
    requires 0 <= j <= |s.bloktab| && 0 <= c
    ensures 0 <= n
    decreases c
  {
    if c == 0 then 0 else CountBefore(s, c - 1, j) + CountIn(s, c - 1, j)
  }

  /** Where the slice of c starts. */
  function Start(s: Symbol, c: int): int
    requires 0 <= c
  {
    CountBefore(s, c, |s.bloktab|)
  }

  lemma {:induction false} CountGrows(s: Symbol, c: int, j: int, k: int)
    requires 0 <= j <= k <= |s.bloktab|
    ensures CountIn(s, c, j) <= CountIn(s, c, k)
    ensures j < k && OffFacing(s, c, j) ==> CountIn(s, c, j) < CountIn(s, c, k)
    decreases k
  {
    if j < k { CountGrows(s, c, j, k - 1); }
  }

  lemma {:induction false} StartGrows(s: Symbol, c: int, d: int)
    requires 0 <= c <= d
    ensures Start(s, c) <= Start(s, d)
    decreases d
  {
    if c < d { StartGrows(s, c, d - 1); }
  }

  /** One more block is counted for one column block. */
  lemma {:induction false} CountBeforeNext(s: Symbol, c: int, j: int, next: int, f: int)
    requires 0 <= j < next == j + 1 <= |s.bloktab| && 0 <= c
    requires forall d :: OffFacing(s, d, j) <==> d == f
    ensures CountBefore(s, c, next) == CountBefore(s, c, j) + if 0 <= f < c then 1 else 0
    decreases c
  {
    if c > 0 { CountBeforeNext(s, c - 1, j, next, f); }
  }

  lemma {:induction false} CountBeforeSame(s: Symbol, c: int, j: int, next: int)
    requires 0 <= j < next == j + 1 <= |s.bloktab| && 0 <= c
    requires forall d :: !OffFacing(s, d, j)
    ensures CountBefore(s, c, next) == CountBefore(s, c, j)
    decreases c
  {
    if c > 0 { CountBeforeSame(s, c - 1, j, next); }
  }

  lemma {:induction false} CountBeforeNone(s: Symbol, c: int)
    requires 0 <= c
    ensures CountBefore(s, c, 0) == 0
    decreases c
  {
    if c > 0 { CountBeforeNone(s, c - 1); }
  }

  /** Off-diagonal blocks of column block i before j. */
  lemma {:induction false} EdgesInColumn(s: Symbol, i: int, j: int)
    requires Valid(s) && 0 <= i < s.CblkNbr() && ValidColumn(s, i) && s.First(i) < j <= s.Last(i)
    ensures CountBefore(s, s.CblkNbr(), j) == CountBefore(s, s.CblkNbr(), s.First(i)) + j - s.First(i) - 1
    decreases j - s.First(i)
  {
    assert ValidBlok(s, i, j - 1);
    if j == s.First(i) + 1 {
      CountBeforeSame(s, s.CblkNbr(), j - 1, j);
    } else {
      EdgesInColumn(s, i, j - 1);
      FacesLater(s, i, j - 1);
      CountBeforeNext(s, s.CblkNbr(), j - 1, j, s.bloktab[j - 1].fcblknm);
    }
  }

  /** All the off-diagonal blocks are counted: the last start is the number of edges. */
  lemma {:induction false} EdgesBefore(s: Symbol, i: int)
    requires Valid(s) && 0 <= i <= s.CblkNbr()
    ensures 0 <= s.First(i) <= |s.bloktab| && CountBefore(s, s.CblkNbr(), s.First(i)) == s.First(i) - i
    decreases i
  {
    if i == 0 {
      CountBeforeNone(s, s.CblkNbr());
    } else {
      assert ValidColumn(s, i - 1);
      EdgesBefore(s, i - 1);
      EdgesInColumn(s, i - 1, s.Last(i - 1));
    }
  }

  lemma EdgesInAll(s: Symbol)
    requires Valid(s)
    ensures Start(s, s.CblkNbr()) == |s.bloktab| - s.CblkNbr()
  {
    EdgesBefore(s, s.CblkNbr());
  }

  // ----- The table -----

  ghost predicate SlotOk(s: Symbol, tab: seq<int>, b: int)
    requires 0 <= b < |s.bloktab|
  {
    forall c :: 0 <= c && OffFacing(s, c, b) ==> SlotAt(s, tab, c, b)
  }
  predicate SlotAt(s: Symbol, tab: seq<int>, c: int, b: int)
    requires 0 <= b < |s.bloktab| && 0 <= c
  {
    0 <= Start(s, c) + CountIn(s, c, b) < |tab| && tab[Start(s, c) + CountIn(s, c, b)] == b
  }

  /** The blocks before j are in the table. */
  ghost predicate FilledTo(s: Symbol, tab: seq<int>, j: int) {
    0 <= j <= |s.bloktab| && forall b :: 0 <= b < j ==> SlotOk(s, tab, b)
  }

  /** The place of a block is in the slice of the column block it faces. */
  lemma SlotInSlice(s: Symbol, c: int, b: int)
    requires 0 <= c < s.CblkNbr() && 0 <= b < |s.bloktab| && OffFacing(s, c, b)
    ensures 0 <= Start(s, c) <= Start(s, c) + CountIn(s, c, b) < Start(s, c + 1) <= Start(s, s.CblkNbr())
  {
    CountGrows(s, c, b, |s.bloktab|);
    StartGrows(s, c + 1, s.CblkNbr());
  }

  lemma SlotsApart(s: Symbol, c: int, b: int, d: int, e: int)
    requires 0 <= c < s.CblkNbr() && 0 <= b < |s.bloktab| && OffFacing(s, c, b)
    requires 0 <= d < s.CblkNbr() && 0 <= e < |s.bloktab| && OffFacing(s, d, e) && b != e
    ensures Start(s, c) + CountIn(s, c, b) != Start(s, d) + CountIn(s, d, e)
  {
    SlotInSlice(s, c, b);
    SlotInSlice(s, d, e);
    if c < d {
      StartGrows(s, c + 1, d);
    } else if d < c {
      StartGrows(s, d + 1, c);
    } else if b < e {
      CountGrows(s, c, b, e);
    } else {
      CountGrows(s, c, e, b);
    }
  }

  lemma FilledNext(s: Symbol, before: seq<int>, after: seq<int>, j: int, next: int, f: int)
    requires Valid(s) && FilledTo(s, before, j) && j < next == j + 1 <= |s.bloktab| && 0 <= f < s.CblkNbr()
    requires forall b, c :: 0 <= b <= j && OffFacing(s, c, b) ==> 0 <= c < s.CblkNbr()
    requires OffFacing(s, f, j) && 0 <= Start(s, f) + CountIn(s, f, j) < |before|
    requires after == before[Start(s, f) + CountIn(s, f, j) := j]
    ensures FilledTo(s, after, next)
  {
    forall b | 0 <= b < next ensures SlotOk(s, after, b) {
      forall c | 0 <= c && OffFacing(s, c, b) ensures SlotAt(s, after, c, b) {
        if b < j {
          assert SlotOk(s, before, b) && SlotAt(s, before, c, b);
          SlotsApart(s, c, b, f, j);
        }
      }
    }
  }

  lemma {:induction false} SlotFrom(s: Symbol, c: int, n: int, j: int) returns (b: int)
    requires 0 <= j <= |s.bloktab| && 0 <= n < CountIn(s, c, j)
    ensures 0 <= b < j && OffFacing(s, c, b) && CountIn(s, c, b) == n
    decreases j
  {
    if n < CountIn(s, c, j - 1) { b := SlotFrom(s, c, n, j - 1); } else { b := j - 1; }
  }

  ghost predicate StartsAre(s: Symbol, brownums: seq<int>) {
    |brownums| == s.CblkNbr() + 1 && forall c :: 0 <= c < |brownums| ==> brownums[c] == Start(s, c)
  }

  lemma OffIsFacing(s: Symbol, c: int, b: int)
    requires Valid(s) && 0 <= b < |s.bloktab|
    ensures OffFacing(s, c, b) <==> FacesRow(s, b, c)
  {
    var i := OwnerOf(s, b, s.CblkNbr());
    assert ValidColumn(s, i) && ValidBlok(s, i, b);
    if b != s.First(i) { FacesLater(s, i, b); }
  }

  /** A filled table is a row table. */
  lemma FilledIsRowTable(g: Input, tab: seq<int>)
    requires InputOk(g) && StartsAre(g.symb, g.brownums) && |tab| == Start(g.symb, g.N())
    requires FilledTo(g.symb, tab, |g.symb.bloktab|)
    ensures RowTableOk(g, tab)
  {
    forall i | 0 <= i < g.N() ensures SliceOk(g, tab, i) { FilledSlice(g, tab, i, i + 1); }
    forall b, i | 0 <= i < g.N() && FacesRow(g.symb, b, i) ensures Listed(g, tab, b, i) {
      OffIsFacing(g.symb, i, b);
      SlotInSlice(g.symb, i, b);
      assert SlotOk(g.symb, tab, b) && SlotAt(g.symb, tab, i, b);
      assert InSlice(g.brownums, i, Start(g.symb, i) + CountIn(g.symb, i, b));
    }
  }

  lemma FilledSlice(g: Input, tab: seq<int>, i: int, next: int)
    requires InputOk(g) && StartsAre(g.symb, g.brownums) && |tab| == Start(g.symb, g.N())
    requires FilledTo(g.symb, tab, |g.symb.bloktab|) && 0 <= i < next == i + 1 <= g.N()
    ensures SliceOk(g, tab, i)
  {
    StartGrows(g.symb, 0, i);
    StartGrows(g.symb, i, next);
    StartGrows(g.symb, next, g.N());
    forall x | InSlice(g.brownums, i, x) ensures FacesRow(g.symb, tab[x], i) { var b := EntryFrom(g, tab, i, x); }
    forall x, y | InSlice(g.brownums, i, x) && InSlice(g.brownums, i, y) && x != y ensures Apart(tab, x, y) {
      var b := EntryFrom(g, tab, i, x);
      var c := EntryFrom(g, tab, i, y);
    }
  }

  /** Each slice of a filled table is in increasing order. */
  lemma FilledAscends(g: Input, tab: seq<int>, i: int)
    requires InputOk(g) && StartsAre(g.symb, g.brownums) && |tab| == Start(g.symb, g.N())
    requires FilledTo(g.symb, tab, |g.symb.bloktab|) && 0 <= i < g.N()
    ensures SliceAscends(g, tab, i)
  {
    forall x, y | InSlice(g.brownums, i, x) && InSlice(g.brownums, i, y) && x < y ensures LessAt(tab, x, y) {
      var b := EntryFrom(g, tab, i, x);
      var c := EntryFrom(g, tab, i, y);
      if c <= b { CountGrows(g.symb, i, c, b); }
    }
  }

  lemma EntryFrom(g: Input, tab: seq<int>, i: int, x: int) returns (b: int)
    requires InputOk(g) && StartsAre(g.symb, g.brownums) && |tab| == Start(g.symb, g.N())
    requires FilledTo(g.symb, tab, |g.symb.bloktab|) && 0 <= i < g.N() && InSlice(g.brownums, i, x)
    ensures 0 <= x < |tab| && tab[x] == b && FacesRow(g.symb, b, i) && x == Start(g.symb, i) + CountIn(g.symb, i, b)
  {
    b := SlotFrom(g.symb, i, x - Start(g.symb, i), |g.symb.bloktab|);
    assert SlotOk(g.symb, tab, b) && SlotAt(g.symb, tab, i, b);
    OffIsFacing(g.symb, i, b);
  }

  // ----- The loops -----

  /** innbr counts the blocks before j. */
  ghost predicate CountsAre(s: Symbol, innbr: seq<int>, j: int) {
    0 <= j <= |s.bloktab| && |innbr| == s.CblkNbr() && forall c :: 0 <= c < |innbr| ==> innbr[c] == CountIn(s, c, j)
  }

  /** innbr is where the next block of each slice goes. */
  ghost predicate CursorsAre(s: Symbol, innbr: seq<int>, j: int) {
    && 0 <= j <= |s.bloktab| && |innbr| == s.CblkNbr()
    && forall c :: 0 <= c < |innbr| ==> innbr[c] == Start(s, c) + CountIn(s, c, j)
  }

  lemma DiagonalCounts(s: Symbol, i: int, j: int)
    requires Valid(s) && 0 <= i < s.CblkNbr() && j == s.First(i)
    ensures ValidColumn(s, i) && j < |s.bloktab| && forall c :: !OffFacing(s, c, j)
  {
    assert ValidColumn(s, i);
    assert ValidBlok(s, i, j);
  }

  lemma OffCounts(s: Symbol, i: int, j: int)
    requires Valid(s) && 0 <= i < s.CblkNbr() && s.First(i) < j < s.Last(i)
    ensures 0 <= j < |s.bloktab| && 0 <= s.bloktab[j].fcblknm < s.CblkNbr()
    ensures forall c :: OffFacing(s, c, j) <==> c == s.bloktab[j].fcblknm
  {
    assert ValidColumn(s, i);
    assert ValidBlok(s, i, j);
  }

  /** First loop, one column block. */
  method CountColumn(s: Symbol, innbr0: seq<int>, i: int) returns (innbr: seq<int>)
    requires Valid(s) && 0 <= i < s.CblkNbr() && CountsAre(s, innbr0, s.First(i))
    ensures CountsAre(s, innbr, s.Last(i))
  {
    DiagonalCounts(s, i, s.First(i));
    innbr := innbr0;
    var iterblok := s.cblktab[i].bloknum + 1;
    while iterblok < s.cblktab[i + 1].bloknum
      invariant s.First(i) < iterblok <= s.Last(i) && CountsAre(s, innbr, iterblok)
    {
      OffCounts(s, i, iterblok);
      var f := s.bloktab[iterblok].fcblknm;
      innbr := innbr[f := innbr[f] + 1];
      iterblok := iterblok + 1;
    }
  }

  method CountAll(s: Symbol) returns (innbr: seq<int>)
    requires Valid(s)
    ensures CountsAre(s, innbr, |s.bloktab|)
  {
    innbr := seq(s.CblkNbr(), _ => 0);
    var itercblk := 0;
    while itercblk < s.CblkNbr()
      invariant 0 <= itercblk <= s.CblkNbr() && CountsAre(s, innbr, s.First(itercblk))
    {
      assert CblkOk(s, itercblk);
      innbr := CountColumn(s, innbr, itercblk);
      itercblk := itercblk + 1;
    }
  }

  /** The starts of the slices, which are also the first cursors. */
  method Starts(s: Symbol, counts: seq<int>) returns (brownums: seq<int>, innbr: seq<int>)
    requires Valid(s) && CountsAre(s, counts, |s.bloktab|)
    ensures StartsAre(s, brownums) && CursorsAre(s, innbr, 0) && brownums[s.CblkNbr()] == |s.bloktab| - s.CblkNbr()
  {
    brownums, innbr := [0], [];
    var itercblk := 0;
    while itercblk < s.CblkNbr()
      invariant 0 <= itercblk <= s.CblkNbr() && |brownums| == itercblk + 1 && |innbr| == itercblk
      invariant forall c :: 0 <= c <= itercblk ==> brownums[c] == Start(s, c)
      invariant forall c :: 0 <= c < itercblk ==> innbr[c] == Start(s, c)
    {
      innbr := innbr + [brownums[itercblk]];
      brownums := brownums + [brownums[itercblk] + counts[itercblk]];
      itercblk := itercblk + 1;
    }
    EdgesInAll(s);
  }

  /** Second loop, one block. */
  method PutBlok(s: Symbol, browtab: array<int>, innbr: array<int>, i: int, j: int)
    requires Valid(s) && browtab != innbr && 0 <= i < s.CblkNbr() && s.First(i) < j < s.Last(i) && 0 <= j
    requires browtab.Length == Start(s, s.CblkNbr()) && CursorsAre(s, innbr[..], j) && FilledTo(s, browtab[..], j)
    modifies browtab, innbr
    ensures CursorsAre(s, innbr[..], j + 1) && FilledTo(s, browtab[..], j + 1)
  {
    OffCounts(s, i, j);
    var f := s.bloktab[j].fcblknm;
    SlotInSlice(s, f, j);
    forall b, c | 0 <= b <= j && OffFacing(s, c, b) ensures 0 <= c < s.CblkNbr() { FacedInRange(s, b); }
    FilledNext(s, browtab[..], browtab[..][innbr[f] := j], j, j + 1, f);
    browtab[innbr[f]] := j;
    innbr[f] := innbr[f] + 1;
  }

  lemma FacedInRange(s: Symbol, b: int)
    requires Valid(s) && 0 <= b < |s.bloktab|
    ensures 0 <= s.bloktab[b].fcblknm < s.CblkNbr()
  {
    var i := OwnerOf(s, b, s.CblkNbr());
    assert ValidColumn(s, i) && ValidBlok(s, i, b);
  }

  /** The diagonal block is skipped. */
  lemma SkipDiagonal(s: Symbol, tab: seq<int>, innbr: seq<int>, i: int, j: int, next: int)
    requires Valid(s) && 0 <= i < s.CblkNbr() && j == s.First(i) && next == j + 1
    requires CursorsAre(s, innbr, j) && FilledTo(s, tab, j)
    ensures CursorsAre(s, innbr, next) && FilledTo(s, tab, next)
  {
    DiagonalCounts(s, i, j);
    assert SlotOk(s, tab, j);
  }

  method FillColumn(s: Symbol, browtab: array<int>, innbr: array<int>, i: int)
    requires Valid(s) && browtab != innbr && 0 <= i < s.CblkNbr() && browtab.Length == Start(s, s.CblkNbr())
    requires CursorsAre(s, innbr[..], s.First(i)) && FilledTo(s, browtab[..], s.First(i))
    modifies browtab, innbr
    ensures CursorsAre(s, innbr[..], s.Last(i)) && FilledTo(s, browtab[..], s.Last(i))
  {
    assert CblkOk(s, i);
    SkipDiagonal(s, browtab[..], innbr[..], i, s.First(i), s.First(i) + 1);
    var iterblok := s.cblktab[i].bloknum + 1;
    while iterblok < s.cblktab[i + 1].bloknum
      invariant s.First(i) < iterblok <= s.Last(i)
      invariant CursorsAre(s, innbr[..], iterblok) && FilledTo(s, browtab[..], iterblok)
    {
      PutBlok(s, browtab, innbr, i, iterblok);
      iterblok := iterblok + 1;
    }
  }

  /** The whole function: the starts of the slices and the table. */
  method Build(s: Symbol, ghost two: seq<bool>, ghost layout: seq<bool>)
    returns (brownums: seq<int>, browtab: array<int>)
    requires Valid(s) && s.cblktab[0].fcolnum == 0 && |two| == |layout| == s.CblkNbr()
    ensures fresh(browtab) && RowTableOk(Input(s, two, layout, brownums), browtab[..])
    ensures forall i :: 0 <= i < s.CblkNbr() ==> SliceAscends(Input(s, two, layout, brownums), browtab[..], i)
  {
    var counts := CountAll(s);
    var cursors;
    brownums, cursors := Starts(s, counts);
    StartGrows(s, 0, s.CblkNbr());
    browtab := new int[brownums[s.CblkNbr()]];
    var innbr := new int[s.CblkNbr()](c requires 0 <= c < |cursors| => cursors[c]);
    assert innbr[..] == cursors;
    var itercblk := 0;
    while itercblk < s.CblkNbr()
      invariant 0 <= itercblk <= s.CblkNbr() && fresh(browtab) && fresh(innbr)
      invariant CursorsAre(s, innbr[..], s.First(itercblk)) && FilledTo(s, browtab[..], s.First(itercblk))
    {
      FillColumn(s, browtab, innbr, itercblk);
      itercblk := itercblk + 1;
    }
    FilledIsRowTable(Input(s, two, layout, brownums), browtab[..]);
    forall i | 0 <= i < s.CblkNbr() ensures SliceAscends(Input(s, two, layout, brownums), browtab[..], i) {
      FilledAscends(Input(s, two, layout, brownums), browtab[..], i);
    }
  }
}

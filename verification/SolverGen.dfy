/** The column blocks and blocks of the solver (blend/solver_matrix_gen.c), with one cluster: where
    their coefficients are stored, the row table with its 2D part, and the limits between 1D and
    2D tasks. */
module SolverGen {
  import opened SymbolMatrix
  import opened RowTable
  import opened CoefTable

  datatype SolverBlok = SolverBlok(fcblknm: int, lcblknm: int, frownum: int, lrownum: int, coefind: int, browind: int)
  datatype SolverCblk = SolverCblk(tasks2d: bool, fcolnum: int, lcolnum: int, fblok: int, stride: int, lcolidx: int,
                                   brownum: int, brown2d: int)

  /** What the generation reads: the structure, the types of its column blocks, and where the
      slices of its row table start. */
  datatype Input = Input(symb: Symbol, two: seq<bool>, layout: seq<bool>, brownums: seq<int>) {
    function N(): int { |symb.cblktab| - 1 }
  }

  // ----- Row tables -----

  /** Block b is off the diagonal and faces column block i. */
  ghost predicate FacesRow(s: Symbol, b: int, i: int) {
    && 0 <= b < |s.bloktab| && s.bloktab[b].fcblknm == i && 0 <= s.bloktab[b].lcblknm < i
    && s.bloktab[b].lcblknm < s.CblkNbr() && s.First(s.bloktab[b].lcblknm) < b < s.Last(s.bloktab[b].lcblknm)
  }

  predicate InSlice(brownums: seq<int>, i: int, x: int)
    requires 0 <= i < |brownums| - 1
  {
    brownums[i] <= x < brownums[i + 1]
  }

  /** The slice of column block i holds blocks that face it, each one once. */
  ghost predicate SliceOk(g: Input, tab: seq<int>, i: int)
    requires 0 <= i < |g.brownums| - 1
  {
    && 0 <= g.brownums[i] <= g.brownums[i + 1] <= |tab|
    && (forall x :: InSlice(g.brownums, i, x) ==> FacesRow(g.symb, tab[x], i))
    && (forall x, y :: InSlice(g.brownums, i, x) && InSlice(g.brownums, i, y) && x != y ==> Apart(tab, x, y))
  }
  predicate Apart(tab: seq<int>, x: int, y: int) { 0 <= x < |tab| && 0 <= y < |tab| && tab[x] != tab[y] }

  ghost predicate Listed(g: Input, tab: seq<int>, b: int, i: int)
    requires 0 <= i < |g.brownums| - 1
  {
    exists x :: InSlice(g.brownums, i, x) && 0 <= x < |tab| && tab[x] == b
  }

  ghost predicate InputOk(g: Input) {
    && Valid(g.symb) && |g.two| == |g.layout| == g.N() && |g.brownums| == g.N() + 1 && g.brownums[0] == 0
    && g.symb.cblktab[0].fcolnum == 0
  }

  /** Every off-diagonal block is in the slice of the column block that it faces. */
  ghost predicate RowTableOk(g: Input, tab: seq<int>) {
    && InputOk(g) && g.brownums[g.N()] == |tab| && (forall i :: 0 <= i < g.N() ==> SliceOk(g, tab, i))
    && (forall b, i :: 0 <= i < g.N() && FacesRow(g.symb, b, i) ==> Listed(g, tab, b, i))
  }

  /** The slice of column block i is in increasing order. */
  ghost predicate SliceAscends(g: Input, tab: seq<int>, i: int)
    requires 0 <= i < |g.brownums| - 1
  {
    forall x, y :: InSlice(g.brownums, i, x) && InSlice(g.brownums, i, y) && x < y ==> LessAt(tab, x, y)
  }
  predicate LessAt(tab: seq<int>, x: int, y: int) { 0 <= x < |tab| && 0 <= y < |tab| && tab[x] < tab[y] }

  lemma {:induction false} SlicesFollow(g: Input, tab: seq<int>, i: int, k: int)
    requires RowTableOk(g, tab) && 0 <= i <= k <= g.N()
    ensures 0 <= g.brownums[i] <= g.brownums[k] <= |tab|
    decreases k
  {
    if i < k {
      assert SliceOk(g, tab, k - 1);
      SlicesFollow(g, tab, i, k - 1);
    } else if i < g.N() {
      assert SliceOk(g, tab, i);
    }
  }

  ghost function Slice(g: Input, tab: seq<int>, i: int): (v: seq<int>)
    requires RowTableOk(g, tab) && 0 <= i < g.N()
    ensures |v| == g.brownums[i + 1] - g.brownums[i] && AllKnown(g.symb, g.two[..i], v)
  {
    assert SliceOk(g, tab, i);
    var v := tab[g.brownums[i]..g.brownums[i + 1]];
    assert forall k :: 0 <= k < |v| ==> Known(g.symb, g.two[..i], v[k]) by {
      forall k | 0 <= k < |v| ensures Known(g.symb, g.two[..i], v[k]) {
        assert InSlice(g.brownums, i, g.brownums[i] + k) && FacesRow(g.symb, tab[g.brownums[i] + k], i);
      }
    }
    v
  }

  /** The slice of the solver: reordered when the column block has 2D tasks. */
  ghost function NewSlice(g: Input, tab: seq<int>, i: int): (v: seq<int>)
    requires RowTableOk(g, tab) && 0 <= i < g.N()
    ensures |v| == g.brownums[i + 1] - g.brownums[i]
  {
    KeptSizes(g.symb, g.two[..i], Slice(g, tab, i));
    Row(g.symb, g.two[..i], g.two[i], Slice(g, tab, i))
  }

  // ----- What is generated -----

  ghost function NewBlok(g: Input, b: int): SolverBlok
    requires InputOk(g) && 0 <= b < |g.symb.bloktab| && 0 <= g.symb.bloktab[b].lcblknm < g.N()
  {
    var blok := g.symb.bloktab[b];
    assert ValidColumn(g.symb, blok.lcblknm);
    var coefind := if g.symb.First(blok.lcblknm) <= b then Coefind(g.symb, blok.lcblknm, b, g.layout[blok.lcblknm])
        else 0;
    SolverBlok(blok.fcblknm, blok.lcblknm, blok.frownum, blok.lrownum, coefind, -1)
  }

  ghost function NewCblk(g: Input, tab: seq<int>, i: int): SolverCblk
    requires RowTableOk(g, tab) && 0 <= i < g.N()
  {
    assert ValidColumn(g.symb, i);
    var c := g.symb.cblktab[i];
    var one := |Kept(g.symb, g.two[..i], Slice(g, tab, i), false)|;
    SolverCblk(g.two[i], c.fcolnum, c.lcolnum, g.symb.First(i), Stride(g.symb, i), c.fcolnum, g.brownums[i],
               if g.two[i] then g.brownums[i] + one else g.brownums[i + 1])
  }

  ghost predicate BlokIs(g: Input, bloktab: seq<SolverBlok>, b: int)
    requires InputOk(g) && 0 <= b < |bloktab|
  {
    && b < |g.symb.bloktab| && 0 <= g.symb.bloktab[b].lcblknm < g.N() && bloktab[b] == NewBlok(g, b)
  }
  ghost predicate CblkIs(g: Input, tab: seq<int>, cblktab: seq<SolverCblk>, i: int)
    requires RowTableOk(g, tab) && 0 <= i < |cblktab|
  {
    i < g.N() && cblktab[i] == NewCblk(g, tab, i)
  }

  /** The slice of column block i of the new row table is written. */
  ghost predicate SliceIs(g: Input, tab: seq<int>, browtab: seq<int>, i: int)
    requires RowTableOk(g, tab) && 0 <= i < g.N()
  {
    && g.brownums[i] + |NewSlice(g, tab, i)| <= |browtab|
    && forall k :: 0 <= k < |NewSlice(g, tab, i)| ==> SliceAt(g, tab, browtab, i, k)
  }
  ghost predicate SliceAt(g: Input, tab: seq<int>, browtab: seq<int>, i: int, k: int)
    requires RowTableOk(g, tab) && 0 <= i < g.N() && 0 <= k < |NewSlice(g, tab, i)|
  {
    0 <= g.brownums[i] + k < |browtab| && browtab[g.brownums[i] + k] == NewSlice(g, tab, i)[k]
  }

  /** cblkmin2d is the first column block before i with 2D tasks, n if there is none;
      cblkmax1d the last one without, -1 if there is none. */
  predicate Limits(two: seq<bool>, i: int, n: int, min2d: int, max1d: int) {
    && 0 <= i <= |two| == n && -1 <= max1d < i && (0 <= min2d < i || min2d == n)
    && (forall k :: 0 <= k < i && k < min2d ==> !two[k]) && (min2d < n ==> two[min2d])
    && (forall k :: max1d < k < i ==> two[k]) && (0 <= max1d ==> !two[max1d])
  }

  /** The final assertion on the limits holds, whatever the types are. */
  lemma LimitsMeet(two: seq<bool>, n: int, min2d: int, max1d: int)
    requires Limits(two, n, n, min2d, max1d)
    ensures max1d + 1 >= min2d
    ensures forall k :: 0 <= k < n ==> (two[k] ==> k >= min2d) && (!two[k] ==> k <= max1d)
  {
    if max1d + 1 < n {
      var t := two[max1d + 1];
      assert t && (t ==> max1d + 1 >= min2d);
    }
  }

  lemma LimitsNext(two: seq<bool>, i: int, next: int, n: int, min2d: int, max1d: int)
    requires Limits(two, i, n, min2d, max1d) && i < next == i + 1 <= n
    ensures Limits(two, next, n, if two[i] && i < min2d then i else min2d, if two[i] then max1d else i)
  {
  }

  /** Coefficients of the column blocks before i. */
  function Area(s: Symbol, i: int): int
    requires Valid(s) && 0 <= i <= s.CblkNbr()
    decreases i
  {
    if i == 0 then 0 else assert ValidColumn(s, i - 1); Area(s, i - 1) + Stride(s, i - 1) * ColNbr(s, i - 1)
  }

  // ----- The loop over the column blocks -----

  lemma SliceBounds(g: Input, tab: seq<int>, i: int, next: int)
    requires RowTableOk(g, tab) && 0 <= i < next == i + 1 <= g.N()
    ensures 0 <= g.brownums[i] <= g.brownums[next] <= |tab| && Slice(g, tab, i) == tab[g.brownums[i]..g.brownums[next]]
  {
    assert SliceOk(g, tab, i);
  }

  /** One more slice is written; those before it are not touched. */
  lemma SliceWritten(g: Input, tab: seq<int>, before: seq<int>, after: seq<int>, i: int, k: int)
    requires RowTableOk(g, tab) && 0 <= k <= i < g.N()
    requires Written(before, after, g.brownums[i], NewSlice(g, tab, i)) && (k < i ==> SliceIs(g, tab, before, k))
    ensures SliceIs(g, tab, after, k)
  {
    SlicesFollow(g, tab, 0, k);
    SlicesFollow(g, tab, k + 1, g.N());
    forall e | 0 <= e < |NewSlice(g, tab, k)| ensures SliceAt(g, tab, after, k, e) {
      var x := g.brownums[k] + e;
      assert WrittenAt(before, after, g.brownums[i], NewSlice(g, tab, i), x);
      if k < i {
        assert SliceAt(g, tab, before, k, e);
        SlicesFollow(g, tab, k + 1, i);
      }
    }
  }

  class SolverMatrix {
    var cblktab: seq<SolverCblk>
    var bloktab: seq<SolverBlok>
    const browtab: array<int>
    var cblkmax1d: int
    var cblkmin2d: int
    var nodenbr: int
    var coefnbr: int

    constructor (brownbr: nat, cblknbr: int)
      ensures cblktab == [] && bloktab == [] && fresh(browtab) && browtab.Length == brownbr
      ensures cblkmax1d == -1 && cblkmin2d == cblknbr && nodenbr == 0 && coefnbr == 0
    {
      cblktab, bloktab := [], [];
      browtab := new int[brownbr];
      cblkmax1d, cblkmin2d, nodenbr, coefnbr := -1, cblknbr, 0, 0;
    }

    /** The column blocks before i are generated. */
    ghost predicate Generated(g: Input, tab: seq<int>, i: int)
      reads this, browtab
    {
      && RowTableOk(g, tab) && 0 <= i <= g.N() && browtab.Length == |tab|
      && CblksDone(g, tab, i) && BloksDone(g, g.symb.First(i)) && SlicesDone(g, tab, i)
      && Limits(g.two, i, g.N(), cblkmin2d, cblkmax1d)
      && nodenbr == g.symb.cblktab[i].fcolnum && coefnbr == Area(g.symb, i)
    }

    ghost predicate CblksDone(g: Input, tab: seq<int>, i: int)
      requires RowTableOk(g, tab)
      reads this
    {
      |cblktab| == i && forall k :: 0 <= k < |cblktab| ==> CblkIs(g, tab, cblktab, k)
    }

    ghost predicate BloksDone(g: Input, j: int)
      requires InputOk(g)
      reads this
    {
      |bloktab| == j && forall b :: 0 <= b < |bloktab| ==> BlokIs(g, bloktab, b)
    }

    ghost predicate SlicesDone(g: Input, tab: seq<int>, i: int)
      requires RowTableOk(g, tab) && i <= g.N()
      reads browtab
    {
      forall k :: 0 <= k < i ==> SliceIs(g, tab, browtab[..], k)
    }

    /** The blocks of column block i; answers its stride. */
    method FillBloks(g: Input, i: int) returns (stride: int)
      requires InputOk(g) && 0 <= i < g.N() && BloksDone(g, g.symb.First(i))
      modifies `bloktab
      ensures ValidColumn(g.symb, i) && stride == Stride(g.symb, i) && BloksDone(g, g.symb.Last(i))
    {
      assert ValidColumn(g.symb, i);
      stride := 0;
      var nbcols := g.symb.cblktab[i].lcolnum - g.symb.cblktab[i].fcolnum + 1;
      var j := g.symb.First(i);
      while j < g.symb.Last(i)
        invariant g.symb.First(i) <= j <= g.symb.Last(i) && BloksDone(g, j)
        invariant stride == Height(g.symb, g.symb.First(i), j)
      {
        stride := AddBlok(g, i, j, stride, nbcols);
        j := j + 1;
      }
    }

    method AddBlok(g: Input, i: int, j: int, stride0: int, nbcols: int) returns (stride: int)
      requires InputOk(g) && 0 <= i < g.N() && ValidColumn(g.symb, i) && BloksDone(g, j)
      requires g.symb.First(i) <= j < g.symb.Last(i) && nbcols == ColNbr(g.symb, i)
      requires stride0 == Height(g.symb, g.symb.First(i), j)
      modifies `bloktab
      ensures BloksDone(g, j + 1) && stride == Height(g.symb, g.symb.First(i), j + 1)
    {
      assert ValidBlok(g.symb, i, j);
      var blok := g.symb.bloktab[j];
      var coefind := if g.layout[i] then stride0 * nbcols else stride0;
      var nbrows := blok.lrownum - blok.frownum + 1;
      ghost var before := bloktab;
      bloktab := bloktab + [SolverBlok(blok.fcblknm, blok.lcblknm, blok.frownum, blok.lrownum, coefind, -1)];
      stride := stride0 + nbrows;
      forall b | 0 <= b < |bloktab| ensures BlokIs(g, bloktab, b) {
        if b < j { assert BlokIs(g, before, b); }
      }
    }

    /** The slice of the row table. */
    method FillRow(g: Input, i: int, symbrow: array<int>, ghost tab: seq<int>) returns (brown2d: int)
      requires RowTableOk(g, tab) && 0 <= i < g.N() && browtab != symbrow && symbrow.Length == |tab| == browtab.Length
      requires CblksDone(g, tab, i) && SlicesDone(g, tab, i) && NotRead(g, symbrow[..], tab, i)
      modifies symbrow, browtab
      ensures SlicesDone(g, tab, i + 1) && NotRead(g, symbrow[..], tab, i + 1)
      ensures brown2d == NewCblk(g, tab, i).brown2d
    {
      SliceBounds(g, tab, i, i + 1);
      ghost var before, sym0 := browtab[..], symbrow[..];
      var types := seq(i, k requires 0 <= k < i == |cblktab| reads this => cblktab[k].tasks2d);
      TypesRead(g, tab, cblktab, i, types);
      var brownum, brownbr := g.brownums[i], g.brownums[i + 1] - g.brownums[i];
      SliceUnread(g, symbrow[..], tab, i);
      brown2d := CopyRow(g.symb, types, g.two[i], symbrow, brownum, browtab, brownum, brownbr);
      forall k | 0 <= k < i + 1 ensures SliceIs(g, tab, browtab[..], k) {
        SliceWritten(g, tab, before, browtab[..], i, k);
      }
      StillUnread(g, sym0, symbrow[..], tab, i, i + 1);
    }

    /** One column block. */
    method AddCblk(g: Input, i: int, symbrow: array<int>, ghost tab: seq<int>)
      requires Generated(g, tab, i) && i < g.N() && browtab != symbrow && symbrow.Length == |tab|
      requires NotRead(g, symbrow[..], tab, i)
      modifies this, symbrow, browtab
      ensures Generated(g, tab, i + 1) && NotRead(g, symbrow[..], tab, i + 1)
    {
      var c := g.symb.cblktab[i];
      var nbcols := c.lcolnum - c.fcolnum + 1;
      var stride := FillBloks(g, i);
      SetLimits(g, i);
      assert nodenbr == c.fcolnum && CblkOk(g.symb, i);
      var brown2d := FillRow(g, i, symbrow, tab);
      AppendCblk(g, i, tab, SolverCblk(g.two[i], c.fcolnum, c.lcolnum, g.symb.First(i), stride, nodenbr, g.brownums[i],
                                       brown2d));
      nodenbr := nodenbr + nbcols;
      coefnbr := coefnbr + stride * nbcols;
    }

    method AppendCblk(g: Input, i: int, ghost tab: seq<int>, c: SolverCblk)
      requires RowTableOk(g, tab) && 0 <= i < g.N() && CblksDone(g, tab, i) && c == NewCblk(g, tab, i)
      modifies `cblktab
      ensures CblksDone(g, tab, i + 1)
    {
      ghost var before := cblktab;
      cblktab := cblktab + [c];
      forall k | 0 <= k < |cblktab| ensures CblkIs(g, tab, cblktab, k) {
        if k < i { assert CblkIs(g, tab, before, k); }
      }
    }

    /** The virtual column block that closes the last one, if there is any. */
    method Close(g: Input, ghost tab: seq<int>)
      requires Generated(g, tab, g.N())
      modifies `cblktab
      ensures |cblktab| == (if g.N() == 0 then 0 else g.N() + 1) && old(cblktab) <= cblktab
      ensures g.N() > 0 ==> cblktab[g.N()] == SolverCblk(false, nodenbr, nodenbr, |bloktab|, 0, nodenbr,
                                                         g.brownums[g.N()], g.brownums[g.N()])
    {
      var n := |cblktab|;
      if n > 0 {
        assert CblkIs(g, tab, cblktab, n - 1) && CblkOk(g.symb, n - 1);
        var fcolnum := cblktab[n - 1].lcolnum + 1;
        cblktab := cblktab + [SolverCblk(false, fcolnum, fcolnum, |bloktab|, 0, nodenbr, g.brownums[n],
                                         g.brownums[n])];
      }
    }

    method SetLimits(g: Input, i: int)
      requires InputOk(g) && Limits(g.two, i, g.N(), cblkmin2d, cblkmax1d) && i < g.N()
      modifies `cblkmin2d, `cblkmax1d
      ensures Limits(g.two, i + 1, g.N(), cblkmin2d, cblkmax1d)
    {
      LimitsNext(g.two, i, i + 1, g.N(), cblkmin2d, cblkmax1d);
      if g.two[i] {
        if i < cblkmin2d { cblkmin2d := i; }
      } else {
        if i > cblkmax1d { cblkmax1d := i; }
      }
    }

    /** All the column blocks; the assertion on the limits holds. The row table of the structure
        is marked where slices were reordered. */
    method Fill(g: Input, symbrow: array<int>)
      requires RowTableOk(g, symbrow[..]) && browtab != symbrow && browtab.Length == symbrow.Length
      requires cblktab == [] && bloktab == [] && cblkmax1d == -1 && cblkmin2d == g.N() && nodenbr == 0 && coefnbr == 0
      modifies this, symbrow, browtab
      ensures old(RowTableOk(g, symbrow[..])) && Generated(g, old(symbrow[..]), g.N()) && cblkmax1d + 1 >= cblkmin2d
    {
      ghost var tab := symbrow[..];
      AllUnread(g, tab);
      var i := 0;
      while i < g.N()
        invariant Generated(g, tab, i) && symbrow.Length == |tab| && NotRead(g, symbrow[..], tab, i)
      {
        AddCblk(g, i, symbrow, tab);
        i := i + 1;
      }
      LimitsMeet(g.two, g.N(), cblkmin2d, cblkmax1d);
    }
  }

  /** The slices from i on are as they were. */
  ghost predicate NotRead(g: Input, symbrow: seq<int>, tab: seq<int>, i: int)
    requires RowTableOk(g, tab) && 0 <= i <= g.N()
  {
    |symbrow| == |tab| && forall x :: g.brownums[i] <= x < |tab| ==> SameEntry(symbrow, tab, x)
  }
  predicate SameEntry(a: seq<int>, b: seq<int>, x: int) { 0 <= x < |a| == |b| && a[x] == b[x] }

  lemma AllUnread(g: Input, tab: seq<int>)
    requires RowTableOk(g, tab)
    ensures NotRead(g, tab, tab, 0)
  {
    forall x | 0 <= x < |tab| ensures SameEntry(tab, tab, x) { }
  }

  lemma SliceUnread(g: Input, symbrow: seq<int>, tab: seq<int>, i: int)
    requires RowTableOk(g, tab) && 0 <= i < g.N() && NotRead(g, symbrow, tab, i)
    ensures 0 <= g.brownums[i] <= g.brownums[i + 1] <= |symbrow|
    ensures symbrow[g.brownums[i]..g.brownums[i + 1]] == Slice(g, tab, i)
  {
    SliceBounds(g, tab, i, i + 1);
    forall x | g.brownums[i] <= x < g.brownums[i + 1] ensures symbrow[x] == tab[x] {
      assert SameEntry(symbrow, tab, x);
    }
  }

  lemma StillUnread(g: Input, before: seq<int>, after: seq<int>, tab: seq<int>, i: int, next: int)
    requires RowTableOk(g, tab) && 0 <= i < next == i + 1 <= g.N() && NotRead(g, before, tab, i)
    requires exists j :: MarkedBefore(g.symb, g.two[..i], Slice(g, tab, i), before, after, g.brownums[i], j)
    ensures NotRead(g, after, tab, next)
  {
    var j :| MarkedBefore(g.symb, g.two[..i], Slice(g, tab, i), before, after, g.brownums[i], j);
    SliceBounds(g, tab, i, next);
    forall x | g.brownums[next] <= x < |tab| ensures SameEntry(after, tab, x) {
      assert SameEntry(before, tab, x);
      assert MarkedAt(g.symb, g.two[..i], Slice(g, tab, i), before, after, g.brownums[i], j, x);
    }
  }

  /** The types read from the column blocks already generated. */
  lemma TypesRead(g: Input, tab: seq<int>, cblktab: seq<SolverCblk>, i: int, types: seq<bool>)
    requires RowTableOk(g, tab) && 0 <= i < g.N() && |cblktab| == i == |types|
    requires forall k :: 0 <= k < |cblktab| ==> CblkIs(g, tab, cblktab, k)
    requires forall k :: 0 <= k < i ==> types[k] == cblktab[k].tasks2d
    ensures types == g.two[..i]
  {
    forall k | 0 <= k < i ensures types[k] == g.two[k] { assert CblkIs(g, tab, cblktab, k); }
  }

  // ----- The new row table -----

  ghost predicate NewTable(g: Input, tab: seq<int>, browtab: seq<int>) {
    RowTableOk(g, tab) && |browtab| == |tab| && forall i :: 0 <= i < g.N() ==> SliceIs(g, tab, browtab, i)
  }

  /** Where entry x of the old slice of i is in the new table. */
  ghost function NewPlace(g: Input, tab: seq<int>, i: int, x: int): int
    requires RowTableOk(g, tab) && 0 <= i < g.N() && InSlice(g.brownums, i, x)
  {
    var k := x - g.brownums[i];
    if g.two[i] then g.brownums[i] + Rank(g.symb, g.two[..i], Slice(g, tab, i), k) else x
  }

  lemma PlaceHolds(g: Input, tab: seq<int>, browtab: seq<int>, i: int, x: int)
    requires NewTable(g, tab, browtab) && 0 <= i < g.N() && InSlice(g.brownums, i, x)
    ensures 0 <= x < |tab| && InSlice(g.brownums, i, NewPlace(g, tab, i, x)) && 0 <= NewPlace(g, tab, i, x) < |browtab|
    ensures browtab[NewPlace(g, tab, i, x)] == tab[x]
  {
    SliceBounds(g, tab, i, i + 1);
    var v, k := Slice(g, tab, i), x - g.brownums[i];
    assert SliceIs(g, tab, browtab, i) && v[k] == tab[x];
    if g.two[i] {
      RankHolds(g.symb, g.two[..i], v, k);
      assert SliceAt(g, tab, browtab, i, Rank(g.symb, g.two[..i], v, k));
    } else {
      assert SliceAt(g, tab, browtab, i, k);
    }
  }

  /** Every place of the new slice comes from a place of the old one. */
  lemma PlaceFrom(g: Input, tab: seq<int>, browtab: seq<int>, i: int, y: int) returns (x: int)
    requires NewTable(g, tab, browtab) && 0 <= i < g.N() && InSlice(g.brownums, i, y)
    ensures InSlice(g.brownums, i, x) && NewPlace(g, tab, i, x) == y && 0 <= x < |tab| && 0 <= y < |browtab|
    ensures browtab[y] == tab[x]
  {
    SliceBounds(g, tab, i, i + 1);
    if g.two[i] {
      KeptSizes(g.symb, g.two[..i], Slice(g, tab, i));
      var k := RankOnto(g.symb, g.two[..i], Slice(g, tab, i), y - g.brownums[i]);
      x := g.brownums[i] + k;
    } else {
      x := y;
    }
    PlaceHolds(g, tab, browtab, i, x);
  }

  /** The new table is a row table too: it lists the blocks that face each column block. */
  lemma NewTableOk(g: Input, tab: seq<int>, browtab: seq<int>)
    requires NewTable(g, tab, browtab)
    ensures RowTableOk(g, browtab)
  {
    forall i | 0 <= i < g.N() ensures SliceOk(g, browtab, i) { NewSliceOk(g, tab, browtab, i); }
    forall b, i | 0 <= i < g.N() && FacesRow(g.symb, b, i) ensures Listed(g, browtab, b, i) {
      assert Listed(g, tab, b, i);
      var x :| InSlice(g.brownums, i, x) && 0 <= x < |tab| && tab[x] == b;
      PlaceHolds(g, tab, browtab, i, x);
    }
  }

  lemma NewSliceOk(g: Input, tab: seq<int>, browtab: seq<int>, i: int)
    requires NewTable(g, tab, browtab) && 0 <= i < g.N()
    ensures SliceOk(g, browtab, i)
  {
    assert SliceOk(g, tab, i);
    forall y | InSlice(g.brownums, i, y) ensures FacesRow(g.symb, browtab[y], i) {
      var x := PlaceFrom(g, tab, browtab, i, y);
    }
    forall y, z | InSlice(g.brownums, i, y) && InSlice(g.brownums, i, z) && y != z ensures Apart(browtab, y, z) {
      var x := PlaceFrom(g, tab, browtab, i, y);
      var w := PlaceFrom(g, tab, browtab, i, z);
      assert Apart(tab, x, w);
    }
  }

  /** In the slice of a column block with 2D tasks, brown2d separates the blocks of column
      blocks without 2D tasks from the others, each group in its old order. */
  lemma SplitAtBrown2d(g: Input, tab: seq<int>, i: int, x: int, y: int)
    requires RowTableOk(g, tab) && 0 <= i < g.N() && g.two[i] && InSlice(g.brownums, i, x) && InSlice(g.brownums, i, y)
    ensures 0 <= x < |tab| && 0 <= y < |tab| && Known(g.symb, g.two, tab[x]) && Known(g.symb, g.two, tab[y])
    ensures NewPlace(g, tab, i, x) < NewCblk(g, tab, i).brown2d <==> !IsTwo(g.symb, g.two, tab[x])
    ensures IsTwo(g.symb, g.two, tab[x]) == IsTwo(g.symb, g.two, tab[y]) && x < y ==>
              NewPlace(g, tab, i, x) < NewPlace(g, tab, i, y)
  {
    SliceBounds(g, tab, i, i + 1);
    var v, k, l := Slice(g, tab, i), x - g.brownums[i], y - g.brownums[i];
    assert v[k] == tab[x] && v[l] == tab[y];
    assert Known(g.symb, g.two[..i], v[k]) && Known(g.symb, g.two[..i], v[l]);
    KeptAt(g.symb, g.two[..i], v, k);
    if k < l { RanksIncrease(g.symb, g.two[..i], v, k, l); }
  }

  /** No block is listed twice in a row table. */
  lemma ListedOnce(g: Input, tab: seq<int>, x: int, y: int)
    requires RowTableOk(g, tab) && 0 <= x < |tab| && 0 <= y < |tab| && x != y
    ensures tab[x] != tab[y]
  {
    var i := SliceOf(g, tab, x, g.N());
    var k := SliceOf(g, tab, y, g.N());
    assert SliceOk(g, tab, i) && SliceOk(g, tab, k);
    assert FacesRow(g.symb, tab[x], i) && FacesRow(g.symb, tab[y], k);
    if i == k { assert Apart(tab, x, y); }
  }

  lemma {:induction false} SliceOf(g: Input, tab: seq<int>, x: int, k: int) returns (i: int)
    requires RowTableOk(g, tab) && 0 <= k <= g.N() && 0 <= x < g.brownums[k]
    ensures 0 <= i < k && InSlice(g.brownums, i, x)
    decreases k
  {
    if x < g.brownums[k - 1] { i := SliceOf(g, tab, x, k - 1); } else { i := k - 1; }
  }

  // ----- Places of the blocks in the row table -----

  /** The blocks at the places before k know their place; nothing else changes. */
  ghost predicate Placed(tab: seq<int>, before: seq<SolverBlok>, after: seq<SolverBlok>, k: int) {
    && |after| == |before| && 0 <= k <= |tab|
    && (forall b :: 0 <= b < |after| ==> SameButPlace(before, after, b))
    && (forall x :: 0 <= x < k ==> PlaceKnown(tab, after, x))
    && (forall b :: 0 <= b < |after| && Unlisted(tab, b, k) ==> after[b] == before[b])
  }
  predicate SameButPlace(before: seq<SolverBlok>, after: seq<SolverBlok>, b: int)
    requires 0 <= b < |before| == |after|
  {
    after[b] == before[b].(browind := after[b].browind)
  }
  predicate PlaceKnown(tab: seq<int>, bloktab: seq<SolverBlok>, x: int) {
    0 <= x < |tab| && 0 <= tab[x] < |bloktab| && bloktab[tab[x]].browind == x
  }
  ghost predicate Unlisted(tab: seq<int>, b: int, k: int)
    requires k <= |tab|
  {
    forall x :: 0 <= x < k ==> tab[x] != b
  }

  lemma PlacedNext(tab: seq<int>, before: seq<SolverBlok>, bloktab: seq<SolverBlok>, after: seq<SolverBlok>, k: int,
                   next: int)
    requires Placed(tab, before, bloktab, k) && k < next == k + 1 <= |tab| && 0 <= tab[k] < |bloktab|
    requires forall x :: 0 <= x < k ==> tab[x] != tab[k]
    requires after == bloktab[tab[k] := bloktab[tab[k]].(browind := k)]
    ensures Placed(tab, before, after, next)
  {
    forall b | 0 <= b < |after| ensures SameButPlace(before, after, b) { assert SameButPlace(before, bloktab, b); }
    forall x | 0 <= x < next ensures PlaceKnown(tab, after, x) {
      if x < k { assert PlaceKnown(tab, bloktab, x); }
    }
    forall b | 0 <= b < |after| && Unlisted(tab, b, next) ensures after[b] == before[b] {
      assert tab[k] != b;
      assert Unlisted(tab, b, k);
    }
  }

  /** The loop that stores the place of every block in the row table. */
  method FillBrowind(g: Input, browtab: seq<int>, bloktab0: seq<SolverBlok>) returns (bloktab: seq<SolverBlok>)
    requires RowTableOk(g, browtab) && |bloktab0| == |g.symb.bloktab|
    ensures Placed(browtab, bloktab0, bloktab, |browtab|)
  {
    bloktab := bloktab0;
    var i := 0;
    while i < |browtab|
      invariant Placed(browtab, bloktab0, bloktab, i)
    {
      var bloknum := browtab[i];
      RowBlok(g, browtab, i);
      forall x | 0 <= x < i ensures browtab[x] != browtab[i] { ListedOnce(g, browtab, x, i); }
      PlacedNext(browtab, bloktab0, bloktab, bloktab[bloknum := bloktab[bloknum].(browind := i)], i, i + 1);
      bloktab := bloktab[bloknum := bloktab[bloknum].(browind := i)];
      i := i + 1;
    }
  }

  lemma RowBlok(g: Input, tab: seq<int>, x: int)
    requires RowTableOk(g, tab) && 0 <= x < |tab|
    ensures 0 <= tab[x] < |g.symb.bloktab|
  {
    var i := SliceOf(g, tab, x, g.N());
    assert SliceOk(g, tab, i) && FacesRow(g.symb, tab[x], i);
  }

  /** Every off-diagonal block knows its place, inside the slice of the column block it faces;
      the diagonal blocks have none. */
  lemma PlacesAreRight(g: Input, browtab: seq<int>, before: seq<SolverBlok>, bloktab: seq<SolverBlok>, i: int, b: int)
    requires RowTableOk(g, browtab) && |before| == |g.symb.bloktab| && Placed(browtab, before, bloktab, |browtab|)
    requires 0 <= i < g.N() && g.symb.First(i) <= b < g.symb.Last(i)
    ensures 0 <= b < |bloktab| && 0 <= g.symb.bloktab[b].fcblknm < g.N()
    ensures if b == g.symb.First(i) then bloktab[b] == before[b]
            else InSlice(g.brownums, g.symb.bloktab[b].fcblknm, bloktab[b].browind)
                 && 0 <= bloktab[b].browind < |browtab| && browtab[bloktab[b].browind] == b
  {
    assert ValidColumn(g.symb, i);
    assert ValidBlok(g.symb, i, b);
    if b > g.symb.First(i) {
      FacesLater(g.symb, i, b);
      var c := g.symb.bloktab[b].fcblknm;
      assert FacesRow(g.symb, b, c) && Listed(g, browtab, b, c);
      var x :| InSlice(g.brownums, c, x) && 0 <= x < |browtab| && browtab[x] == b;
      assert PlaceKnown(browtab, bloktab, x);
    } else {
      forall x | 0 <= x < |browtab| ensures browtab[x] != b { DiagonalUnlisted(g, browtab, i, x); }
    }
  }

  lemma DiagonalUnlisted(g: Input, tab: seq<int>, i: int, x: int)
    requires RowTableOk(g, tab) && 0 <= i < g.N() && 0 <= x < |tab|
    ensures tab[x] != g.symb.First(i)
  {
    var c := SliceOf(g, tab, x, g.N());
    assert SliceOk(g, tab, c) && FacesRow(g.symb, tab[x], c);
    assert ValidColumn(g.symb, i) && ValidBlok(g.symb, i, g.symb.First(i));
  }
}

/** What the tables of blend/solver_matrix_gen.c say, field by field: column blocks, blocks, places of
    the coefficients and row table agree with one another and with the structure. */
module SolverFields {
  import opened SymbolMatrix
  import opened SolverGen
  import opened RowTable
  import opened CoefTable

  /** The fields of the solver. */
  datatype Tables = Tables(cblktab: seq<SolverCblk>, bloktab: seq<SolverBlok>, browtab: seq<int>, cblkmax1d: int,
                           cblkmin2d: int, nodenbr: int, coefnbr: int)

  /** Column block i and the one that follows; after the last one comes one that closes it. */
  ghost predicate CblkRight(s: Symbol, two: seq<bool>, t: Tables, i: int) {
    && 0 <= i < s.CblkNbr() && |t.cblktab| == s.CblkNbr() + 1 && |two| == s.CblkNbr()
    && var c, d := t.cblktab[i], t.cblktab[i + 1];
       && c.fcolnum == s.cblktab[i].fcolnum && c.lcolnum == s.cblktab[i].lcolnum && d.fcolnum == c.lcolnum + 1
       && c.lcolidx == c.fcolnum && c.fblok == s.First(i) && d.fblok == s.Last(i)
       && c.tasks2d == two[i]
       && 0 <= c.brownum <= c.brown2d <= d.brownum <= |t.browtab| && (!c.tasks2d ==> c.brown2d == d.brownum)
  }

  /** Block b of column block i. */
  predicate OfCblk(t: Tables, i: int, b: int) {
    0 <= i < |t.cblktab| - 1 && t.cblktab[i].fblok <= b < t.cblktab[i + 1].fblok
  }

  /** The rows of the structure, inside the columns of the column block that is faced; the
      diagonal block faces its own and has no place in the row table. */
  ghost predicate BlokRight(s: Symbol, t: Tables, i: int, b: int) {
    && 0 <= b < |t.bloktab| == |s.bloktab| && 0 <= i < |t.cblktab| - 1
    && var k := t.bloktab[b];
       && k.lcblknm == i && k.frownum == s.bloktab[b].frownum && k.lrownum == s.bloktab[b].lrownum
       && 0 <= k.fcblknm < |t.cblktab| - 1
       && t.cblktab[k.fcblknm].fcolnum <= k.frownum <= k.lrownum <= t.cblktab[k.fcblknm].lcolnum
       && if b == t.cblktab[i].fblok then
            && k.fcblknm == i && k.browind == -1
            && k.frownum == t.cblktab[i].fcolnum && k.lrownum == t.cblktab[i].lcolnum
          else
            i < k.fcblknm && InRow(t, k.fcblknm, k.browind) && t.browtab[k.browind] == b
  }

  /** The blocks share the coefficients of their column block: each one starts where the one above ends. */
  ghost predicate CoefRight(layout: seq<bool>, t: Tables, i: int, b: int) {
    && 0 <= b < |t.bloktab| && 0 <= i < |t.cblktab| - 1 && |layout| == |t.cblktab| - 1
    && var c, k := t.cblktab[i], t.bloktab[b];
       var w := if layout[i] then c.lcolnum - c.fcolnum + 1 else 1;
       var end := k.coefind + (k.lrownum - k.frownum + 1) * w;
       && (b == c.fblok ==> k.coefind == 0)
       && if b + 1 == t.cblktab[i + 1].fblok then end == c.stride * w
          else b + 1 < |t.bloktab| && t.bloktab[b + 1].coefind == end
  }

  /** Entry x of the row table is in the slice of column block i. */
  predicate InRow(t: Tables, i: int, x: int) {
    0 <= i < |t.cblktab| - 1 && t.cblktab[i].brownum <= x < t.cblktab[i + 1].brownum && 0 <= x < |t.browtab|
  }

  /** It is an off-diagonal block that faces i and knows its place; those of column blocks without 2D
      tasks come before brown2d when i has 2D tasks. */
  ghost predicate RowRight(t: Tables, i: int, x: int) {
    && 0 <= x < |t.browtab| && 0 <= t.browtab[x] < |t.bloktab| && 0 <= i < |t.cblktab| - 1
    && var k := t.bloktab[t.browtab[x]];
       && k.fcblknm == i && k.browind == x && 0 <= k.lcblknm < i
       && t.browtab[x] != t.cblktab[k.lcblknm].fblok
       && (t.cblktab[i].tasks2d ==> (x < t.cblktab[i].brown2d <==> !t.cblktab[k.lcblknm].tasks2d))
  }

  /** On each side of brown2d the blocks are in increasing order. */
  ghost predicate RowSorted(t: Tables, i: int, x: int, y: int) {
    InRow(t, i, x) && InRow(t, i, y) && x < y && (x < t.cblktab[i].brown2d <==> y < t.cblktab[i].brown2d) ==>
      t.browtab[x] < t.browtab[y]
  }

  /** The places of all the coefficients. */
  function CoefSum(cblktab: seq<SolverCblk>, i: int): int
    requires 0 <= i <= |cblktab|
    decreases i
  {
    if i == 0 then 0
    else CoefSum(cblktab, i - 1) + cblktab[i - 1].stride * (cblktab[i - 1].lcolnum - cblktab[i - 1].fcolnum + 1)
  }

  /** The column blocks with 2D tasks start at cblkmin2d, those without end at cblkmax1d. */
  ghost predicate LimitsRight(t: Tables, n: int)
    requires 0 <= n <= |t.cblktab|
  {
    && (forall k :: 0 <= k < n ==> if t.cblktab[k].tasks2d then t.cblkmin2d <= k else k <= t.cblkmax1d)
    && (t.cblkmin2d == n || (0 <= t.cblkmin2d < n && t.cblktab[t.cblkmin2d].tasks2d))
    && (t.cblkmax1d == -1 || (0 <= t.cblkmax1d < n && !t.cblktab[t.cblkmax1d].tasks2d))
    && t.cblkmin2d <= t.cblkmax1d + 1
  }

  ghost predicate TablesRight(s: Symbol, two: seq<bool>, layout: seq<bool>, t: Tables) {
    && |t.cblktab| == (if s.CblkNbr() == 0 then 0 else s.CblkNbr() + 1)
    && (forall i :: 0 <= i < s.CblkNbr() ==> CblkRight(s, two, t, i))
    && (forall i, b :: OfCblk(t, i, b) ==> BlokRight(s, t, i, b))
    && (forall i, b :: OfCblk(t, i, b) ==> CoefRight(layout, t, i, b))
    && (forall i, x :: InRow(t, i, x) ==> RowRight(t, i, x))
    && (forall i, x, y :: RowSorted(t, i, x, y))
    && 0 <= s.CblkNbr() <= |t.cblktab| && LimitsRight(t, s.CblkNbr())
    && t.nodenbr == s.cblktab[s.CblkNbr()].fcolnum && t.coefnbr == CoefSum(t.cblktab, s.CblkNbr())
  }

  // ----- From what the generation states -----

  /** The generated tables: column blocks and row table from tab, blocks with their places. */
  ghost predicate Made(g: Input, tab: seq<int>, t: Tables) {
    && NewTable(g, tab, t.browtab) && RowTableOk(g, t.browtab) && |g.layout| == g.N()
    && |t.cblktab| == (if g.N() == 0 then 0 else g.N() + 1) && |t.bloktab| == |g.symb.bloktab|
    && (forall k :: 0 <= k < g.N() ==> CblkIs(g, tab, t.cblktab, k) && SliceAscends(g, tab, k))
    && (g.N() > 0 ==> Closes(g, t))
    && (forall b :: 0 <= b < |t.bloktab| ==> BlokMade(g, t, b))
    && Limits(g.two, g.N(), g.N(), t.cblkmin2d, t.cblkmax1d)
    && t.nodenbr == g.symb.cblktab[g.N()].fcolnum && t.coefnbr == Area(g.symb, g.N())
  }

  /** The virtual column block at the end. */
  ghost predicate Closes(g: Input, t: Tables)
    requires InputOk(g) && |t.cblktab| == g.N() + 1
  {
    var d := t.cblktab[g.N()];
    && d.fcolnum == g.symb.cblktab[g.N()].fcolnum && d.fblok == |g.symb.bloktab| && d.brownum == g.brownums[g.N()]
  }

  ghost predicate BlokMade(g: Input, t: Tables, b: int)
    requires RowTableOk(g, t.browtab) && 0 <= b < |t.bloktab|
  {
    && b < |g.symb.bloktab| && 0 <= g.symb.bloktab[b].lcblknm < g.N() && 0 <= g.symb.bloktab[b].fcblknm < g.N()
    && t.bloktab[b] == NewBlok(g, b).(browind := t.bloktab[b].browind)
    && var x := t.bloktab[b].browind;
       if b == g.symb.First(g.symb.bloktab[b].lcblknm) then x == -1
       else InSlice(g.brownums, g.symb.bloktab[b].fcblknm, x) && 0 <= x < |t.browtab| && t.browtab[x] == b
  }

  /** The start of each column block in the tables, the closing one included. */
  lemma StartsRight(g: Input, tab: seq<int>, t: Tables, i: int)
    requires Made(g, tab, t) && 0 <= i <= g.N() && 0 < g.N()
    ensures t.cblktab[i].fcolnum == g.symb.cblktab[i].fcolnum && t.cblktab[i].fblok == g.symb.cblktab[i].bloknum
    ensures t.cblktab[i].brownum == g.brownums[i]
  {
    if i < g.N() { assert CblkIs(g, tab, t.cblktab, i); }
  }

  lemma OneRight(g: Input, tab: seq<int>, i: int)
    requires RowTableOk(g, tab) && 0 <= i < g.N()
    ensures g.brownums[i] <= NewCblk(g, tab, i).brown2d <= g.brownums[i + 1]
  {
    KeptSizes(g.symb, g.two[..i], Slice(g, tab, i));
    SliceBounds(g, tab, i, i + 1);
  }

  lemma CblkIsRight(g: Input, tab: seq<int>, t: Tables, i: int)
    requires Made(g, tab, t) && 0 <= i < g.N()
    ensures CblkRight(g.symb, g.two, t, i)
  {
    var next := i + 1;
    assert CblkIs(g, tab, t.cblktab, i);
    StartsRight(g, tab, t, i);
    StartsRight(g, tab, t, next);
    OneRight(g, tab, i);
    SliceBounds(g, tab, i, next);
    assert CblkOk(g.symb, i);
  }

  /** The block of the structure. */
  lemma BlokOf(g: Input, tab: seq<int>, t: Tables, i: int, b: int)
    requires Made(g, tab, t) && OfCblk(t, i, b)
    ensures 0 <= i < g.N() && ValidColumn(g.symb, i) && g.symb.First(i) <= b < g.symb.Last(i)
    ensures 0 <= b < |t.bloktab| && ValidBlok(g.symb, i, b)
    ensures CblkRight(g.symb, g.two, t, i) && BlokMade(g, t, b)
  {
    CblkIsRight(g, tab, t, i);
    assert ValidColumn(g.symb, i);
  }

  lemma BlokIsRight(g: Input, tab: seq<int>, t: Tables, i: int, b: int)
    requires Made(g, tab, t) && OfCblk(t, i, b)
    ensures BlokRight(g.symb, t, i, b)
  {
    BlokOf(g, tab, t, i, b);
    var f := g.symb.bloktab[b].fcblknm;
    CblkIsRight(g, tab, t, f);
    if b > g.symb.First(i) {
      FacesLater(g.symb, i, b);
      StartsRight(g, tab, t, f);
      StartsRight(g, tab, t, f + 1);
    }
  }

  lemma Distributes(x: int, y: int, w: int)
    ensures (x + y) * w == x * w + y * w
  {
  }

  lemma CoefIsRight(g: Input, tab: seq<int>, t: Tables, i: int, b: int)
    requires Made(g, tab, t) && OfCblk(t, i, b)
    ensures CoefRight(g.layout, t, i, b)
  {
    BlokOf(g, tab, t, i, b);
    assert CblkIs(g, tab, t.cblktab, i);
    var s, next := g.symb, b + 1;
    Distributes(Height(s, s.First(i), b), RowNbr(s, b), ColNbr(s, i));
    assert Height(s, s.First(i), next) == Height(s, s.First(i), b) + RowNbr(s, b);
    if next < s.Last(i) {
      assert OfCblk(t, i, next);
      BlokOf(g, tab, t, i, next);
    }
  }

  lemma RowIsRight(g: Input, tab: seq<int>, t: Tables, i: int, x: int)
    requires Made(g, tab, t) && InRow(t, i, x)
    ensures RowRight(t, i, x)
  {
    StartsRight(g, tab, t, i);
    StartsRight(g, tab, t, i + 1);
    assert InSlice(g.brownums, i, x) && SliceOk(g, t.browtab, i);
    assert FacesRow(g.symb, t.browtab[x], i);
    var b := t.browtab[x];
    var o := g.symb.bloktab[b].lcblknm;
    assert BlokMade(g, t, b);
    StartsRight(g, tab, t, o);
    if t.bloktab[b].browind != x { ListedOnce(g, t.browtab, t.bloktab[b].browind, x); }
    CblkIsRight(g, tab, t, i);
    if g.two[i] { RowSide(g, tab, t, i, x); }
  }

  lemma RowSide(g: Input, tab: seq<int>, t: Tables, i: int, x: int)
    requires Made(g, tab, t) && 0 <= i < g.N() && InSlice(g.brownums, i, x) && 0 <= x < |t.browtab| && g.two[i]
    ensures 0 <= t.browtab[x] < |g.symb.bloktab| && 0 <= g.symb.bloktab[t.browtab[x]].lcblknm < g.N()
    ensures x < t.cblktab[i].brown2d <==> !t.cblktab[g.symb.bloktab[t.browtab[x]].lcblknm].tasks2d
  {
    var y := PlaceFrom(g, tab, t.browtab, i, x);
    SplitAtBrown2d(g, tab, i, y, y);
    assert CblkIs(g, tab, t.cblktab, i);
    assert CblkIs(g, tab, t.cblktab, g.symb.bloktab[t.browtab[x]].lcblknm);
  }

  lemma RowIsSorted(g: Input, tab: seq<int>, t: Tables, i: int, x: int, y: int)
    requires Made(g, tab, t)
    ensures RowSorted(t, i, x, y)
  {
    if InRow(t, i, x) && InRow(t, i, y) && x < y && (x < t.cblktab[i].brown2d <==> y < t.cblktab[i].brown2d) {
      StartsRight(g, tab, t, i);
      StartsRight(g, tab, t, i + 1);
      assert CblkIs(g, tab, t.cblktab, i) && SliceAscends(g, tab, i);
      var p := PlaceFrom(g, tab, t.browtab, i, x);
      var q := PlaceFrom(g, tab, t.browtab, i, y);
      if g.two[i] {
        SplitAtBrown2d(g, tab, i, p, q);
        SplitAtBrown2d(g, tab, i, q, p);
      }
      assert p < q;
      assert LessAt(tab, p, q);
    }
  }

  lemma {:induction false} AreaIsSum(g: Input, tab: seq<int>, t: Tables, i: int)
    requires Made(g, tab, t) && 0 <= i <= g.N()
    ensures i <= |t.cblktab| && Area(g.symb, i) == CoefSum(t.cblktab, i)
    decreases i
  {
    if i > 0 {
      AreaIsSum(g, tab, t, i - 1);
      AreaNext(g, tab, t, i - 1, i);
    }
  }

  lemma AreaNext(g: Input, tab: seq<int>, t: Tables, k: int, i: int)
    requires Made(g, tab, t) && 0 <= k < i == k + 1 <= g.N() <= |t.cblktab| && Area(g.symb, k) == CoefSum(t.cblktab, k)
    ensures Area(g.symb, i) == CoefSum(t.cblktab, i)
  {
    assert CblkIs(g, tab, t.cblktab, k);
    assert ValidColumn(g.symb, k);
    assert t.cblktab[k].stride == Stride(g.symb, k);
    assert t.cblktab[k].lcolnum - t.cblktab[k].fcolnum + 1 == ColNbr(g.symb, k);
  }

  lemma LimitsAreRight(g: Input, tab: seq<int>, t: Tables)
    requires Made(g, tab, t)
    ensures g.N() <= |t.cblktab| && LimitsRight(t, g.N())
  {
    LimitsMeet(g.two, g.N(), t.cblkmin2d, t.cblkmax1d);
    forall k | 0 <= k < g.N() ensures t.cblktab[k].tasks2d == g.two[k] { assert CblkIs(g, tab, t.cblktab, k); }
  }

  /** All the fields agree. */
  lemma AllRight(g: Input, tab: seq<int>, t: Tables)
    requires Made(g, tab, t)
    ensures TablesRight(g.symb, g.two, g.layout, t)
  {
    forall i | 0 <= i < g.N() ensures CblkRight(g.symb, g.two, t, i) { CblkIsRight(g, tab, t, i); }
    forall i, b | OfCblk(t, i, b) ensures BlokRight(g.symb, t, i, b) { BlokIsRight(g, tab, t, i, b); }
    forall i, b | OfCblk(t, i, b) ensures CoefRight(g.layout, t, i, b) { CoefIsRight(g, tab, t, i, b); }
    forall i, x | InRow(t, i, x) ensures RowRight(t, i, x) { RowIsRight(g, tab, t, i, x); }
    forall i, x, y ensures RowSorted(t, i, x, y) { RowIsSorted(g, tab, t, i, x, y); }
    AreaIsSum(g, tab, t, g.N());
    LimitsAreRight(g, tab, t);
  }
}

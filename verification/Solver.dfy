/** The tables of blend/solver_matrix_gen.c one after the other, from a structure and the types of
    its column blocks. */
module Solver {
  import opened SymbolMatrix
  import opened SolverGen
  import opened SolverFields
  import BuildRowtab
  import IndTable

  /** What the solver holds. */
  ghost function Value(m: SolverMatrix): Tables
    reads m, m.browtab
  {
    Tables(m.cblktab, m.bloktab, m.browtab[..], m.cblkmax1d, m.cblkmin2d, m.nodenbr, m.coefnbr)
  }

  /** The blocks after the loop over the row table. */
  lemma BlokPlaced(g: Input, t: Tables, before: seq<SolverBlok>, b: int)
    requires RowTableOk(g, t.browtab) && |before| == |g.symb.bloktab|
             && Placed(t.browtab, before, t.bloktab, |t.browtab|)
    requires 0 <= b < |t.bloktab| && BlokIs(g, before, b)
    ensures BlokMade(g, t, b)
  {
    assert SameButPlace(before, t.bloktab, b);
    var i := OwnerOf(g.symb, b, g.N());
    PlacesAreRight(g, t.browtab, before, t.bloktab, i, b);
  }

  lemma CblksStay(g: Input, tab: seq<int>, before: seq<SolverCblk>, after: seq<SolverCblk>)
    requires RowTableOk(g, tab) && |before| == g.N() && before <= after
    requires forall k :: 0 <= k < |before| ==> CblkIs(g, tab, before, k)
    ensures forall k :: 0 <= k < g.N() ==> CblkIs(g, tab, after, k)
  {
    forall k | 0 <= k < g.N() ensures CblkIs(g, tab, after, k) { assert CblkIs(g, tab, before, k); }
  }

  /** The whole generation: the fields of the solver agree with one another and with the structure,
      and the table of contributions says which column block receives each update. */
  method Generate(s: Symbol, two: seq<bool>, layout: seq<bool>, ricar: bool)
    returns (m: SolverMatrix, indnum: seq<int>, indtab: seq<int>)
    requires Valid(s) && s.cblktab[0].fcolnum == 0 && |two| == |layout| == s.CblkNbr() && (!ricar ==> Closed(s))
    ensures TablesRight(s, two, layout, Value(m))
    ensures |indnum| == s.CblkNbr() && forall i :: 0 <= i < |indnum| ==> indnum[i] == IndTable.IndNum(s, i)
    ensures indtab == IndTable.Entries(s, s.CblkNbr()) && |indtab| == IndTable.IndNum(s, s.CblkNbr())
    ensures forall i, j, k :: UpdatePair(s, i, j, k) ==> IndTable.EntryRight(s, indnum, indtab, i, j, k)
  {
    indnum, indtab := IndTable.FillIndtab(s, ricar);
    var brownums, symbrow := BuildRowtab.Build(s, two, layout);
    var g := Input(s, two, layout, brownums);
    ghost var tab := symbrow[..];
    m := new SolverMatrix(symbrow.Length, s.CblkNbr());
    m.Fill(g, symbrow);
    NewTableOk(g, tab, m.browtab[..]);
    ghost var before := m.bloktab;
    ghost var cblks := m.cblktab;
    m.Close(g, tab);
    CblksStay(g, tab, cblks, m.cblktab);
    m.bloktab := FillBrowind(g, m.browtab[..], m.bloktab);
    forall b | 0 <= b < |m.bloktab| ensures BlokMade(g, Value(m), b) {
      assert BlokIs(g, before, b);
      BlokPlaced(g, Value(m), before, b);
    }
    AllRight(g, tab, Value(m));
    forall i, j, k | UpdatePair(s, i, j, k) ensures IndTable.EntryRight(s, indnum, indtab, i, j, k) {
      IndTable.EntryIsRight(s, indnum, indtab, i, j, k);
    }
  }
}

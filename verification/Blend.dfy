/** The analysis of blend/pastix_subtask_blend.c from a symbolic structure to a schedule: tree,
    costs, proportional mapping, check of the candidates, simulation. */
module Blend {
  import opened SymbolMatrix
  import opened ElimTree
  import opened Candidates
  import PropMap
  import PropRuns
  import Schedule
  import Makespan
  import Simulation
  import CriticalPath
  import Shares
  import Split
  import SplitProps
  import SplitSmart
  import SplitResult
  import Merge
  import LongestPath
  import Turns

  /** splitSymbol: the column blocks that are wide enough, and no others, are cut where the
      fewest blocks are crossed; the new structure stores the same positions of the lower triangle,
      in valid and sorted blocks, and is a complete factorization when the old one is. */
  method SplitSymbol(symb: Symbol, pm: SplitSmart.Params) returns (r: Symbol, ghost starts: seq<int>)
    requires Valid(symb) && symb.cblktab[0].fcolnum == 0 && SplitSmart.ParamsOk(pm)
    ensures SplitResult.SplitOf(symb, r, starts, pm) && (Closed(symb) ==> Closed(r))
    ensures forall row, col :: col <= row ==> (SplitProps.Stored(r, row, col) <==> SplitProps.Stored(symb, row, col))
  {
    var extra := new SplitSmart.ExtraCblk(symb.CblkNbr());
    SplitSmart.SplitSmart(symb, extra, pm);
    ghost var e := extra.Value();
    starts := SplitResult.Starts(e);
    if extra.addcblk == 0 {
      SplitResult.WholeIsSplit(symb, e, pm);
      r := symb;
      return;
    }
    SplitResult.MergedIsSplit(symb, e, pm);
    r := Merge.ExtraCblkMerge(symb, Split.Extra(extra.sptcblk, extra.sptcbnb, extra.cblktab[..extra.curcblk + 1]),
                              extra.addcblk);
    if Closed(symb) { SplitProps.ClosedStays(symb, e); }
    forall row, col | col <= row ensures SplitProps.Stored(r, row, col) <==> SplitProps.Stored(symb, row, col) {
      SplitProps.SamePositions(symb, e, row, col);
    }
  }

  /** candBuild and propMappTree: costs, levels and critical paths of the tree t, and intervals
      of candidates nested along it. */
  method MapCandidates(symb: Symbol, m: CostMatrix, nbcores: int, nocrossproc: bool, allcand: bool)
    returns (candtab: seq<Cand>, t: Tree)
    requires Valid(symb) && CostsFit(symb, m) && nbcores >= 1
    ensures |candtab| == symb.CblkNbr() + 1 == t.N() + 1 && ValidTree(t) && Fathers(t.nodetab) == FathersOf(symb)
    ensures Nested(t, candtab, nbcores - 1) && Interval(candtab, -1, 0, nbcores - 1)
    ensures forall d :: t.Has(d) ==> LevelOk(t, candtab, m.cblkcost, d)
    ensures AllLevels(t, candtab, m.cblkcost, SubSet(t, -1) - {-1})
    ensures AllCosted(t, t, m.cblkcost, SubSet(t, -1))
    ensures AllPathed(t, t, symb, m.blokcost, SubSet(t, -1)) && PathsLongest(t, symb, m.blokcost)
    ensures if allcand then PropMap.Everyone(t, candtab, nbcores - 1) else Shared(t, candtab, nbcores, nocrossproc)
  {
    var etree := new EliminTree(symb.CblkNbr());
    etree.Build(symb);
    ghost var t0 := etree.Value();
    SameShapeSelf(t0);
    var cands := new CandTab(etree, seq(symb.CblkNbr() + 1, _ => Cand(-1, -1, 0, 0.0)));
    ghost var c0 := cands.candtab;
    var total, path := cands.SubTreeBuild(-1, m.cblkcost, symb, m.blokcost, t0);
    t := etree.Value();
    PropMap.CostsAreValid(t0, t, m.cblkcost);
    assert SameCand(c0, cands.candtab, -1);
    var mapper := new PropMap.Mapper(t, nocrossproc, cands.candtab);
    mapper.MapTree(nbcores, allcand);
    candtab := mapper.candtab;
    Rebased(t0, t, symb, m.cblkcost, cands.candtab, candtab);
    RebasedPaths(t0, t, symb, m.blokcost);
    PathsAreLongest(t, symb, m.blokcost);
    forall d | t.Has(d) ensures LevelOk(t, candtab, m.cblkcost, d) {
      LevelsAreDepths(t, candtab, m.cblkcost, d);
      LevelsAreCosts(t, candtab, m.cblkcost, d);
    }
  }

  /** Without allcand the tree is mapped proportionally, from equal parts of its cost. */
  ghost predicate Shared(t: Tree, candtab: seq<Cand>, nbcores: int, nocrossproc: bool) {
    && PropRuns.ValidCosts(t) && |candtab| == t.N() + 1 && nbcores >= 1
    && PropRuns.Proportional(t, candtab, nocrossproc, -1, Shares.Const(nbcores, t.At(-1).subtree / nbcores as real))
    && PropRuns.FairSonsAreSingle(t, candtab, nbcores)
    && forall d :: t.Has(d) ==> PropRuns.SonsSeparate(t, candtab, nocrossproc, d)
  }

  /** The critical path stored in a node is the longest time of a chain of nodes that ends there. */
  ghost predicate PathsLongest(t: Tree, symb: Symbol, blokcost: seq<real>) {
    && |blokcost| == |symb.bloktab|
    && forall d :: t.Has(d) ==> LongestPath.Longest(t, symb, blokcost, d, t.At(d).cripath)
  }

  lemma PathsAreLongest(t: Tree, symb: Symbol, blokcost: seq<real>)
    requires ValidTree(t) && Valid(symb) && symb.CblkNbr() == t.N() && |blokcost| == |symb.bloktab|
    requires AllPathed(t, t, symb, blokcost, SubSet(t, -1))
    ensures PathsLongest(t, symb, blokcost)
  {
    forall d | t.Has(d) ensures LongestPath.Longest(t, symb, blokcost, d, t.At(d).cripath) {
      AllBelowRoot(t, d);
      assert Pathed(t, t, symb, blokcost, d);
      LongestPath.PathIsLongest(t, symb, blokcost, d);
    }
  }

  /** What the simulation asserts of the levels: below the root they are negative. They are the
      opposites of the depth and of the cost of the nodes above. */
  ghost predicate LevelOk(t: Tree, c: seq<Cand>, cblkcost: seq<real>, d: int)
    requires AllRise(t) && t.Has(d) && |c| == t.N() + 1 && |cblkcost| == t.N()
  {
    && c[d + 1].treelevel == -Depth(t, d) && c[d + 1].costlevel <= 0.0
    && c[d + 1].costlevel == -Whole(cblkcost, AboveOf(t, d))
  }

  /** Facts about the tree without costs hold of the tree with costs, and the mapping keeps levels. */
  lemma Rebased(t0: Tree, t: Tree, symb: Symbol, cblkcost: seq<real>, c: seq<Cand>, e: seq<Cand>)
    requires Valid(symb) && ValidTree(t0) && SameShape(t0, t) && Fathers(t0.nodetab) == FathersOf(symb)
             && |cblkcost| == t.N()
    requires |c| == t.N() + 1 && AllLevels(t0, c, cblkcost, SubSet(t0, -1) - {-1}) && PropMap.LevelsSame(c, e)
    requires AllCosted(t0, t, cblkcost, SubSet(t0, -1))
    ensures ValidTree(t) && Fathers(t.nodetab) == FathersOf(symb)
    ensures AllLevels(t, e, cblkcost, SubSet(t, -1) - {-1}) && AllCosted(t, t, cblkcost, SubSet(t, -1))
    ensures e[0].treelevel == c[0].treelevel && e[0].costlevel == c[0].costlevel
  {
    ShapeIsValid(t0, t);
    assert Fathers(t.nodetab) == Fathers(t0.nodetab);
    ShapeSubSet(t0, t, -1);
    assert PropMap.LevelSame(c[0], e[0]);
    forall d | d in SubSet(t, -1) - {-1} && 0 <= d < t.N() ensures t.Rises(d) && Level(t, e, cblkcost, d) {
      assert t0.Rises(d) && Level(t0, c, cblkcost, d);
      var k, f := d + 1, t0.Father(d) + 1;
      assert PropMap.LevelSame(c[k], e[k]) && PropMap.LevelSame(c[f], e[f]);
    }
    forall d | d in SubSet(t, -1) && t.Has(d) ensures Costed(t, t, cblkcost, d) {
      assert Costed(t0, t, cblkcost, d);
      ShapeSubSet(t0, t, d);
    }
  }

  /** Critical paths depend on the links of the tree only. */
  lemma RebasedPaths(t0: Tree, t: Tree, symb: Symbol, blokcost: seq<real>)
    requires ValidTree(t0) && ValidTree(t) && SameShape(t0, t) && Valid(symb) && symb.CblkNbr() == t0.N()
             && |blokcost| == |symb.bloktab|
    requires AllPathed(t0, t, symb, blokcost, SubSet(t0, -1))
    ensures AllPathed(t, t, symb, blokcost, SubSet(t, -1))
  {
    ShapeSubSet(t0, t, -1);
    forall d | d in SubSet(t, -1) && t.Has(d) ensures Pathed(t, t, symb, blokcost, d) {
      assert Pathed(t0, t, symb, blokcost, d);
      assert SameLinks(t0.nodetab[d + 1], t.nodetab[d + 1]);
      assert SlicesOk(t0, d);
      SamePath(t0, t, symb, blokcost, d, t0.At(d).sonsnbr);
    }
  }

  lemma SameSon(t0: Tree, t: Tree, d: int, i: int)
    requires ValidTree(t0) && ValidTree(t) && SameShape(t0, t) && t0.Has(d) && 0 <= i < t0.At(d).sonsnbr
    ensures SlicesOk(t0, d) && SliceOk(t0, d) && SliceOk(t, d) && SonI(t, d, i) == SonI(t0, d, i)
    ensures var son := SonI(t0, d, i);
            t0.Has(son) && t.Has(son) && Below(t0, son) < Below(t0, d) && SlicesOk(t0, son)
            && t0.At(son).sonsnbr == t.At(son).sonsnbr
  {
    assert SlicesOk(t0, d) && SlicesOk(t, d) && EntryOk(t0, d, i) && SameLinks(t0.nodetab[d + 1], t.nodetab[d + 1]);
    var son := SonI(t0, d, i);
    assert t0.Rises(son) && SlicesOk(t0, son) && SameLinks(t0.nodetab[son + 1], t.nodetab[son + 1]);
  }

  lemma SamePathNext(t0: Tree, t: Tree, symb: Symbol, blokcost: seq<real>, d: int, k: int, i: int, son: int)
    requires ValidTree(t0) && ValidTree(t) && SameShape(t0, t) && Valid(symb) && symb.CblkNbr() == t0.N()
             && |blokcost| == |symb.bloktab|
    requires t0.Has(d) && 0 <= k < i == k + 1 <= t0.At(d).sonsnbr == t.At(d).sonsnbr
    requires SonsPath(t, symb, blokcost, d, k) == SonsPath(t0, symb, blokcost, d, k)
    requires SliceOk(t0, d) && SliceOk(t, d) && SonI(t0, d, k) == SonI(t, d, k) == son && t0.Has(son)
    requires t0.At(son).sonsnbr == t.At(son).sonsnbr >= 0
    requires SonsPath(t, symb, blokcost, son, t.At(son).sonsnbr)
             == SonsPath(t0, symb, blokcost, son, t0.At(son).sonsnbr)
    ensures SonsPath(t, symb, blokcost, d, i) == SonsPath(t0, symb, blokcost, d, i)
  {
  }

  lemma {:induction false} SamePath(t0: Tree, t: Tree, symb: Symbol, blokcost: seq<real>, d: int, i: int)
    requires ValidTree(t0) && ValidTree(t) && SameShape(t0, t) && Valid(symb) && symb.CblkNbr() == t0.N()
             && |blokcost| == |symb.bloktab|
    requires t0.Has(d) && 0 <= i <= t0.At(d).sonsnbr == t.At(d).sonsnbr
    ensures SonsPath(t, symb, blokcost, d, i) == SonsPath(t0, symb, blokcost, d, i)
    decreases Below(t0, d), i
  {
    if i > 0 {
      var k := i - 1;
      SamePath(t0, t, symb, blokcost, d, k);
      SameSon(t0, t, d, k);
      var son := SonI(t0, d, k);
      SamePath(t0, t, symb, blokcost, son, t0.At(son).sonsnbr);
      SamePathNext(t0, t, symb, blokcost, d, k, i, son);
    }
  }

  /** costMatrixBuild: costs of the column blocks and of the blocks of a structure. */
  datatype CostMatrix = CostMatrix(cblkcost: seq<real>, blokcost: seq<real>)

  ghost predicate CostsFit(s: Symbol, m: CostMatrix) {
    && |m.cblkcost| == s.CblkNbr() && |m.blokcost| == |s.bloktab|
    && (forall i :: 0 <= i < |m.cblkcost| ==> m.cblkcost[i] > 0.0)
    && (forall b :: 0 <= b < |m.blokcost| ==> m.blokcost[b] >= 0.0)
  }

  /** What the analysis of symb establishes: intervals of candidates nested along the
      tree t of the structure, which pass the check when the factorization is complete, and the
      complete schedule for these intervals that a run of the main loop leaves, at least as long as
      the critical path. */
  ghost predicate Analyzed(simu: Simulation.Simulation, symb: Symbol, m: CostMatrix, nbcores: int, nocrossproc: bool,
                           allcand: bool, candtab: seq<Cand>, t: Tree, run: Turns.Run)
    requires nbcores >= 1
    reads simu
  {
    && Valid(symb) && CostsFit(symb, m) && simu.pb.symb == symb && simu.pb.nbcores == nbcores
       && simu.pb.blokcost == m.blokcost
    && ValidTree(t) && Fathers(t.nodetab) == FathersOf(symb) && t.N() == symb.CblkNbr()
    && |candtab| == t.N() + 1 && simu.pb.cand == candtab[1..] && Nested(t, candtab, nbcores - 1)
    && (if allcand then PropMap.Everyone(t, candtab, nbcores - 1) else Shared(t, candtab, nbcores, nocrossproc))
    && PathsLongest(t, symb, m.blokcost)
    && (Closed(symb) ==> forall i :: 0 <= i < symb.CblkNbr() ==> ColumnFaces(symb, candtab, i, symb.Last(i)))
    && Makespan.Complete(simu.pb, simu.ownetab, simu.prionum, simu.tasktab, simu.time, simu.start, simu.timer,
                         simu.predtime)
    && Turns.RunEnds(simu.pb, simu.eagerPop, run, simu.TablesNow())
    && (t.N() > 0 ==> CriPath(t, symb, m.blokcost, -1) <= simu.predtime)
  }

  /** The analysis once the structure is split. The debug check of the candidates cannot fail
      for a complete factorization; an incomplete one (ricar) is simulated all the same. */
  method Analyze(symb: Symbol, m: CostMatrix, nbcores: int, nocrossproc: bool, allcand: bool, ricar: bool,
                 eagerPop: bool)
    returns (simu: Simulation.Simulation, candtab: seq<Cand>, ghost t: Tree, ghost run: Turns.Run)
    requires Valid(symb) && CostsFit(symb, m) && nbcores >= 1 && (!ricar ==> Closed(symb))
    ensures Analyzed(simu, symb, m, nbcores, nocrossproc, allcand, candtab, t, run) && simu.eagerPop == eagerPop
  {
    var tree;
    candtab, tree := MapCandidates(symb, m, nbcores, nocrossproc, allcand);
    t := tree;
    var ok := CandCheck(symb, candtab);
    if Closed(symb) { NestedPasses(symb, t, candtab, nbcores - 1); }
    assert !ricar ==> ok;
    var cand := candtab[1..];
    forall c | 0 <= c < |cand| ensures 0 <= cand[c].fcandnum <= cand[c].lcandnum < nbcores {
      assert Inside(candtab, c, 0, nbcores - 1);
    }
    var pb := Schedule.Problem(symb, cand, m.blokcost, nbcores, ricar);
    simu := new Simulation.Simulation(pb, eagerPop);
    run := simu.Run();
    if t.N() > 0 {
      CriticalPath.CriPathBound(pb, simu.ownetab, simu.prionum, simu.tasktab, simu.time, simu.start, simu.timer,
                                simu.predtime, t);
    }
  }

  /** The analysis with its first step, for any cost model that fits the structure it is given. */
  method SplitAndAnalyze(symb: Symbol, pm: SplitSmart.Params, costs: Symbol -> CostMatrix, nbcores: int,
                         nocrossproc: bool, allcand: bool, ricar: bool, eagerPop: bool)
    returns (simu: Simulation.Simulation, candtab: seq<Cand>, ghost t: Tree, ghost run: Turns.Run,
             ghost starts: seq<int>)
    requires Valid(symb) && symb.cblktab[0].fcolnum == 0 && SplitSmart.ParamsOk(pm) && nbcores >= 1
             && (!ricar ==> Closed(symb))
    requires forall s :: Valid(s) ==> CostsFit(s, costs(s))
    ensures Analyzed(simu, simu.pb.symb, costs(simu.pb.symb), nbcores, nocrossproc, allcand, candtab, t, run)
            && simu.eagerPop == eagerPop
            && (Closed(symb) ==> Closed(simu.pb.symb))
    ensures SplitResult.SplitOf(symb, simu.pb.symb, starts, pm)
    ensures forall row, col :: col <= row ==>
              (SplitProps.Stored(simu.pb.symb, row, col) <==> SplitProps.Stored(symb, row, col))
  {
    var newsymb, pieces := SplitSymbol(symb, pm);
    starts := pieces;
    var m := costs(newsymb);
    assert CostsFit(newsymb, m);
    simu, candtab, t, run := Analyze(newsymb, m, nbcores, nocrossproc, allcand, ricar, eagerPop);
  }
}

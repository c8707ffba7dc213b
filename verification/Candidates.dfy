/** Costs and levels of the elimination tree, as blend/cand.c computes them, and its check of
    the candidate intervals. */
module Candidates {
  import opened SymbolMatrix
  import opened ElimTree
  import opened Contributions

  /** Candidate processors, tree level and cost of the path to the root (blend/cand.h). */
  datatype Cand = Cand(fcandnum: int, lcandnum: int, treelevel: int, costlevel: real)

  // ----- Sums over sets of nodes -----

  function CostAt(cblkcost: seq<real>, d: int): real
    requires -1 <= d < |cblkcost|
  {
    if d == -1 then 0.0 else cblkcost[d]
  }

  /** Sum of the costs of the nodes of s before k. */
  ghost function SumOf(cblkcost: seq<real>, s: set<int>, k: int): real
    requires -1 <= k <= |cblkcost|
    decreases k
  {
    if k == -1 then 0.0 else SumOf(cblkcost, s, k - 1) + if k - 1 in s then CostAt(cblkcost, k - 1) else 0.0
  }

  lemma {:induction false} SumOfUnion(cblkcost: seq<real>, s: set<int>, u: set<int>, k: int)
    requires -1 <= k <= |cblkcost| && s !! u
    ensures SumOf(cblkcost, s + u, k) == SumOf(cblkcost, s, k) + SumOf(cblkcost, u, k)
    decreases k
  {
    if k > -1 { SumOfUnion(cblkcost, s, u, k - 1); }
  }

  lemma {:induction false} SumOfOne(cblkcost: seq<real>, d: int, k: int)
    requires -1 <= k <= |cblkcost| && -1 <= d < |cblkcost|
    ensures SumOf(cblkcost, {d}, k) == if d < k then CostAt(cblkcost, d) else 0.0
    decreases k
  {
    if k > -1 { SumOfOne(cblkcost, d, k - 1); }
  }

  /** Cost of a subtree: the costs of all its nodes. */
  ghost function Whole(cblkcost: seq<real>, s: set<int>): real {
    SumOf(cblkcost, s, |cblkcost|)
  }

  lemma WholeUnion(cblkcost: seq<real>, s: set<int>, u: set<int>)
    requires s !! u
    ensures Whole(cblkcost, s + u) == Whole(cblkcost, s) + Whole(cblkcost, u)
  {
    SumOfUnion(cblkcost, s, u, |cblkcost|);
  }

  lemma WholeOne(cblkcost: seq<real>, d: int)
    requires -1 <= d < |cblkcost|
    ensures Whole(cblkcost, {d}) == CostAt(cblkcost, d)
  {
    SumOfOne(cblkcost, d, |cblkcost|);
  }

  // ----- Costs and levels -----

  /** Total is the cost of the node and subtree that of all its descendants. */
  ghost predicate Costed(t0: Tree, t: Tree, cblkcost: seq<real>, d: int)
    requires AllRise(t0) && t.Has(d) && |cblkcost| == t.N()
  {
    t.At(d).total == CostAt(cblkcost, d) && t.At(d).subtree == Whole(cblkcost, SubSet(t0, d))
  }
  ghost predicate AllCosted(t0: Tree, t: Tree, cblkcost: seq<real>, s: set<int>)
    requires AllRise(t0) && |cblkcost| == t.N()
  {
    forall d :: d in s && t.Has(d) ==> Costed(t0, t, cblkcost, d)
  }

  /** One level below the father, and further from the root by the cost of the father. */
  predicate Level(t: Tree, cand: seq<Cand>, cblkcost: seq<real>, d: int)
    requires 0 <= d < t.N() && t.Rises(d) && |cand| == t.N() + 1 && |cblkcost| == t.N()
  {
    var f := t.Father(d);
    && cand[d + 1].treelevel == cand[f + 1].treelevel - 1
    && cand[d + 1].costlevel == cand[f + 1].costlevel - CostAt(cblkcost, f)
  }
  ghost predicate AllLevels(t: Tree, cand: seq<Cand>, cblkcost: seq<real>, s: set<int>)
    requires AllRise(t) && |cand| == t.N() + 1 && |cblkcost| == t.N()
  {
    forall d :: d in s && 0 <= d < t.N() ==> t.Rises(d) && Level(t, cand, cblkcost, d)
  }
  predicate SameCand(c: seq<Cand>, e: seq<Cand>, d: int) requires -1 <= d < |c| - 1 && |c| == |e| {
    c[d + 1] == e[d + 1]
  }
  ghost predicate CandKept(c: seq<Cand>, e: seq<Cand>, s: set<int>) {
    |c| == |e| && forall d :: -1 <= d < |c| - 1 && d !in s ==> SameCand(c, e, d)
  }


  /** The state of the recursion on node r once its first i sons are done. */
  ghost predicate SonsBuilt(t0: Tree, t: Tree, c0: seq<Cand>, c: seq<Cand>, cblkcost: seq<real>, r: int, i: int)
    requires ValidTree(t0) && t0.Has(r) && |cblkcost| == t0.N() && |c0| == t0.N() + 1
  {
    var u := Under(t0, r, Indices(i));
    && SameShape(t0, t) && |c| == |c0|
    && AllCosted(t0, t, cblkcost, u) && AllLevels(t0, c, cblkcost, u) && CandKept(c0, c, u)
    && t.At(r).total == CostAt(cblkcost, r) && t.At(r).subtree == CostAt(cblkcost, r) + Whole(cblkcost, u)
  }

  lemma LevelsKept(t: Tree, c: seq<Cand>, e: seq<Cand>, cblkcost: seq<real>, r: int, p: set<int>, s: set<int>)
    requires ValidTree(t) && t.Has(r) && |c| == |e| == t.N() + 1 && |cblkcost| == t.N()
    requires AllLevels(t, c, cblkcost, Under(t, r, p)) && CandKept(c, e, s) && s !! Under(t, r, p) && r !in s
    ensures AllLevels(t, e, cblkcost, Under(t, r, p))
  {
    forall d | d in Under(t, r, p) && 0 <= d < t.N() ensures t.Rises(d) && Level(t, e, cblkcost, d) {
      assert t.Rises(d) && Level(t, c, cblkcost, d) && SameCand(c, e, d);
      FatherUnder(t, r, p, d);
      assert SameCand(c, e, t.Father(d));
    }
  }

  lemma FatherUnder(t: Tree, r: int, p: set<int>, d: int)
    requires ValidTree(t) && t.Has(r) && d in Under(t, r, p) && 0 <= d
    ensures t.Has(t.Father(d)) && (t.Father(d) == r || t.Father(d) in Under(t, r, p))
  {
    assert t.Rises(d);
    var i :| i in p && InBranch(t, d, r, i);
    assert SlicesOk(t, r) && EntryOk(t, r, i);
    if d != SonI(t, r, i) { assert InBranch(t, t.Father(d), r, i); }
  }

  /** One more son. */
  lemma SonBuilt(t0: Tree, t: Tree, t1: Tree, t2: Tree, c0: seq<Cand>, c: seq<Cand>, c1: seq<Cand>, c2: seq<Cand>,
                 cblkcost: seq<real>, r: int, i: int, son: int)
    requires ValidTree(t0) && t0.Has(r) && |cblkcost| == t0.N() && |c0| == t0.N() + 1
    requires SonsBuilt(t0, t, c0, c, cblkcost, r, i) && 0 <= i < t0.At(r).sonsnbr && SliceOk(t0, r)
             && son == SonI(t0, r, i)
    requires t0.Has(son) && SameShape(t0, t1) && Untouched(t, t1, SubSet(t0, son))
             && AllCosted(t0, t1, cblkcost, SubSet(t0, son))
    requires |c1| == |c2| == |c| && CandKept(c, c1, {son}) && CandKept(c1, c2, SubSet(t0, son) - {son})
    requires c1[son + 1].treelevel == c[r + 1].treelevel - 1
             && c1[son + 1].costlevel == c[r + 1].costlevel - CostAt(cblkcost, r)
    requires AllLevels(t0, c2, cblkcost, SubSet(t0, son) - {son})
    requires t2 == t1.(nodetab := t1.nodetab[r + 1 := t1.At(r).(subtree :=
                       t1.At(r).subtree + Whole(cblkcost, SubSet(t0, son)))])
    ensures SonsBuilt(t0, t2, c0, c2, cblkcost, r, i + 1)
  {
    var p, s := Indices(i), SubSet(t0, son);
    var u := Under(t0, r, p);
    UnderMore(t0, r, p, i);
    assert Indices(i + 1) == p + {i};
    WholeUnion(cblkcost, u, s);
    assert Same(t, t1, r);
    assert SameShape(t0, t2) by {
      forall k | 0 <= k < |t0.nodetab| ensures SameLinks(t0.nodetab[k], t2.nodetab[k]) {
        assert SameLinks(t0.nodetab[k], t1.nodetab[k]);
      }
    }
    forall d | d in u + s && t2.Has(d) ensures Costed(t0, t2, cblkcost, d) {
      if d in s { assert Costed(t0, t1, cblkcost, d); } else { assert Same(t, t1, d) && Costed(t0, t, cblkcost, d); }
    }
    forall d | t0.Has(d) && d !in s ensures SameCand(c, c2, d) { assert SameCand(c, c1, d) && SameCand(c1, c2, d); }
    LevelsKept(t0, c, c2, cblkcost, r, p, s);
    SonLevel(t0, c, c1, c2, cblkcost, r, i, son);
    forall d | t0.Has(d) && d !in u + s ensures SameCand(c0, c2, d) { assert SameCand(c0, c, d) && SameCand(c, c2, d); }
  }

  lemma SonLevel(t0: Tree, c: seq<Cand>, c1: seq<Cand>, c2: seq<Cand>, cblkcost: seq<real>, r: int, i: int, son: int)
    requires ValidTree(t0) && t0.Has(r) && |cblkcost| == t0.N() && |c| == |c1| == |c2| == t0.N() + 1
    requires 0 <= i < t0.At(r).sonsnbr && SliceOk(t0, r) && son == SonI(t0, r, i) && t0.Has(son)
    requires CandKept(c, c1, {son}) && CandKept(c1, c2, SubSet(t0, son) - {son})
    requires c1[son + 1].treelevel == c[r + 1].treelevel - 1
             && c1[son + 1].costlevel == c[r + 1].costlevel - CostAt(cblkcost, r)
    requires AllLevels(t0, c2, cblkcost, SubSet(t0, son) - {son}) && r !in SubSet(t0, son)
    ensures AllLevels(t0, c2, cblkcost, SubSet(t0, son))
  {
    assert SlicesOk(t0, r) && EntryOk(t0, r, i) && t0.Rises(son);
    assert SameCand(c1, c2, son) && SameCand(c, c1, r) && SameCand(c1, c2, r);
  }

  // ----- Critical path -----

  /** End of the blocks that face the same column block as the first off-diagonal one. */
  function LeadEnd(s: Symbol, d: int, b: int): (e: int)
    requires Valid(s) && 0 <= d < s.CblkNbr() && s.First(d) < b <= s.Last(d)
    ensures 0 <= s.First(d) < b <= e <= s.Last(d) <= |s.bloktab|
    ensures forall x :: b <= x < e ==> s.bloktab[x].fcblknm == s.bloktab[s.First(d) + 1].fcblknm
    decreases s.Last(d) - b
  {
    assert ValidColumn(s, d);
    if b < s.Last(d) && s.bloktab[b].fcblknm == s.bloktab[s.First(d) + 1].fcblknm then LeadEnd(s, d, b + 1) else b
  }

  /** Time from the start of d to the last of its first updates of the father. */
  ghost function Lead(s: Symbol, blokcost: seq<real>, d: int): real
    requires Valid(s) && -1 <= d < s.CblkNbr() && |blokcost| == |s.bloktab|
  {
    if d == -1 then 0.0
    else assert ValidColumn(s, d); SumCost(blokcost, s.First(d), LeadEnd(s, d, s.First(d) + 1))
  }

  /** Longest path of leads from a leaf up to d, included. */
  ghost function CriPath(t: Tree, s: Symbol, blokcost: seq<real>, d: int): real
    requires ValidTree(t) && t.Has(d) && Valid(s) && s.CblkNbr() == t.N() && |blokcost| == |s.bloktab|
    decreases Below(t, d), t.N() + 1
  {
    assert SlicesOk(t, d);
    SonsCount(t, d);
    SonsPath(t, s, blokcost, d, t.At(d).sonsnbr) + Lead(s, blokcost, d)
  }

  /** The largest over the first i sons. */
  ghost function SonsPath(t: Tree, s: Symbol, blokcost: seq<real>, d: int, i: int): real
    requires ValidTree(t) && t.Has(d) && Valid(s) && s.CblkNbr() == t.N() && |blokcost| == |s.bloktab|
    requires 0 <= i <= t.At(d).sonsnbr
    decreases Below(t, d), i
  {
    if i == 0 then 0.0
    else
      assert SlicesOk(t, d) && EntryOk(t, d, i - 1) && t.Rises(SonI(t, d, i - 1));
      var x, y := SonsPath(t, s, blokcost, d, i - 1), CriPath(t, s, blokcost, SonI(t, d, i - 1));
      if x > y then x else y
  }

  lemma SonsCount(t: Tree, d: int)
    requires ValidTree(t) && t.Has(d)
    ensures t.At(d).sonsnbr <= t.N()
  {
    assert SlicesOk(t, d);
  }

  ghost predicate Pathed(t0: Tree, t: Tree, s: Symbol, blokcost: seq<real>, d: int)
    requires ValidTree(t0) && t0.Has(d) && t.Has(d) && Valid(s) && s.CblkNbr() == t0.N() && |blokcost| == |s.bloktab|
  {
    t.At(d).cripath == CriPath(t0, s, blokcost, d)
  }
  ghost predicate AllPathed(t0: Tree, t: Tree, s: Symbol, blokcost: seq<real>, u: set<int>)
    requires ValidTree(t0) && t.N() == t0.N() && Valid(s) && s.CblkNbr() == t0.N() && |blokcost| == |s.bloktab|
  {
    forall d :: d in u && t0.Has(d) ==> Pathed(t0, t, s, blokcost, d)
  }

  /** One more son. */
  lemma PathsNext(t0: Tree, t: Tree, t1: Tree, t2: Tree, s: Symbol, blokcost: seq<real>, r: int, i: int, son: int)
    requires ValidTree(t0) && t0.Has(r) && Valid(s) && s.CblkNbr() == t0.N() && |blokcost| == |s.bloktab|
    requires t.N() == t1.N() == t2.N() == t0.N() && 0 <= i < t0.At(r).sonsnbr && SliceOk(t0, r) && son == SonI(t0, r, i)
    requires AllPathed(t0, t, s, blokcost, Under(t0, r, Indices(i))) && Untouched(t, t1, SubSet(t0, son))
    requires AllPathed(t0, t1, s, blokcost, SubSet(t0, son)) && forall d :: t1.Has(d) && d != r ==> Same(t1, t2, d)
    ensures AllPathed(t0, t2, s, blokcost, Under(t0, r, Indices(i + 1)))
  {
    UnderMore(t0, r, Indices(i), i);
    assert Indices(i + 1) == Indices(i) + {i};
    forall d | d in Under(t0, r, Indices(i + 1)) && t0.Has(d) ensures Pathed(t0, t2, s, blokcost, d) {
      assert Same(t1, t2, d);
      if d in SubSet(t0, son) {
        assert Pathed(t0, t1, s, blokcost, d);
      } else {
        assert Same(t, t1, d) && Pathed(t0, t, s, blokcost, d);
      }
    }
  }

  /** The root of the subtree gets its own path last. */
  lemma PathsDone(t0: Tree, t: Tree, t1: Tree, s: Symbol, blokcost: seq<real>, r: int, n: int)
    requires ValidTree(t0) && t0.Has(r) && Valid(s) && s.CblkNbr() == t0.N() && |blokcost| == |s.bloktab|
    requires t.N() == t1.N() == t0.N() && n == t0.At(r).sonsnbr
    requires AllPathed(t0, t, s, blokcost, Under(t0, r, Indices(n)))
    requires t1 == t.(nodetab := t.nodetab[r + 1 := t.At(r).(cripath := CriPath(t0, s, blokcost, r))])
    ensures AllPathed(t0, t1, s, blokcost, SubSet(t0, r))
  {
    UnderAll(t0, r, Indices(n));
    forall d | d in SubSet(t0, r) && t0.Has(d) ensures Pathed(t0, t1, s, blokcost, d) {
      if d != r { assert Pathed(t0, t, s, blokcost, d); }
    }
  }

  lemma CostsKept(t0: Tree, t: Tree, t1: Tree, was: Tree, cblkcost: seq<real>, r: int, path: real)
    requires ValidTree(t0) && t0.Has(r) && SameShape(t0, t) && |cblkcost| == t0.N() && was.N() == t0.N()
    requires AllCosted(t0, t, cblkcost, SubSet(t0, r)) && Untouched(was, t, SubSet(t0, r))
    requires t1 == t.(nodetab := t.nodetab[r + 1 := t.At(r).(cripath := path)])
    ensures SameShape(t0, t1) && AllCosted(t0, t1, cblkcost, SubSet(t0, r)) && Untouched(was, t1, SubSet(t0, r))
  {
    forall k | 0 <= k < |t0.nodetab| ensures SameLinks(t0.nodetab[k], t1.nodetab[k]) {
      assert SameLinks(t0.nodetab[k], t.nodetab[k]);
    }
    forall d | d in SubSet(t0, r) && t1.Has(d) ensures Costed(t0, t1, cblkcost, d) {
      assert Costed(t0, t, cblkcost, d);
    }
    forall d | was.Has(d) && d !in SubSet(t0, r) ensures Same(was, t1, d) { assert Same(was, t, d); }
  }

  class CandTab {
    const etree: EliminTree
    var candtab: seq<Cand>

    constructor (etree: EliminTree, candtab: seq<Cand>)
      ensures this.etree == etree && this.candtab == candtab
    {
      this.etree := etree;
      this.candtab := candtab;
    }

    ghost predicate Ready(t0: Tree, r: int, cblkcost: seq<real>)
      reads this, etree
    {
      ValidTree(t0) && t0.Has(r) && SameShape(t0, etree.Value()) && |cblkcost| == t0.N() && |candtab| == t0.N() + 1
    }

    /** The structure and the costs of its blocks fit the tree. */
    ghost predicate Fits(t0: Tree, symb: Symbol, blokcost: seq<real>)
    {
      Valid(symb) && symb.CblkNbr() == t0.N() && |blokcost| == |symb.bloktab|
    }

    /** candSubTreeBuild: costs, levels and critical paths of a subtree, and nothing else. */
    method SubTreeBuild(rootnum: int, cblkcost: seq<real>, symb: Symbol, blokcost: seq<real>, ghost t0: Tree)
      returns (subtree: real, cripath: real)
      requires Ready(t0, rootnum, cblkcost) && Fits(t0, symb, blokcost)
      modifies this`candtab, etree`nodetab
      ensures Ready(t0, rootnum, cblkcost) && subtree == Whole(cblkcost, SubSet(t0, rootnum))
      ensures AllCosted(t0, etree.Value(), cblkcost, SubSet(t0, rootnum))
      ensures cripath == CriPath(t0, symb, blokcost, rootnum)
      ensures AllPathed(t0, etree.Value(), symb, blokcost, SubSet(t0, rootnum))
      ensures Untouched(old(etree.Value()), etree.Value(), SubSet(t0, rootnum))
      ensures AllLevels(t0, candtab, cblkcost, SubSet(t0, rootnum) - {rootnum})
      ensures CandKept(old(candtab), candtab, SubSet(t0, rootnum) - {rootnum})
      decreases Below(t0, rootnum), 1
    {
      ghost var was, c0 := etree.Value(), candtab;
      StartNode(rootnum, cblkcost, t0);
      var i, sonsnbr, mycp := 0, etree.nodetab[rootnum + 1].sonsnbr, 0.0;
      assert SlicesOk(t0, rootnum);
      assert Under(t0, rootnum, Indices(0)) == {};
      while i < sonsnbr
        invariant 0 <= i <= sonsnbr == t0.At(rootnum).sonsnbr && Ready(t0, rootnum, cblkcost)
        invariant SonsBuilt(t0, etree.Value(), c0, candtab, cblkcost, rootnum, i)
        invariant Untouched(was, etree.Value(), Under(t0, rootnum, Indices(i)) + {rootnum})
        invariant mycp == SonsPath(t0, symb, blokcost, rootnum, i)
        invariant AllPathed(t0, etree.Value(), symb, blokcost, Under(t0, rootnum, Indices(i)))
      {
        mycp := BuildSon(rootnum, i, mycp, cblkcost, symb, blokcost, t0, was, c0);
        i := i + 1;
      }
      subtree := etree.nodetab[rootnum + 1].subtree;
      Finish(t0, etree.Value(), c0, candtab, cblkcost, rootnum, sonsnbr);
      cripath := SetPath(rootnum, mycp, cblkcost, symb, blokcost, t0, was);
    }

    /** Adds the lead of the node to the path of its sons. */
    method SetPath(rootnum: int, mycp: real, ghost cblkcost: seq<real>, symb: Symbol, blokcost: seq<real>,
                   ghost t0: Tree, ghost was: Tree)
      returns (cripath: real)
      requires Ready(t0, rootnum, cblkcost) && Fits(t0, symb, blokcost) && was.N() == t0.N()
      requires AllCosted(t0, etree.Value(), cblkcost, SubSet(t0, rootnum))
               && Untouched(was, etree.Value(), SubSet(t0, rootnum))
      requires AllPathed(t0, etree.Value(), symb, blokcost, Under(t0, rootnum, Indices(t0.At(rootnum).sonsnbr)))
      requires 0 <= t0.At(rootnum).sonsnbr && mycp == SonsPath(t0, symb, blokcost, rootnum, t0.At(rootnum).sonsnbr)
      modifies etree`nodetab
      ensures Ready(t0, rootnum, cblkcost) && cripath == CriPath(t0, symb, blokcost, rootnum)
      ensures AllCosted(t0, etree.Value(), cblkcost, SubSet(t0, rootnum))
              && Untouched(was, etree.Value(), SubSet(t0, rootnum))
      ensures AllPathed(t0, etree.Value(), symb, blokcost, SubSet(t0, rootnum))
    {
      cripath := AddLead(rootnum, mycp, symb, blokcost);
      ghost var t := etree.Value();
      etree.nodetab := etree.nodetab[rootnum + 1 := etree.nodetab[rootnum + 1].(cripath := cripath)];
      PathsDone(t0, t, etree.Value(), symb, blokcost, rootnum, t0.At(rootnum).sonsnbr);
      CostsKept(t0, t, etree.Value(), was, cblkcost, rootnum, cripath);
    }

    /** Factorization, solve and the first updates, all of one column block. */
    method AddLead(rootnum: int, mycp: real, symb: Symbol, blokcost: seq<real>) returns (cripath: real)
      requires Valid(symb) && -1 <= rootnum < symb.CblkNbr() && |blokcost| == |symb.bloktab|
      ensures cripath == mycp + Lead(symb, blokcost, rootnum)
    {
      cripath := mycp;
      if rootnum >= 0 {
        assert ValidColumn(symb, rootnum);
        var bloknum := symb.cblktab[rootnum].bloknum;
        ghost var first := bloknum;
        cripath := cripath + blokcost[bloknum];
        assert SumCost(blokcost, first, first) == 0.0;
        bloknum := bloknum + 1;
        if bloknum < symb.cblktab[rootnum + 1].bloknum {
          var fcblknm := symb.bloktab[bloknum].fcblknm;
          while bloknum < symb.cblktab[rootnum + 1].bloknum && fcblknm == symb.bloktab[bloknum].fcblknm
            invariant first < bloknum <= symb.Last(rootnum) && cripath == mycp + SumCost(blokcost, first, bloknum)
            invariant LeadEnd(symb, rootnum, bloknum) == LeadEnd(symb, rootnum, first + 1)
          {
            cripath := cripath + blokcost[bloknum];
            bloknum := bloknum + 1;
          }
        }
      }
    }

    /** Level of son i, then its subtree, then its cost added to that of the node. */
    method BuildSon(rootnum: int, i: int, mycp0: real, cblkcost: seq<real>, symb: Symbol, blokcost: seq<real>,
                    ghost t0: Tree, ghost was: Tree, ghost c0: seq<Cand>)
      returns (mycp: real)
      requires Fits(t0, symb, blokcost)
      requires Ready(t0, rootnum, cblkcost) && 0 <= i < t0.At(rootnum).sonsnbr && was.N() == t0.N()
               && |c0| == t0.N() + 1
      requires SonsBuilt(t0, etree.Value(), c0, candtab, cblkcost, rootnum, i)
      requires Untouched(was, etree.Value(), Under(t0, rootnum, Indices(i)) + {rootnum})
      requires mycp0 == SonsPath(t0, symb, blokcost, rootnum, i)
      requires AllPathed(t0, etree.Value(), symb, blokcost, Under(t0, rootnum, Indices(i)))
      modifies this`candtab, etree`nodetab
      ensures Ready(t0, rootnum, cblkcost) && SonsBuilt(t0, etree.Value(), c0, candtab, cblkcost, rootnum, i + 1)
      ensures Untouched(was, etree.Value(), Under(t0, rootnum, Indices(i + 1)) + {rootnum})
      ensures mycp == SonsPath(t0, symb, blokcost, rootnum, i + 1)
      ensures AllPathed(t0, etree.Value(), symb, blokcost, Under(t0, rootnum, Indices(i + 1)))
      decreases Below(t0, rootnum), 0
    {
      ghost var t, c := etree.Value(), candtab;
      var son := Son(rootnum, i, cblkcost, t0);
      var cost := CostAt(cblkcost, rootnum);
      var up := candtab[rootnum + 1];
      candtab := candtab[son + 1 := candtab[son + 1].(treelevel := up.treelevel - 1, costlevel := up.costlevel - cost)];
      ghost var c1 := candtab;
      var soncost, soncp := SubTreeBuild(son, cblkcost, symb, blokcost, t0);
      mycp := if mycp0 > soncp then mycp0 else soncp;
      ghost var t1 := etree.Value();
      etree.nodetab :=
          etree.nodetab[rootnum + 1 :=
              etree.nodetab[rootnum + 1].(subtree := etree.nodetab[rootnum + 1].subtree + soncost)];
      SonBuilt(t0, t, t1, etree.Value(), c0, c, c1, candtab, cblkcost, rootnum, i, son);
      UntouchedNext(t0, was, t, t1, etree.Value(), rootnum, i, son);
      PathsNext(t0, t, t1, etree.Value(), symb, blokcost, rootnum, i, son);
    }

    /** eTreeSonI. */
    method Son(rootnum: int, i: int, ghost cblkcost: seq<real>, ghost t0: Tree) returns (son: int)
      requires Ready(t0, rootnum, cblkcost) && 0 <= i < t0.At(rootnum).sonsnbr
      ensures SlicesOk(t0, rootnum) && son == SonI(t0, rootnum, i) && 0 <= son < t0.N() && son != rootnum
      ensures Below(t0, son) < Below(t0, rootnum)
    {
      assert SlicesOk(t0, rootnum) && EntryOk(t0, rootnum, i);
      ghost var k := rootnum + 1;
      assert SameLinks(t0.nodetab[k], etree.nodetab[k]);
      son := etree.sonstab[etree.nodetab[rootnum + 1].fsonnum + i];
      assert t0.Rises(son);
    }

    method StartNode(rootnum: int, cblkcost: seq<real>, ghost t0: Tree)
      requires Ready(t0, rootnum, cblkcost)
      modifies etree`nodetab
      ensures Ready(t0, rootnum, cblkcost) && SonsBuilt(t0, etree.Value(), candtab, candtab, cblkcost, rootnum, 0)
      ensures Untouched(old(etree.Value()), etree.Value(), {rootnum})
    {
      var cost := if rootnum == -1 then 0.0 else cblkcost[rootnum];
      ghost var was := etree.nodetab;
      etree.nodetab := etree.nodetab[rootnum + 1 := etree.nodetab[rootnum + 1].(total := cost, subtree := cost)];
      forall k | 0 <= k < |t0.nodetab| ensures SameLinks(t0.nodetab[k], etree.nodetab[k]) {
        assert SameLinks(t0.nodetab[k], was[k]);
      }
      assert Under(t0, rootnum, Indices(0)) == {};
      SumOfNone(cblkcost, |cblkcost|);
    }
  }

  lemma {:induction false} SumOfNone(cblkcost: seq<real>, k: int)
    requires -1 <= k <= |cblkcost|
    ensures SumOf(cblkcost, {}, k) == 0.0
    decreases k
  {
    if k > -1 { SumOfNone(cblkcost, k - 1); }
  }

  lemma UntouchedNext(t0: Tree, was: Tree, t: Tree, t1: Tree, t2: Tree, r: int, i: int, son: int)
    requires ValidTree(t0) && t0.Has(r) && 0 <= i < t0.At(r).sonsnbr && SliceOk(t0, r) && son == SonI(t0, r, i)
    requires was.N() == t0.N() && Untouched(was, t, Under(t0, r, Indices(i)) + {r}) && Untouched(t, t1, SubSet(t0, son))
    requires |t2.nodetab| == |t1.nodetab| && forall d :: t1.Has(d) && d != r ==> Same(t1, t2, d)
    ensures Untouched(was, t2, Under(t0, r, Indices(i + 1)) + {r})
  {
    UnderMore(t0, r, Indices(i), i);
    assert Indices(i + 1) == Indices(i) + {i};
    forall d | was.Has(d) && d !in Under(t0, r, Indices(i + 1)) + {r} ensures Same(was, t2, d) {
      assert Same(was, t, d) && Same(t, t1, d) && Same(t1, t2, d);
    }
  }

  lemma Finish(t0: Tree, t: Tree, c0: seq<Cand>, c: seq<Cand>, cblkcost: seq<real>, r: int, sonsnbr: int)
    requires ValidTree(t0) && t0.Has(r) && |cblkcost| == t0.N() && |c0| == t0.N() + 1
    requires SonsBuilt(t0, t, c0, c, cblkcost, r, sonsnbr) && sonsnbr == t0.At(r).sonsnbr
    ensures AllCosted(t0, t, cblkcost, SubSet(t0, r)) && t.At(r).subtree == Whole(cblkcost, SubSet(t0, r))
    ensures Under(t0, r, Indices(sonsnbr)) + {r} == SubSet(t0, r)
    ensures Under(t0, r, Indices(sonsnbr)) == SubSet(t0, r) - {r}
  {
    var u := Under(t0, r, Indices(sonsnbr));
    UnderAll(t0, r, Indices(sonsnbr));
    assert r !in u by {
      if r in u {
        var i :| i in Indices(sonsnbr) && InBranch(t0, r, r, i);
        FatherNotBelow(t0, r, i);
      }
    }
    WholeUnion(cblkcost, u, {r});
    WholeOne(cblkcost, r);
    forall d | d in SubSet(t0, r) && t.Has(d) ensures Costed(t0, t, cblkcost, d) {
      if d != r { assert d in u; assert Costed(t0, t, cblkcost, d); }
    }
  }

  // ----- Intervals of candidates -----

  predicate Interval(c: seq<Cand>, d: int, f: int, l: int)
    requires -1 <= d < |c| - 1
  {
    c[d + 1].fcandnum == f && c[d + 1].lcandnum == l
  }
  predicate Inside(c: seq<Cand>, d: int, f: int, l: int)
    requires -1 <= d < |c| - 1
  {
    f <= c[d + 1].fcandnum <= c[d + 1].lcandnum <= l
  }
  /** The interval of d is part of that of its father. */
  ghost predicate InFather(t: Tree, c: seq<Cand>, d: int)
    requires AllRise(t) && |c| == t.N() + 1 && 0 <= d < t.N()
  {
    assert t.Rises(d);
    Inside(c, d, c[t.Father(d) + 1].fcandnum, c[t.Father(d) + 1].lcandnum)
  }

  /** The intervals are not empty, lie within 0..l, and each is part of that of the father. */
  ghost predicate Nested(t: Tree, c: seq<Cand>, l: int) {
    AllRise(t) && |c| == t.N() + 1 && forall d :: 0 <= d < t.N() ==> Inside(c, d, 0, l) && InFather(t, c, d)
  }

  /** Below the root, levels are the opposites of depths and path costs are not positive. */
  lemma {:induction false} LevelsAreDepths(t: Tree, c: seq<Cand>, cblkcost: seq<real>, d: int)
    requires ValidTree(t) && t.Has(d) && |c| == t.N() + 1 && |cblkcost| == t.N()
    requires AllLevels(t, c, cblkcost, SubSet(t, -1) - {-1}) && c[0].treelevel == 0 && c[0].costlevel == 0.0
    requires forall i :: 0 <= i < |cblkcost| ==> cblkcost[i] >= 0.0
    ensures c[d + 1].treelevel == -Depth(t, d) && c[d + 1].costlevel <= 0.0
    decreases Above(t, d)
  {
    if d >= 0 {
      AllBelowRoot(t, d);
      assert t.Rises(d) && Level(t, c, cblkcost, d);
      LevelsAreDepths(t, c, cblkcost, t.Father(d));
    }
  }

  /** The nodes above d. */
  ghost function AboveOf(t: Tree, d: int): set<int>
    requires AllRise(t) && t.Has(d)
  {
    set e | -1 <= e < t.N() && e != d && Desc(t, d, e)
  }

  lemma AboveSon(t: Tree, d: int)
    requires AllRise(t) && 0 <= d < t.N()
    ensures t.Rises(d) && AboveOf(t, d) == AboveOf(t, t.Father(d)) + {t.Father(d)}
  {
    assert t.Rises(d);
    var f := t.Father(d);
    assert Desc(t, f, f);
    forall e | e in AboveOf(t, f) ensures e != d {
      if Desc(t, f, d) { DescRises(t, f, d); }
    }
  }

  /** The cost level of a node is the opposite of the cost of all the nodes above it. */
  lemma {:induction false} LevelsAreCosts(t: Tree, c: seq<Cand>, cblkcost: seq<real>, d: int)
    requires ValidTree(t) && t.Has(d) && |c| == t.N() + 1 && |cblkcost| == t.N()
    requires AllLevels(t, c, cblkcost, SubSet(t, -1) - {-1}) && c[0].costlevel == 0.0
    ensures c[d + 1].costlevel == -Whole(cblkcost, AboveOf(t, d))
    decreases Above(t, d)
  {
    if d >= 0 {
      AllBelowRoot(t, d);
      assert t.Rises(d) && Level(t, c, cblkcost, d);
      LevelsAreCosts(t, c, cblkcost, t.Father(d));
      AboveSon(t, d);
      WholeUnion(cblkcost, AboveOf(t, t.Father(d)), {t.Father(d)});
      WholeOne(cblkcost, t.Father(d));
    } else {
      assert AboveOf(t, -1) == {};
      SumOfNone(cblkcost, |cblkcost|);
    }
  }

  /** Below r in the tree, the interval is part of that of r. */
  lemma {:induction false} NestedUp(t: Tree, c: seq<Cand>, l: int, d: int, r: int)
    requires Nested(t, c, l) && 0 <= d < t.N() && 0 <= r < t.N() && Desc(t, d, r)
    ensures Inside(c, d, c[r + 1].fcandnum, c[r + 1].lcandnum)
    decreases Above(t, d)
  {
    assert t.Rises(d) && Inside(c, d, 0, l);
    if d != r {
      assert InFather(t, c, d);
      NestedUp(t, c, l, t.Father(d), r);
    }
  }

  /** In a complete factorization every block of i faces i or a node above i. */
  lemma {:induction false} FacingIsAbove(s: Symbol, t: Tree, i: int, j: int)
    requires Closed(s) && AllRise(t) && Fathers(t.nodetab) == FathersOf(s)
    requires 0 <= i < s.CblkNbr() && s.First(i) <= j < s.Last(i)
    ensures t.N() == s.CblkNbr() && 0 <= j < |s.bloktab| && Desc(t, i, s.bloktab[j].fcblknm)
    decreases s.CblkNbr() - i
  {
    assert ValidColumn(s, i);
    assert |FathersOf(s)| == t.N() && FathersOf(s)[i] == t.Father(i) && t.Rises(i);
    if j > s.First(i) {
      var first := s.First(i) + 1;
      FacesLater(s, i, first);
      var p := s.bloktab[first].fcblknm;
      assert t.Father(i) == p;
      if j > first {
        assert ClosedPair(s, i, first, j) && ValidColumn(s, p);
        var b :| s.First(p) <= b < s.Last(p) && Covers(s.bloktab[b], s.bloktab[j]);
        CoverFaces(s, i, j, p, b);
        FacingIsAbove(s, t, p, b);
      } else {
        assert Desc(t, p, p);
      }
    }
  }

  // ----- candCheck -----

  /** The candidates of the column block are among those of the one its block faces. */
  predicate FaceOk(s: Symbol, c: seq<Cand>, i: int, j: int)
    requires -1 <= i < |c| - 1 && 0 <= j < |s.bloktab| && -1 <= s.bloktab[j].fcblknm < |c| - 1
  {
    var f := s.bloktab[j].fcblknm;
    c[f + 1].fcandnum <= c[i + 1].fcandnum && c[i + 1].lcandnum <= c[f + 1].lcandnum
  }

  ghost predicate ColumnFaces(s: Symbol, c: seq<Cand>, i: int, last: int)
    requires Valid(s) && 0 <= i < s.CblkNbr() && |c| == s.CblkNbr() + 1 && last <= s.Last(i)
  {
    assert ValidColumn(s, i);
    forall j :: s.First(i) <= j < last ==> ValidBlok(s, i, j) && FaceOk(s, c, i, j)
  }

  /** Answers whether all the intervals are part of those that are faced. */
  method CandCheck(s: Symbol, c: seq<Cand>) returns (ok: bool)
    requires Valid(s) && |c| == s.CblkNbr() + 1
    ensures ok <==> forall i :: 0 <= i < s.CblkNbr() ==> ColumnFaces(s, c, i, s.Last(i))
  {
    var i := 0;
    while i < s.CblkNbr()
      invariant 0 <= i <= s.CblkNbr() && forall k :: 0 <= k < i ==> ColumnFaces(s, c, k, s.Last(k))
    {
      assert ValidColumn(s, i);
      var j := s.cblktab[i].bloknum;
      while j < s.cblktab[i + 1].bloknum
        invariant s.First(i) <= j <= s.Last(i) && ColumnFaces(s, c, i, j)
      {
        assert ValidBlok(s, i, j);
        var facecblknum := s.bloktab[j].fcblknm;
        if c[i + 1].fcandnum < c[facecblknum + 1].fcandnum || c[i + 1].lcandnum > c[facecblknum + 1].lcandnum {
          assert !FaceOk(s, c, i, j);
          return false;
        }
        j := j + 1;
      }
      i := i + 1;
    }
    ok := true;
  }

  /** Intervals nested along the tree of a complete factorization pass the check. */
  lemma NestedPasses(s: Symbol, t: Tree, c: seq<Cand>, l: int)
    requires Closed(s) && Nested(t, c, l) && Fathers(t.nodetab) == FathersOf(s)
    ensures |c| == s.CblkNbr() + 1 && forall i :: 0 <= i < s.CblkNbr() ==> ColumnFaces(s, c, i, s.Last(i))
  {
    assert |FathersOf(s)| == t.N();
    forall i | 0 <= i < s.CblkNbr() ensures ColumnFaces(s, c, i, s.Last(i)) {
      assert ValidColumn(s, i);
      forall j | s.First(i) <= j < s.Last(i) ensures ValidBlok(s, i, j) && FaceOk(s, c, i, j) {
        assert ValidBlok(s, i, j);
        FacingIsAbove(s, t, i, j);
        NestedUp(t, c, l, i, s.bloktab[j].fcblknm);
      }
    }
  }
}

/** The critical path of blend/cand.c in terms of chains of nodes: no chain of fathers that ends at
    a node takes longer than its critical path, and one of them takes as long. */
module LongestPath {
  import opened SymbolMatrix
  import opened ElimTree
  import opened Contributions
  import opened Candidates

  /** A node, and the end of its blocks that face what its first off-diagonal block faces. */
  datatype Leg = Leg(node: int, end: int)

  ghost predicate LegOk(s: Symbol, x: Leg) {
    && Valid(s) && 0 <= x.node < s.CblkNbr() && ValidColumn(s, x.node)
    && s.First(x.node) < x.end <= s.Last(x.node)
    && (forall b :: s.First(x.node) < b < x.end ==> Leading(s, x.node, b))
    && (x.end < s.Last(x.node) ==> x.end > s.First(x.node) + 1 && !Leading(s, x.node, x.end))
  }

  /** Block b faces what the first off-diagonal block of d faces. */
  predicate Leading(s: Symbol, d: int, b: int)
    requires 0 <= d < |s.cblktab|
  {
    var f := s.First(d) + 1;
    0 <= f < |s.bloktab| && 0 <= b < |s.bloktab| && s.bloktab[b].fcblknm == s.bloktab[f].fcblknm
  }

  /** Diagonal block and leading blocks. */
  ghost function LegCost(s: Symbol, blokcost: seq<real>, x: Leg): real
    requires LegOk(s, x) && |blokcost| == |s.bloktab|
  {
    SumCost(blokcost, s.First(x.node), x.end)
  }

  /** Each node is the father of the one before it. */
  ghost predicate ChainOk(t: Tree, s: Symbol, chain: seq<Leg>) {
    && Valid(s) && s.CblkNbr() == t.N() && (forall k :: 0 <= k < |chain| ==> LegOk(s, chain[k]))
    && forall k :: 0 < k < |chain| ==> FatherIs(t, chain[k - 1].node, chain[k].node)
  }
  predicate FatherIs(t: Tree, d: int, f: int) { 0 <= d < t.N() && t.Father(d) == f }

  /** The chain ends at d; a chain ends at the artificial root when its last node is a son of it. */
  ghost predicate EndsAt(t: Tree, chain: seq<Leg>, d: int) {
    if d == -1 then chain != [] ==> FatherIs(t, chain[|chain| - 1].node, -1)
    else chain != [] && chain[|chain| - 1].node == d
  }

  ghost function ChainCost(s: Symbol, blokcost: seq<real>, chain: seq<Leg>): real
    requires |blokcost| == |s.bloktab| && forall k :: 0 <= k < |chain| ==> LegOk(s, chain[k])
  {
    if chain == [] then 0.0
    else ChainCost(s, blokcost, chain[..|chain| - 1]) + LegCost(s, blokcost, chain[|chain| - 1])
  }

  /** x is the longest time of a chain that ends at d. */
  ghost predicate Longest(t: Tree, s: Symbol, blokcost: seq<real>, d: int, x: real)
    requires |blokcost| == |s.bloktab|
  {
    && (forall chain :: ChainOk(t, s, chain) && EndsAt(t, chain, d) ==> ChainCost(s, blokcost, chain) <= x)
    && (exists chain :: ChainOk(t, s, chain) && EndsAt(t, chain, d) && ChainCost(s, blokcost, chain) == x)
  }

  // ----- Legs -----

  lemma {:induction false} LeadEndStops(s: Symbol, d: int, b: int)
    requires Valid(s) && 0 <= d < s.CblkNbr() && s.First(d) < b <= s.Last(d)
    ensures LeadEnd(s, d, b) < s.Last(d) ==>
              0 <= LeadEnd(s, d, b) < |s.bloktab| && 0 <= s.First(d) + 1 < |s.bloktab|
              && s.bloktab[LeadEnd(s, d, b)].fcblknm != s.bloktab[s.First(d) + 1].fcblknm
    decreases s.Last(d) - b
  {
    assert ValidColumn(s, d);
    if b < s.Last(d) && s.bloktab[b].fcblknm == s.bloktab[s.First(d) + 1].fcblknm { LeadEndStops(s, d, b + 1); }
  }

  lemma LeadIsLeg(s: Symbol, blokcost: seq<real>, d: int) returns (x: Leg)
    requires Valid(s) && 0 <= d < s.CblkNbr() && |blokcost| == |s.bloktab|
    ensures x.node == d && LegOk(s, x) && LegCost(s, blokcost, x) == Lead(s, blokcost, d)
  {
    assert ValidColumn(s, d);
    LeadEndStops(s, d, s.First(d) + 1);
    x := Leg(d, LeadEnd(s, d, s.First(d) + 1));
    assert s.First(d) + 1 < s.Last(d) ==> x.end > s.First(d) + 1;
  }

  /** A node has one leg. */
  lemma OneLeg(s: Symbol, x: Leg, y: Leg)
    requires LegOk(s, x) && LegOk(s, y) && x.node == y.node
    ensures x == y
  {
    var atX, atY := Leading(s, x.node, x.end), Leading(s, x.node, y.end);
  }

  lemma LegIsLead(s: Symbol, blokcost: seq<real>, x: Leg)
    requires LegOk(s, x) && |blokcost| == |s.bloktab|
    ensures LegCost(s, blokcost, x) == Lead(s, blokcost, x.node)
  {
    var y := LeadIsLeg(s, blokcost, x.node);
    OneLeg(s, x, y);
  }

  // ----- Chains and the recursion -----

  ghost predicate TreeFits(t: Tree, s: Symbol, blokcost: seq<real>) {
    ValidTree(t) && Valid(s) && s.CblkNbr() == t.N() && |blokcost| == |s.bloktab|
  }

  /** The largest over the sons is no smaller than the path of one of them, or than nothing. */
  lemma {:induction false} SonsAbove(t: Tree, s: Symbol, blokcost: seq<real>, d: int, i: int, k: int)
    requires TreeFits(t, s, blokcost) && t.Has(d) && 0 <= k <= i <= t.At(d).sonsnbr
    ensures SonsPath(t, s, blokcost, d, i) >= 0.0
    ensures k < i ==> SliceOk(t, d) && t.Has(SonI(t, d, k))
                      && SonsPath(t, s, blokcost, d, i) >= CriPath(t, s, blokcost, SonI(t, d, k))
    decreases i
  {
    assert SlicesOk(t, d);
    if i > 0 {
      assert EntryOk(t, d, i - 1) && t.Rises(SonI(t, d, i - 1));
      SonsAbove(t, s, blokcost, d, i - 1, if k < i - 1 then k else i - 1);
    }
  }

  /** The largest is attained by a son, unless it is nothing. */
  lemma {:induction false} SonsAttained(t: Tree, s: Symbol, blokcost: seq<real>, d: int, i: int) returns (k: int)
    requires TreeFits(t, s, blokcost) && t.Has(d) && 0 <= i <= t.At(d).sonsnbr
    ensures if k == -1 then SonsPath(t, s, blokcost, d, i) == 0.0
            else 0 <= k < i && SliceOk(t, d) && t.Has(SonI(t, d, k))
                 && SonsPath(t, s, blokcost, d, i) == CriPath(t, s, blokcost, SonI(t, d, k))
    decreases i
  {
    k := -1;
    if i > 0 {
      assert SlicesOk(t, d) && EntryOk(t, d, i - 1) && t.Rises(SonI(t, d, i - 1));
      k := SonsAttained(t, s, blokcost, d, i - 1);
      if SonsPath(t, s, blokcost, d, i - 1) <= CriPath(t, s, blokcost, SonI(t, d, i - 1)) { k := i - 1; }
    }
  }

  lemma ChainFront(t: Tree, s: Symbol, chain: seq<Leg>)
    requires ChainOk(t, s, chain) && chain != []
    ensures ChainOk(t, s, chain[..|chain| - 1])
  {
    var front := chain[..|chain| - 1];
    forall k | 0 < k < |front| ensures FatherIs(t, front[k - 1].node, front[k].node) {
      assert FatherIs(t, chain[k - 1].node, chain[k].node);
    }
  }

  /** No chain takes longer than the largest over the sons, plus the node itself. */
  lemma {:induction false} ChainBelow(t: Tree, s: Symbol, blokcost: seq<real>, chain: seq<Leg>, d: int)
    requires TreeFits(t, s, blokcost) && t.Has(d) && ChainOk(t, s, chain) && EndsAt(t, chain, d)
    ensures ChainCost(s, blokcost, chain) <= CriPath(t, s, blokcost, d)
    decreases |chain|, d == -1
  {
    assert SlicesOk(t, d);
    if d == -1 {
      SonsAbove(t, s, blokcost, d, t.At(d).sonsnbr, 0);
      if chain != [] {
        var e := chain[|chain| - 1].node;
        assert LegOk(s, chain[|chain| - 1]);
        assert FatherIs(t, e, -1);
        SonOf(t, s, blokcost, d, e);
        ChainBelow(t, s, blokcost, chain, e);
      }
    } else {
      var front := chain[..|chain| - 1];
      LegIsLead(s, blokcost, chain[|chain| - 1]);
      ChainFront(t, s, chain);
      SonsAbove(t, s, blokcost, d, t.At(d).sonsnbr, 0);
      if front != [] {
        var e := front[|front| - 1].node;
        assert FatherIs(t, chain[|chain| - 2].node, chain[|chain| - 1].node);
        SonOf(t, s, blokcost, d, e);
        ChainBelow(t, s, blokcost, front, e);
      }
    }
  }

  /** The path of a son counts for its father. */
  lemma SonOf(t: Tree, s: Symbol, blokcost: seq<real>, d: int, e: int)
    requires TreeFits(t, s, blokcost) && t.Has(d) && 0 <= e < t.N() && t.Father(e) == d
    ensures 0 <= t.At(d).sonsnbr && SonsPath(t, s, blokcost, d, t.At(d).sonsnbr) >= CriPath(t, s, blokcost, e)
  {
    assert SlicesOk(t, d) && t.Rises(e) && Listed(t, e);
    var k :| 0 <= k < t.At(d).sonsnbr && SonI(t, d, k) == e;
    SonsAbove(t, s, blokcost, d, t.At(d).sonsnbr, k);
  }

  lemma ChainMore(t: Tree, s: Symbol, blokcost: seq<real>, chain: seq<Leg>, x: Leg)
    requires TreeFits(t, s, blokcost) && ChainOk(t, s, chain) && LegOk(s, x)
    requires chain != [] ==> FatherIs(t, chain[|chain| - 1].node, x.node)
    ensures ChainOk(t, s, chain + [x])
    ensures ChainCost(s, blokcost, chain + [x]) == ChainCost(s, blokcost, chain) + LegCost(s, blokcost, x)
  {
    var more := chain + [x];
    assert more[..|more| - 1] == chain;
    forall k | 0 < k < |more| ensures FatherIs(t, more[k - 1].node, more[k].node) {
      if k < |chain| { assert FatherIs(t, chain[k - 1].node, chain[k].node); }
    }
  }

  /** Some chain takes that long. */
  lemma {:induction false} ChainAttains(t: Tree, s: Symbol, blokcost: seq<real>, d: int) returns (chain: seq<Leg>)
    requires TreeFits(t, s, blokcost) && t.Has(d)
    ensures ChainOk(t, s, chain) && EndsAt(t, chain, d) && ChainCost(s, blokcost, chain) == CriPath(t, s, blokcost, d)
    decreases Below(t, d)
  {
    assert SlicesOk(t, d);
    var k := SonsAttained(t, s, blokcost, d, t.At(d).sonsnbr);
    chain := [];
    if k != -1 {
      assert SlicesOk(t, d) && EntryOk(t, d, k) && t.Rises(SonI(t, d, k));
      chain := ChainAttains(t, s, blokcost, SonI(t, d, k));
    }
    if d != -1 {
      var x := LeadIsLeg(s, blokcost, d);
      ChainMore(t, s, blokcost, chain, x);
      chain := chain + [x];
    }
  }

  /** The critical path of a node is the longest time of a chain that ends there. */
  lemma PathIsLongest(t: Tree, s: Symbol, blokcost: seq<real>, d: int)
    requires TreeFits(t, s, blokcost) && t.Has(d)
    ensures Longest(t, s, blokcost, d, CriPath(t, s, blokcost, d))
  {
    forall chain | ChainOk(t, s, chain) && EndsAt(t, chain, d)
      ensures ChainCost(s, blokcost, chain) <= CriPath(t, s, blokcost, d) {
      ChainBelow(t, s, blokcost, chain, d);
    }
    var chain := ChainAttains(t, s, blokcost, d);
  }
}

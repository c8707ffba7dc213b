/** The arithmetic of the proportional mapping of blend/propmap.c, on exact reals: how the
    remaining work of the candidates is cut to the size of one subtree. */
module Shares {

  function Sum(s: seq<real>): real {
    if s == [] then 0.0 else Sum(s[..|s| - 1]) + s[|s| - 1]
  }

  lemma {:induction false} SumAppend(s: seq<real>, t: seq<real>)
    ensures Sum(s + t) == Sum(s) + Sum(t)
    decreases |t|
  {
    if t == [] {
      assert s + t == s;
    } else {
      assert (s + t)[..|s + t| - 1] == s + t[..|t| - 1];
      SumAppend(s, t[..|t| - 1]);
    }
  }

  function Const(k: nat, x: real): (s: seq<real>)
    ensures |s| == k && forall i :: 0 <= i < k ==> s[i] == x
  {
    seq(k, _ => x)
  }

  lemma {:induction false} SumConst(k: nat, x: real)
    ensures Sum(Const(k, x)) == k as real * x
  {
    if k > 0 {
      assert Const(k, x)[..k - 1] == Const(k - 1, x);
      SumConst(k - 1, x);
    }
  }

  /** Adding the same amount to all entries. */
  function Shifted(s: seq<real>, x: real): (t: seq<real>)
    ensures |t| == |s| && forall i :: 0 <= i < |t| ==> t[i] == s[i] + x
  {
    seq(|s|, i requires 0 <= i < |s| => s[i] + x)
  }

  lemma {:induction false} SumShifted(s: seq<real>, x: real)
    ensures Sum(Shifted(s, x)) == Sum(s) + |s| as real * x
    decreases |s|
  {
    if s != [] {
      var front := s[..|s| - 1];
      assert Shifted(s, x)[..|s| - 1] == Shifted(front, x);
      SumShifted(front, x);
    }
  }

  lemma {:induction false} SumNonPositive(s: seq<real>)
    requires forall i :: 0 <= i < |s| ==> s[i] <= 0.0
    ensures Sum(s) <= 0.0
    decreases |s|
  {
    if s != [] { SumNonPositive(s[..|s| - 1]); }
  }

  /** The shape of cost_remain: the candidates strictly inside have the same remaining work,
      and none has more. */
  predicate Flat(s: seq<real>, top: real) {
    && (forall i :: 0 <= i < |s| ==> s[i] <= top)
    && (forall i :: 0 < i < |s| - 1 ==> s[i] == top)
  }

  // ----- Trimming -----

  function FirstUsed(s: seq<real>): int requires s != [] { if s[0] <= 0.0 then 1 else 0 }
  function EndUsed(s: seq<real>): int requires s != [] { if s[|s| - 1] <= 0.0 then |s| - 1 else |s| }

  /** Candidates fcand..candnbr-1 are in use; those after the first are as they were. */
  predicate Active(s: seq<real>, fcand: int, candnbr: int, top: real, rest: real) {
    && 0 <= fcand < candnbr <= |s| <= candnbr + 1 && 0.0 < top
    && Sum(s) == rest && s[fcand] <= top
    && forall j :: fcand < j < candnbr ==> UntouchedShare(s, j, top)
  }

  predicate UntouchedShare(s: seq<real>, j: int, top: real)
    requires 0 <= j < |s|
  {
    0.0 < s[j] <= top && (j < |s| - 1 ==> s[j] == top)
  }

  lemma SplitSum(s: seq<real>, f: int, e: int)
    requires 0 <= f <= e <= |s|
    ensures Sum(s) == Sum(s[..f]) + Sum(s[f..e]) + Sum(s[e..])
  {
    assert s == s[..f] + s[f..e] + s[e..];
    SumAppend(s[..f] + s[f..e], s[e..]);
    SumAppend(s[..f], s[f..e]);
  }

  lemma TrimSum(s: seq<real>, f: int, e: int)
    requires 0 <= f <= e <= |s| && forall i :: 0 <= i < |s| && !(f <= i < e) ==> s[i] <= 0.0
    ensures Sum(s) <= Sum(s[f..e])
  {
    SplitSum(s, f, e);
    SumNonPositive(s[..f]);
    SumNonPositive(s[e..]);
  }

  lemma TrimLeavesOne(s: seq<real>, top: real)
    requires |s| >= 2 && Flat(s, top) && Sum(s) > 0.0
    ensures FirstUsed(s) < EndUsed(s) && 0.0 < top
  {
    if top <= 0.0 || FirstUsed(s) >= EndUsed(s) { SumNonPositive(s); }
  }

  /** With work left, trimming the two ends leaves a candidate, those left all have work to
      do, and together enough for all the sons. */
  lemma TrimLeavesWork(s: seq<real>, top: real, aspt: real)
    requires |s| >= 2 && Flat(s, top) && Sum(s) == aspt && aspt > 0.0
    ensures FirstUsed(s) < EndUsed(s) && Active(s, FirstUsed(s), EndUsed(s), top, aspt)
    ensures s[FirstUsed(s)] > 0.0 && aspt <= Sum(s[FirstUsed(s)..EndUsed(s)])
  {
    var f, e := FirstUsed(s), EndUsed(s);
    TrimLeavesOne(s, top);
    TrimSum(s, f, e);
    forall j | f < j < e ensures UntouchedShare(s, j, top) { }
  }

  /** Without work left the assertion after the trimming fails exactly for two candidates
      without any work: the analysis needs subtrees of positive cost. */
  lemma TrimFailsOnlyWithoutWork(s: seq<real>, top: real, aspt: real)
    requires |s| >= 2 && Flat(s, top) && Sum(s) == aspt && aspt >= 0.0
    ensures !(FirstUsed(s) < EndUsed(s) && EndUsed(s) >= 1) <==> |s| == 2 && s[0] == 0.0 && s[1] == 0.0
  {
    SplitSum(s, 0, |s|);
    if |s| == 2 {
      assert s == [s[0]] + [s[1]];
      SumAppend([s[0]], [s[1]]);
      assert Sum([s[0]]) == Sum([]) + s[0] && Sum([s[1]]) == Sum([]) + s[1];
    }
  }

  // ----- The share of one subtree -----

  /** Candidates of a subtree of that cost get more as long as the work left is above this. */
  function Threshold(nocrossproc: bool, scandnbr: int, epsilon: real): real {
    if nocrossproc then scandnbr as real * epsilon else epsilon
  }

  /** Cost that the candidates fcand..lcand cannot take. */
  function LeftOver(s: seq<real>, fcand: int, lcand: int, cost: real): real
    requires 0 <= fcand <= lcand < |s|
  {
    cost - Sum(s[fcand..lcand + 1])
  }

  lemma LeftOverFirst(s: seq<real>, fcand: int, cost: real)
    requires 0 <= fcand < |s|
    ensures LeftOver(s, fcand, fcand, cost) == cost - s[fcand]
  {
    assert s[fcand..fcand + 1] == [s[fcand]];
    SumOne(s[fcand]);
  }

  lemma LeftOverNext(s: seq<real>, fcand: int, lcand: int, cost: real)
    requires 0 <= fcand <= lcand < |s| - 1
    ensures LeftOver(s, fcand, lcand + 1, cost) == LeftOver(s, fcand, lcand, cost) - s[lcand + 1]
  {
    assert s[fcand..lcand + 2] == s[fcand..lcand + 1] + [s[lcand + 1]];
    SumAppend(s[fcand..lcand + 1], [s[lcand + 1]]);
    SumOne(s[lcand + 1]);
  }

  /** lcand is the first candidate at which the loop stops. */
  predicate StopsAt(s: seq<real>, fcand: int, candnbr: int, lcand: int, cost: real, epsilon: real, nocrossproc: bool) {
    && 0 <= fcand <= lcand < candnbr <= |s|
    && (lcand == candnbr - 1 || LeftOver(s, fcand, lcand, cost) <= Threshold(nocrossproc, lcand - fcand + 1, epsilon))
    && (forall k :: fcand <= k < lcand ==> GoesOn(s, fcand, k, cost, epsilon, nocrossproc))
  }

  predicate GoesOn(s: seq<real>, fcand: int, k: int, cost: real, epsilon: real, nocrossproc: bool)
    requires 0 <= fcand <= k < |s|
  {
    LeftOver(s, fcand, k, cost) > Threshold(nocrossproc, k - fcand + 1, epsilon)
  }

  /** What the subtree gets from each of its candidates. */
  function SubShares(s: seq<real>, fcand: int, lcand: int, left: real): (t: seq<real>)
    requires 0 <= fcand <= lcand < |s|
    ensures |t| == lcand - fcand + 1
  {
    var n := lcand - fcand + 1;
    if left > 0.0 then Shifted(s[fcand..lcand + 1], left / n as real)
    else s[fcand..lcand] + [s[lcand] + left]
  }

  /** What is left to its candidates. */
  function KeptShares(fcand: int, lcand: int, left: real): (t: seq<real>)
    requires fcand <= lcand
    ensures |t| == lcand - fcand + 1
  {
    var n := lcand - fcand + 1;
    if left > 0.0 then Const(n, -(left / n as real)) else Const(n - 1, 0.0) + [-left]
  }

  function Remaining(s: seq<real>, fcand: int, lcand: int, left: real): (t: seq<real>)
    requires 0 <= fcand <= lcand < |s|
    ensures |t| == |s|
  {
    s[..fcand] + KeptShares(fcand, lcand, left) + s[lcand + 1..]
  }

  lemma DivTimes(n: nat, left: real)
    requires n > 0
    ensures n as real * (left / n as real) == left && n as real * (-(left / n as real)) == -left
    ensures left > 0.0 ==> left / n as real > 0.0
  {
    var x := left / n as real;
    assert x * n as real == left;
  }

  /** The subtree gets its cost, to the last bit. */
  lemma SubSharesSum(s: seq<real>, fcand: int, lcand: int, cost: real)
    requires 0 <= fcand <= lcand < |s|
    ensures Sum(SubShares(s, fcand, lcand, LeftOver(s, fcand, lcand, cost))) == cost
  {
    var left, mid := LeftOver(s, fcand, lcand, cost), s[fcand..lcand + 1];
    if left > 0.0 {
      ShiftedEven(mid, left);
    } else {
      SumAppend(s[fcand..lcand], [s[lcand] + left]);
      SumAppend(s[fcand..lcand], [s[lcand]]);
      assert mid == s[fcand..lcand] + [s[lcand]];
      SumOne(s[lcand]);
      SumOne(s[lcand] + left);
    }
  }

  lemma ShiftedEven(s: seq<real>, left: real)
    requires s != []
    ensures Sum(Shifted(s, left / |s| as real)) == Sum(s) + left
  {
    SumShifted(s, left / |s| as real);
    DivTimes(|s|, left);
  }

  lemma SumOne(x: real)
    ensures Sum([x]) == x
  {
    assert Sum([x]) == Sum([]) + x;
  }

  lemma SumEven(n: nat, left: real)
    requires n > 0
    ensures Sum(Const(n, -(left / n as real))) == -left
  {
    var x := -(left / n as real);
    SumConst(n, x);
    DivTimes(n, left);
  }

  lemma {:induction false} SumZero(k: nat)
    ensures Sum(Const(k, 0.0)) == 0.0
  {
    if k > 0 {
      assert Const(k, 0.0)[..k - 1] == Const(k - 1, 0.0);
      SumZero(k - 1);
    }
  }

  lemma KeptSum(fcand: int, lcand: int, left: real)
    requires fcand <= lcand
    ensures Sum(KeptShares(fcand, lcand, left)) == -left
  {
    var n := lcand - fcand + 1;
    if left > 0.0 {
      SumEven(n, left);
    } else {
      SumZero(n - 1);
      SumAppend(Const(n - 1, 0.0), [-left]);
      SumOne(-left);
    }
  }

  /** And the candidates lose it. */
  lemma RemainingSum(s: seq<real>, fcand: int, lcand: int, cost: real)
    requires 0 <= fcand <= lcand < |s|
    ensures Sum(Remaining(s, fcand, lcand, LeftOver(s, fcand, lcand, cost))) == Sum(s) - cost
  {
    var kept := KeptShares(fcand, lcand, LeftOver(s, fcand, lcand, cost));
    KeptSum(fcand, lcand, LeftOver(s, fcand, lcand, cost));
    SplitSum(s, fcand, lcand + 1);
    SumAppend(s[..fcand] + kept, s[lcand + 1..]);
    SumAppend(s[..fcand], kept);
  }

  /** The loop stopped before the last candidate was used up. */
  lemma LastNotUsedUp(s: seq<real>, fcand: int, candnbr: int, lcand: int, cost: real, epsilon: real, nocrossproc: bool)
    requires StopsAt(s, fcand, candnbr, lcand, cost, epsilon, nocrossproc) && epsilon >= 0.0 && cost > 0.0
    ensures LeftOver(s, fcand, lcand, cost) + s[lcand] > 0.0
  {
    assert s[fcand..lcand + 1] == s[fcand..lcand] + [s[lcand]];
    SumAppend(s[fcand..lcand], [s[lcand]]);
    assert Sum([s[lcand]]) == Sum([]) + s[lcand];
    if fcand < lcand {
      var k := lcand - 1;
      assert GoesOn(s, fcand, k, cost, epsilon, nocrossproc);
      assert Threshold(nocrossproc, k - fcand + 1, epsilon) >= 0.0;
    } else {
      assert s[fcand..lcand] == [];
    }
  }

  /** The subtree is entered with the shape it was given to its father. */
  lemma SubSharesFlat(s: seq<real>, fcand: int, candnbr: int, top: real, rest: real, lcand: int, left: real)
    returns (subtop: real)
    requires Active(s, fcand, candnbr, top, rest) && fcand <= lcand < candnbr
    ensures Flat(SubShares(s, fcand, lcand, left), subtop)
  {
    var n := lcand - fcand + 1;
    DivTimes(n, left);
    subtop := if left > 0.0 then top + left / n as real else top;
    var t := SubShares(s, fcand, lcand, left);
    forall i | 0 <= i < |t| ensures t[i] <= subtop && (0 < i < |t| - 1 ==> t[i] == subtop) {
      var j := fcand + i;
      if i > 0 { assert UntouchedShare(s, j, top); }
    }
  }

  lemma RemainingActive(s: seq<real>, fcand: int, candnbr: int, top: real, rest: real, lcand: int, cost: real,
                        next: int)
    requires Active(s, fcand, candnbr, top, rest) && fcand <= lcand < candnbr && lcand <= next <= lcand + 1
             && next < candnbr
    requires LeftOver(s, fcand, lcand, cost) + s[lcand] > 0.0
    ensures Active(Remaining(s, fcand, lcand, LeftOver(s, fcand, lcand, cost)), next, candnbr, top, rest - cost)
  {
    var left, n := LeftOver(s, fcand, lcand, cost), lcand - fcand + 1;
    DivTimes(n, left);
    RemainingSum(s, fcand, lcand, cost);
    var t := Remaining(s, fcand, lcand, left);
    forall j | lcand < j < candnbr ensures t[j] == s[j] && UntouchedShare(t, j, top) {
      assert UntouchedShare(s, j, top);
    }
    assert t[lcand] == if left > 0.0 then -(left / n as real) else -left;
    assert s[lcand] <= top by { if lcand > fcand { assert UntouchedShare(s, lcand, top); } }
  }

  /** Candidate p takes work of that cost. */
  function Charged(c: seq<real>, p: int, cost: real): (e: seq<real>)
    requires 0 <= p < |c|
    ensures |e| == |c|
  {
    c[p := c[p] - cost]
  }

  lemma {:induction false} ChargedTotal(c: seq<real>, p: int, cost: real)
    requires 0 <= p < |c|
    ensures Sum(Charged(c, p, cost)) == Sum(c) - cost
    decreases |c|
  {
    var e, front := Charged(c, p, cost), c[..|c| - 1];
    if p == |c| - 1 {
      assert e[..|c| - 1] == front;
    } else {
      assert e[..|c| - 1] == Charged(front, p, cost);
      ChargedTotal(front, p, cost);
    }
  }

  /** Taking an equal part of x from everyone. */
  lemma ShiftedLess(s: seq<real>, x: real)
    requires s != []
    ensures Sum(Shifted(s, -(x / |s| as real))) == Sum(s) - x
  {
    var y := -(x / |s| as real);
    SumShifted(s, y);
    DivTimes(|s|, x);
    assert |s| as real * y == -x;
  }

  lemma FlatShifted(s: seq<real>, top: real, x: real)
    requires Flat(s, top)
    ensures Flat(Shifted(s, -x), top - x)
  {
  }

  // ----- Subtrees that cost nothing -----

  /** The condition of the assertions after the trimming of propMappSubtree. */
  predicate TrimOk(s: seq<real>)
    requires s != []
  {
    FirstUsed(s) < EndUsed(s) && EndUsed(s) >= 1
  }

  lemma SumOfTwo(s: seq<real>)
    requires |s| == 2
    ensures Sum(s) == s[0] + s[1]
  {
    assert s == [s[0]] + [s[1]];
    SumAppend([s[0]], [s[1]]);
    SumOne(s[0]);
    SumOne(s[1]);
  }

  /** For a node with sons and several candidates, whose work left is c: the assertions fail
      exactly for two candidates with equal work left, when the sons cost nothing. */
  lemma TrimFailsExactly(total: real, subtree: real, c: seq<real>, top: real)
    requires |c| >= 2 && Flat(c, top) && Sum(c) == subtree && total <= subtree
    ensures !TrimOk(Shifted(c, -(total / |c| as real))) <==> |c| == 2 && subtree == total && c[0] == c[1]
  {
    var x := total / |c| as real;
    var s := Shifted(c, -x);
    ShiftedLess(c, total);
    FlatShifted(c, top, x);
    TrimFailsOnlyWithoutWork(s, top - x, subtree - total);
    if |c| == 2 { SumOfTwo(c); SumOfTwo(s); }
  }

  /** Two processors enter a father of cost 10, whose only son costs nothing, with [5, 5]. */
  lemma TrimFailsForFreeSon()
    ensures Flat([5.0, 5.0], 5.0) && Sum([5.0, 5.0]) == 10.0
    ensures !TrimOk(Shifted([5.0, 5.0], -(10.0 / 2 as real)))
  {
    SumOfTwo([5.0, 5.0]);
    TrimFailsExactly(10.0, 10.0, [5.0, 5.0], 5.0);
  }
}

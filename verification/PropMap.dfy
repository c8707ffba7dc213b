/** The proportional mapping of blend/propmap.c: an interval of candidate processors for each
    node of the elimination tree. The cluster number is always the one it was given. */
module PropMap {
  import opened Queue
  import opened ElimTree
  import opened Candidates
  import opened Shares
  import opened PropRuns

  // ----- Costs -----

  lemma {:induction false} SumOfAtLeast(cblkcost: seq<real>, s: set<int>, d: int, k: int)
    requires -1 <= k <= |cblkcost| && -1 <= d < |cblkcost| && d in s
    requires forall i :: 0 <= i < |cblkcost| ==> cblkcost[i] >= 0.0
    ensures SumOf(cblkcost, s, k) >= if d < k then CostAt(cblkcost, d) else 0.0
    decreases k
  {
    if k > -1 { SumOfAtLeast(cblkcost, s, d, k - 1); }
  }

  /** Son k adds its cost to that of the subtrees of the sons before it. */
  ghost predicate AddsSon(t0: Tree, cblkcost: seq<real>, r: int, costs: seq<real>, k: int)
    requires ValidTree(t0) && t0.Has(r) && 0 <= k < |costs| == t0.At(r).sonsnbr
  {
    Whole(cblkcost, Under(t0, r, Indices(k + 1))) == Whole(cblkcost, Under(t0, r, Indices(k))) + costs[k]
  }

  /** The subtrees of the first i sons together. */
  lemma {:induction false} SonsWhole(t0: Tree, cblkcost: seq<real>, r: int, costs: seq<real>, i: int)
    requires ValidTree(t0) && t0.Has(r) && 0 <= i <= |costs| == t0.At(r).sonsnbr
    requires forall k :: 0 <= k < |costs| ==> AddsSon(t0, cblkcost, r, costs, k)
    ensures Sum(costs[..i]) == Whole(cblkcost, Under(t0, r, Indices(i)))
    decreases i
  {
    if i == 0 {
      assert Under(t0, r, Indices(0)) == {};
      SumOfNone(cblkcost, |cblkcost|);
    } else {
      SonsWhole(t0, cblkcost, r, costs, i - 1);
      assert AddsSon(t0, cblkcost, r, costs, i - 1);
      SumPrefix(costs, i - 1, i);
    }
  }

  lemma SumPrefix(f: seq<real>, k: int, i: int)
    requires 0 <= k < i == k + 1 <= |f|
    ensures Sum(f[..i]) == Sum(f[..k]) + f[k]
  {
    assert f[..i][..k] == f[..k];
  }

  /** One more son. */
  lemma SonWhole(t0: Tree, t: Tree, cblkcost: seq<real>, r: int, k: int)
    requires ValidTree(t0) && ValidTree(t) && SameShape(t0, t) && |cblkcost| == t.N() && t.Has(r)
    requires AllCosted(t0, t, cblkcost, SubSet(t0, -1)) && 0 <= k < t0.At(r).sonsnbr == t.At(r).sonsnbr
    requires SliceOk(t, r) && SonsInRange(t, r)
    ensures |SonCosts(t, r)| == t0.At(r).sonsnbr && AddsSon(t0, cblkcost, r, SonCosts(t, r), k)
  {
    var p := Indices(k);
    UnderMore(t0, r, p, k);
    assert SameLinks(t0.nodetab[r + 1], t.nodetab[r + 1]);
    var son := SonI(t, r, k);
    AllBelowRoot(t0, son);
    assert son in SubSet(t0, -1) && Costed(t0, t, cblkcost, son);
    WholeUnion(cblkcost, Under(t0, r, p), SubSet(t0, son));
  }

  lemma CostsAddUp(t0: Tree, t: Tree, cblkcost: seq<real>, r: int, n: int)
    requires ValidTree(t0) && ValidTree(t) && SameShape(t0, t) && |cblkcost| == t.N() && t.Has(r)
    requires AllCosted(t0, t, cblkcost, SubSet(t0, -1)) && n == t0.At(r).sonsnbr == t.At(r).sonsnbr
    requires SliceOk(t, r) && SonsInRange(t, r)
    ensures Sum(SonCosts(t, r)) == Whole(cblkcost, Under(t0, r, Indices(n)))
  {
    var costs := SonCosts(t, r);
    forall k | 0 <= k < |costs| ensures AddsSon(t0, cblkcost, r, costs, k) { SonWhole(t0, t, cblkcost, r, k); }
    SonsWhole(t0, cblkcost, r, costs, n);
    assert costs[..n] == costs;
  }

  /** The costs that candSubTreeBuild leaves are those the mapping needs, once every column
      block costs something. */
  lemma CostsAreValid(t0: Tree, t: Tree, cblkcost: seq<real>)
    requires ValidTree(t0) && SameShape(t0, t) && |cblkcost| == t.N()
    requires AllCosted(t0, t, cblkcost, SubSet(t0, -1)) && forall i :: 0 <= i < |cblkcost| ==> cblkcost[i] > 0.0
    ensures ValidCosts(t)
  {
    ShapeIsValid(t0, t);
    forall r | t.Has(r) ensures CostOk(t, r) {
      SonsAreInRange(t, r);
      AllBelowRoot(t0, r);
      assert r in SubSet(t0, -1) && Costed(t0, t, cblkcost, r);
      var n := t.At(r).sonsnbr;
      assert SameLinks(t0.nodetab[r + 1], t.nodetab[r + 1]);
      CostsAddUp(t0, t, cblkcost, r, n);
      SubSetWhole(t0, cblkcost, r);
      SumOfAtLeast(cblkcost, SubSet(t0, r), r, |cblkcost|);
    }
  }

  lemma SubSetWhole(t0: Tree, cblkcost: seq<real>, r: int)
    requires ValidTree(t0) && t0.Has(r) && |cblkcost| == t0.N()
    ensures Whole(cblkcost, SubSet(t0, r))
            == CostAt(cblkcost, r) + Whole(cblkcost, Under(t0, r, Indices(t0.At(r).sonsnbr)))
  {
    var p := Indices(t0.At(r).sonsnbr);
    UnderAll(t0, r, p);
    assert r !in Under(t0, r, p) by {
      if r in Under(t0, r, p) {
        var i :| i in p && InBranch(t0, r, r, i);
        FatherNotBelow(t0, r, i);
      }
    }
    WholeUnion(cblkcost, Under(t0, r, p), {r});
    WholeOne(cblkcost, r);
  }

  /** Sum of the costs of the sons still in the queue, among the first k. */
  ghost function SumRem(costs: seq<real>, rem: set<int>, k: int): real
    requires 0 <= k <= |costs|
    decreases k
  {
    if k == 0 then 0.0 else SumRem(costs, rem, k - 1) + if k - 1 in rem then costs[k - 1] else 0.0
  }

  lemma {:induction false} SumRemLess(costs: seq<real>, rem: set<int>, i: int, k: int)
    requires 0 <= k <= |costs| && 0 <= i < |costs| && i in rem
    ensures SumRem(costs, rem - {i}, k) == SumRem(costs, rem, k) - if i < k then costs[i] else 0.0
    decreases k
  {
    if k > 0 { SumRemLess(costs, rem, i, k - 1); }
  }

  lemma {:induction false} SumRemAll(costs: seq<real>, k: int)
    requires 0 <= k <= |costs|
    ensures SumRem(costs, Indices(|costs|), k) == Sum(costs[..k])
    decreases k
  {
    if k > 0 {
      SumRemAll(costs, k - 1);
      assert costs[..k][..k - 1] == costs[..k - 1];
    }
  }

  lemma {:induction false} SumRemNone(costs: seq<real>, k: int)
    requires 0 <= k <= |costs|
    ensures SumRem(costs, {}, k) == 0.0
    decreases k
  {
    if k > 0 { SumRemNone(costs, k - 1); }
  }

  // ----- Queues ordered by decreasing cost -----

  predicate KeyOk(x: Item, costs: seq<real>) {
    0 <= x.elt < |costs| && x.key1 == -costs[x.elt]
  }

  /** The queue holds each element of rem once, with the opposite of its cost as first key. */
  ghost predicate Holds(s: seq<Item>, rem: set<int>, costs: seq<real>) {
    Elts(s) == multiset(rem) && forall k :: 0 <= k < |s| ==> KeyOk(s[k], costs)
  }

  lemma EltAt(s: seq<Item>, rem: set<int>, costs: seq<real>, k: int)
    requires Holds(s, rem, costs) && 0 <= k < |s|
    ensures s[k].elt in rem && KeyOk(s[k], costs)
  {
    assert EltSeq(s)[k] == s[k].elt && EltSeq(s)[k] in Elts(s);
  }

  lemma WhereElt(s: seq<Item>, rem: set<int>, costs: seq<real>, j: int) returns (k: int)
    requires Holds(s, rem, costs) && j in rem
    ensures 0 <= k < |s| && s[k].elt == j && KeyOk(s[k], costs)
  {
    assert j in Elts(s) && j in EltSeq(s);
    k :| 0 <= k < |EltSeq(s)| && EltSeq(s)[k] == j;
  }

  lemma HeldCount(s: seq<Item>, rem: set<int>, costs: seq<real>)
    requires Holds(s, rem, costs)
    ensures |s| == |rem|
  {
    assert |Elts(s)| == |EltSeq(s)| == |s|;
    assert |multiset(rem)| == |rem|;
  }

  /** Items of a permutation are those of the sequence. */
  lemma ItemsOf(s: seq<Item>, t: seq<Item>, costs: seq<real>, k: int)
    requires multiset(t) <= multiset(s) && 0 <= k < |t| && forall m :: 0 <= m < |s| ==> KeyOk(s[m], costs)
    ensures KeyOk(t[k], costs)
  {
    assert t[k] in multiset(t) && t[k] in multiset(s) && t[k] in s;
  }

  lemma CancelOne(a: multiset<int>, b: multiset<int>, i: int)
    requires a + multiset{i} == b + multiset{i}
    ensures a == b
  {
    forall x ensures a[x] == b[x] { assert (a + multiset{i})[x] == (b + multiset{i})[x]; }
  }

  lemma PoppedHolds(s: seq<Item>, rem: set<int>, costs: seq<real>)
    requires Holds(s, rem, costs) && s != []
    ensures s[0].elt in rem && KeyOk(s[0], costs) && Holds(Popped(s), rem - {s[0].elt}, costs)
  {
    EltAt(s, rem, costs, 0);
    PoppedItems(s);
    var i := s[0].elt;
    assert multiset(rem) == multiset(rem - {i}) + multiset{i};
    CancelOne(Elts(Popped(s)), multiset(rem - {i}), i);
    forall k | 0 <= k < |Popped(s)| ensures KeyOk(Popped(s)[k], costs) { ItemsOf(s, Popped(s), costs, k); }
  }

  lemma PushedHolds(s: seq<Item>, rem: set<int>, costs: seq<real>, x: Item)
    requires Holds(s, rem, costs) && KeyOk(x, costs) && x.elt !in rem
    ensures Holds(Pushed(s, x), rem + {x.elt}, costs)
  {
    PushedItems(s, x);
    assert multiset(rem + {x.elt}) == multiset(rem) + multiset{x.elt};
    var t := Pushed(s, x);
    forall k | 0 <= k < |t| ensures KeyOk(t[k], costs) {
      assert t[k] in multiset(t);
      assert t[k] in multiset(s) || t[k] == x;
      if t[k] in multiset(s) { assert t[k] in s; }
    }
  }

  /** Changing the cost of an element that is not in the queue. */
  lemma HoldsOther(s: seq<Item>, rem: set<int>, costs: seq<real>, p: int, x: real)
    requires Holds(s, rem, costs) && 0 <= p < |costs| && p !in rem
    ensures Holds(s, rem, costs[p := x])
  {
    forall k | 0 <= k < |s| ensures KeyOk(s[k], costs[p := x]) { EltAt(s, rem, costs, k); }
  }

  /** pqueuePop2 and pqueuePop return an element of largest cost. */
  method PopLargest(q: Queue, ghost rem: set<int>, ghost costs: seq<real>) returns (i: int, cost: real)
    requires q.Valid() && q.used > 0 && Holds(q.Contents(), rem, costs)
    modifies q, q.elttab
    ensures q.Valid() && q.elttab == old(q.elttab)
    ensures i in rem && 0 <= i < |costs| && cost == costs[i] && Largest(costs, rem, cost)
    ensures Holds(q.Contents(), rem - {i}, costs) && q.used == |rem - {i}|
  {
    ghost var s := q.Contents();
    PoppedHolds(s, rem, costs);
    var key1, key2;
    i, key1, key2 := q.Pop2();
    cost := -key1;
    HeldCount(q.Contents(), rem - {i}, costs);
    forall j | j in rem && 0 <= j < |costs| ensures CostAtMost(costs, j, cost) {
      var k := WhereElt(s, rem, costs, j);
      assert !Less(s[k], Item(key1, key2, i));
    }
  }

  /** pqueuePush1 and pqueuePush2 with the opposite of a cost. */
  method PushCost(q: Queue, i: int, cost: real, key2: real, ghost rem: set<int>, ghost costs: seq<real>)
    requires q.Valid() && Holds(q.Contents(), rem, costs) && i !in rem && 0 <= i < |costs| && cost == costs[i]
    modifies q, q.elttab
    ensures q.Valid() && (q.elttab == old(q.elttab) || fresh(q.elttab))
    ensures Holds(q.Contents(), rem + {i}, costs) && q.used == |rem + {i}|
  {
    PushedHolds(q.Contents(), rem, costs, Item(-cost, key2, i));
    q.Push2(i, -cost, key2);
    HeldCount(q.Contents(), rem + {i}, costs);
  }

  // ----- Intervals of candidates -----

  ghost predicate AllInside(t: Tree, c: seq<Cand>, s: set<int>, f: int, l: int)
    requires |c| == t.N() + 1
  {
    forall d :: d in s && t.Has(d) ==> Inside(c, d, f, l)
  }
  ghost predicate AllInFather(t: Tree, c: seq<Cand>, s: set<int>)
    requires AllRise(t) && |c| == t.N() + 1
  {
    forall d :: d in s && 0 <= d < t.N() ==> InFather(t, c, d)
  }

  /** Level and cost of the path are not part of the mapping. */
  ghost predicate LevelsSame(c: seq<Cand>, e: seq<Cand>) {
    |c| == |e| && forall k :: 0 <= k < |c| ==> LevelSame(c[k], e[k])
  }
  predicate LevelSame(a: Cand, b: Cand) { a.treelevel == b.treelevel && a.costlevel == b.costlevel }

  /** Result of mapping the subtree of r on f..l. */
  ghost predicate Mapped(t: Tree, c0: seq<Cand>, c: seq<Cand>, r: int, f: int, l: int)
    requires ValidTree(t) && t.Has(r)
  {
    && |c0| == |c| == t.N() + 1 && Interval(c, r, f, l) && LevelsSame(c0, c)
    && AllInside(t, c, SubSet(t, r), f, l) && AllInFather(t, c, SubSet(t, r) - {r}) && CandKept(c0, c, SubSet(t, r))
  }

  /** The node r and the sons of r in p are mapped. */
  ghost predicate SonsMapped(t: Tree, c0: seq<Cand>, c: seq<Cand>, r: int, f: int, l: int, p: set<int>)
    requires ValidTree(t) && t.Has(r)
  {
    var u := Under(t, r, p);
    && |c0| == |c| == t.N() + 1 && Interval(c, r, f, l) && LevelsSame(c0, c) && f <= l
    && AllInside(t, c, u, f, l) && AllInFather(t, c, u) && CandKept(c0, c, u + {r})
  }

  lemma MapStart(t: Tree, c0: seq<Cand>, c: seq<Cand>, r: int, f: int, l: int)
    requires ValidTree(t) && t.Has(r) && |c0| == t.N() + 1 && f <= l
    requires c == c0[r + 1 := c0[r + 1].(fcandnum := f, lcandnum := l)]
    ensures SonsMapped(t, c0, c, r, f, l, {})
  {
    assert Under(t, r, {}) == {};
  }

  lemma MapNext(t: Tree, c0: seq<Cand>, c: seq<Cand>, e: seq<Cand>, r: int, f: int, l: int, p: set<int>, i: int,
                f2: int, l2: int)
    requires ValidTree(t) && t.Has(r) && SonsMapped(t, c0, c, r, f, l, p) && 0 <= i < t.At(r).sonsnbr && i !in p
    requires SliceOk(t, r) && t.Has(SonI(t, r, i)) && Mapped(t, c, e, SonI(t, r, i), f2, l2) && f <= f2 <= l2 <= l
    ensures SonsMapped(t, c0, e, r, f, l, p + {i})
  {
    var u, s, son := Under(t, r, p), SubSet(t, SonI(t, r, i)), SonI(t, r, i);
    UnderMore(t, r, p, i);
    assert SameCand(c, e, r);
    forall d | d in u + s && t.Has(d) ensures Inside(e, d, f, l) {
      if d in s { assert Inside(e, d, f2, l2); } else { assert SameCand(c, e, d) && Inside(c, d, f, l); }
    }
    forall d | d in u + s && 0 <= d < t.N() ensures InFather(t, e, d) {
      assert t.Rises(d);
      if d == son {
        assert t.Father(d) == r;
      } else if d in s {
        assert d in s - {son} && InFather(t, e, d);
      } else {
        FatherUnder(t, r, p, d);
        assert SameCand(c, e, d) && SameCand(c, e, t.Father(d)) && InFather(t, c, d);
      }
    }
    forall d | t.Has(d) && d !in u + s + {r} ensures SameCand(c0, e, d) {
      assert SameCand(c0, c, d) && SameCand(c, e, d);
    }
    forall k | 0 <= k < |c0| ensures LevelSame(c0[k], e[k]) { assert LevelSame(c0[k], c[k]) && LevelSame(c[k], e[k]); }
  }

  lemma MapDone(t: Tree, c0: seq<Cand>, c: seq<Cand>, r: int, f: int, l: int, p: set<int>)
    requires ValidTree(t) && t.Has(r) && SonsMapped(t, c0, c, r, f, l, p)
    requires forall i :: 0 <= i < t.At(r).sonsnbr ==> i in p
    ensures Mapped(t, c0, c, r, f, l) && SubSet(t, r) == Under(t, r, p) + {r}
  {
    UnderAll(t, r, p);
    var u := Under(t, r, p);
    forall d | d in SubSet(t, r) - {r} && 0 <= d < t.N() ensures InFather(t, c, d) { assert d in u; }
    forall d | d in SubSet(t, r) && t.Has(d) ensures Inside(c, d, f, l) { if d != r { assert d in u; } }
  }

  /** Charging the cost of a son keeps the work left equal to the cost of the sons left. */
  lemma ChargedSum(costs: seq<real>, c: seq<real>, rem: set<int>, i: int, p: int)
    requires Sum(c) == SumRem(costs, rem, |costs|) && i in rem && 0 <= i < |costs| && 0 <= p < |c|
    ensures Sum(Charged(c, p, costs[i])) == SumRem(costs, rem - {i}, |costs|)
  {
    ChargedTotal(c, p, costs[i]);
    SumRemLess(costs, rem, i, |costs|);
  }

  lemma KeysNext(place: map<int, int>, rem0: set<int>, rem: set<int>, i: int, p: int)
    requires place.Keys == rem0 - rem && rem <= rem0 && i in rem
    ensures place[i := p].Keys == rem0 - (rem - {i}) && rem - {i} <= rem0
  {
    assert place[i := p].Keys == place.Keys + {i};
  }

  // ----- Balance of the second stage -----

  /** The sons that are left are not larger than those that were placed. */
  ghost predicate Descending(costs: seq<real>, place: map<int, int>, rem: set<int>) {
    forall i :: i in place && 0 <= i < |costs| ==> Largest(costs, rem, costs[i])
  }

  lemma DescendingNext(costs: seq<real>, place: map<int, int>, rem: set<int>, i: int, p: int)
    requires Descending(costs, place, rem) && 0 <= i < |costs| && Largest(costs, rem, costs[i])
    ensures Descending(costs, place[i := p], rem - {i})
  {
    var more := place[i := p];
    forall k | k in more && 0 <= k < |costs| ensures Largest(costs, rem - {i}, costs[k]) {
      assert Largest(costs, rem, costs[k]);
      forall j | j in rem - {i} && 0 <= j < |costs| ensures CostAtMost(costs, j, costs[k]) {
        assert CostAtMost(costs, j, costs[k]);
      }
    }
  }

  /** Taking a smaller cost from the candidate with the most work left keeps the balance. */
  lemma BalanceNext(c: seq<real>, candnbr: int, k: int, x: real, p: int, cost: real)
    requires BalancedAt(c, candnbr, k, x) && 0 <= p < candnbr && 0.0 <= cost <= x
             && Largest(c[..candnbr], Indices(candnbr), c[p])
    ensures BalancedAt(Charged(c, p, cost), candnbr, k, x)
  {
    var e := Charged(c, p, cost);
    forall q | 0 <= q < candnbr ensures e[q] <= e[k] + x {
      assert c[q] <= c[k] + x && CostAtMost(c[..candnbr], q, c[p]);
    }
  }

  lemma BalanceNew(c: seq<real>, candnbr: int, p: int, cost: real)
    requires 0 <= p < candnbr <= |c| && 0.0 <= cost && Largest(c[..candnbr], Indices(candnbr), c[p])
    ensures BalancedAt(Charged(c, p, cost), candnbr, p, cost)
  {
    var e := Charged(c, p, cost);
    forall q | 0 <= q < candnbr ensures e[q] <= e[p] + cost {
      assert CostAtMost(c[..candnbr], q, c[p]);
    }
  }

  ghost predicate SonKept(t: Tree, c: seq<Cand>, e: seq<Cand>, r: int, j: int)
    requires ValidTree(t) && t.Has(r) && 0 <= j < t.At(r).sonsnbr && |c| == t.N() + 1 == |e|
  {
    SonsAreInRange(t, r);
    SameCand(c, e, SonI(t, r, j))
  }

  lemma PlacedNext(t: Tree, before: seq<Cand>, after: seq<Cand>, c: seq<real>, candnbr: int, r: int, f: int,
                   place: map<int, int>, rem: set<int>, i: int, p: int)
    requires ValidCosts(t) && t.Has(r) && |before| == |after| == t.N() + 1 && 1 <= candnbr <= |c|
    requires SlicesOk(t, r) && SonsInRange(t, r) && 0 <= i < t.At(r).sonsnbr && i in rem && 0 <= p < candnbr
             && place.Keys !! rem
    requires Placed(t, before, c, candnbr, r, f, place) && Descending(SonCosts(t, r), place, rem)
    requires forall j :: 0 <= j < t.At(r).sonsnbr && j != i ==> SonKept(t, before, after, r, j)
    requires Interval(after, SonI(t, r, i), f + p, f + p) && Largest(c[..candnbr], Indices(candnbr), c[p])
    ensures Placed(t, after, Charged(c, p, SonCosts(t, r)[i]), candnbr, r, f, place[i := p])
  {
    var costs, more := SonCosts(t, r), place[i := p];
    assert CostOk(t, SonI(t, r, i));
    forall k | k in more ensures PlacedOk(t, after, Charged(c, p, costs[i]), candnbr, r, f, more, k) {
      if k == i {
        BalanceNew(c, candnbr, p, costs[i]);
      } else {
        assert PlacedOk(t, before, c, candnbr, r, f, place, k) && SonKept(t, before, after, r, k);
        assert Largest(costs, rem, costs[k]) && CostAtMost(costs, i, costs[k]);
        BalanceNext(c, candnbr, place[k], costs[k], p, costs[i]);
      }
    }
  }

  lemma IndicesNext(i: int, next: int)
    requires 0 <= i && next == i + 1
    ensures Indices(next) == Indices(i) + {i} && |Indices(next)| == next
  {
    IndicesSize(next);
  }

  lemma IndicesBut(n: int, p: int)
    requires 0 <= p < n
    ensures Indices(n) - {p} + {p} == Indices(n)
  {
  }

  lemma {:induction false} IndicesSize(k: int)
    requires 0 <= k
    ensures |Indices(k)| == k
    decreases k
  {
    if k > 0 { IndicesSize(k - 1); }
  }

  class Mapper {
    const tree: Tree
    const nocrossproc: bool
    var candtab: seq<Cand>
    ghost var done: set<int>  // nodes that received an interval

    constructor (tree: Tree, nocrossproc: bool, candtab: seq<Cand>)
      ensures this.tree == tree && this.nocrossproc == nocrossproc && this.candtab == candtab && done == {}
    {
      this.tree, this.nocrossproc, this.candtab, this.done := tree, nocrossproc, candtab, {};
    }

    ghost predicate Ready(r: int, f: int, l: int)
      reads this
    {
      ValidCosts(tree) && tree.Has(r) && |candtab| == tree.N() + 1 && f <= l && SubSet(tree, r) !! done
    }

    /** Gives a node its interval; no node gets two. */
    method SetCand(r: int, f: int, l: int)
      requires Ready(r, f, l)
      modifies this`candtab, this`done
      ensures SonsMapped(tree, old(candtab), candtab, r, f, l, {}) && done == old(done) + {r}
              && |candtab| == tree.N() + 1
    {
      assert r in SubSet(tree, r);
      assert r !in done;
      MapStart(tree, candtab, candtab[r + 1 := candtab[r + 1].(fcandnum := f, lcandnum := l)], r, f, l);
      candtab := candtab[r + 1 := candtab[r + 1].(fcandnum := f, lcandnum := l)];
      done := done + {r};
    }

    /** propMappSubtreeOn1P: a subtree on one candidate, or on an interval as a whole. */
    method SubtreeOn1P(rootnum: int, fcandnum: int, lcandnum: int)
      requires Ready(rootnum, fcandnum, lcandnum)
      modifies this`candtab, this`done
      ensures Mapped(tree, old(candtab), candtab, rootnum, fcandnum, lcandnum)
      ensures forall d :: d in SubSet(tree, rootnum) && tree.Has(d) ==> Interval(candtab, d, fcandnum, lcandnum)
      ensures done == old(done) + SubSet(tree, rootnum)
      decreases Below(tree, rootnum), 1
    {
      ghost var c0, done0 := candtab, done;
      SetCand(rootnum, fcandnum, lcandnum);
      SonsAreInRange(tree, rootnum);
      var i, sonsnbr := 0, tree.At(rootnum).sonsnbr;
      assert Under(tree, rootnum, Indices(0)) == {};
      while i < sonsnbr
        invariant 0 <= i <= sonsnbr && SonsMapped(tree, c0, candtab, rootnum, fcandnum, lcandnum, Indices(i))
        invariant done == done0 + {rootnum} + Under(tree, rootnum, Indices(i))
        invariant AllSame(Under(tree, rootnum, Indices(i)), fcandnum, lcandnum)
      {
        SonOn1P(rootnum, fcandnum, lcandnum, i, done0, c0);
        i := i + 1;
      }
      MapDone(tree, c0, candtab, rootnum, fcandnum, lcandnum, Indices(sonsnbr));
    }

    ghost predicate AllSame(s: set<int>, f: int, l: int)
      reads this
    {
      |candtab| == tree.N() + 1 && forall d :: d in s && tree.Has(d) ==> Interval(candtab, d, f, l)
    }

    method SonOn1P(rootnum: int, fcandnum: int, lcandnum: int, i: int, ghost done0: set<int>, ghost c0: seq<Cand>)
      requires ValidCosts(tree) && tree.Has(rootnum) && 0 <= i < tree.At(rootnum).sonsnbr
      requires SonsMapped(tree, c0, candtab, rootnum, fcandnum, lcandnum, Indices(i)) && SubSet(tree, rootnum) !! done0
      requires done == done0 + {rootnum} + Under(tree, rootnum, Indices(i))
      requires AllSame(Under(tree, rootnum, Indices(i)), fcandnum, lcandnum)
      modifies this`candtab, this`done
      ensures SonsMapped(tree, c0, candtab, rootnum, fcandnum, lcandnum, Indices(i + 1))
      ensures done == done0 + {rootnum} + Under(tree, rootnum, Indices(i + 1))
      ensures AllSame(Under(tree, rootnum, Indices(i + 1)), fcandnum, lcandnum)
      decreases Below(tree, rootnum), 0
    {
      ghost var p, c := Indices(i), candtab;
      SonReady(tree, rootnum, i, done0, p);
      assert Indices(i + 1) == p + {i};
      UnderMore(tree, rootnum, p, i);
      var son := SonI(tree, rootnum, i);
      SubtreeOn1P(son, fcandnum, lcandnum);
      MapNext(tree, c0, c, candtab, rootnum, fcandnum, lcandnum, p, i, fcandnum, lcandnum);
      forall d | d in Under(tree, rootnum, p + {i}) && tree.Has(d) ensures Interval(candtab, d, fcandnum, lcandnum) {
        if d !in SubSet(tree, son) { assert SameCand(c, candtab, d); }
      }
    }

    /** What is known of the recursion on r while its sons are mapped: those in rem are not. */
    ghost predicate MappedBut(r: int, f: int, l: int, rem: set<int>, c0: seq<Cand>, done0: set<int>)
      reads this
    {
      && ValidCosts(tree) && tree.Has(r) && SubSet(tree, r) !! done0 && rem <= Indices(tree.At(r).sonsnbr)
      && SonsMapped(tree, c0, candtab, r, f, l, Indices(tree.At(r).sonsnbr) - rem)
      && done == done0 + {r} + Under(tree, r, Indices(tree.At(r).sonsnbr) - rem)
    }

    /** Son i of r goes to candidates f2..l2 by whichever recursion; the others stay. */
    lemma SonMapped(r: int, f: int, l: int, rem: set<int>, i: int, f2: int, l2: int, c0: seq<Cand>, c: seq<Cand>,
                    done0: set<int>)
      requires ValidCosts(tree) && tree.Has(r) && SubSet(tree, r) !! done0 && rem <= Indices(tree.At(r).sonsnbr)
               && i in rem
      requires SonsMapped(tree, c0, c, r, f, l, Indices(tree.At(r).sonsnbr) - rem) && f <= f2 <= l2 <= l
      requires SlicesOk(tree, r) && tree.Has(SonI(tree, r, i)) && Mapped(tree, c, candtab, SonI(tree, r, i), f2, l2)
      requires done == done0 + {r} + Under(tree, r, Indices(tree.At(r).sonsnbr) - rem) + SubSet(tree, SonI(tree, r, i))
      ensures MappedBut(r, f, l, rem - {i}, c0, done0)
    {
      var p := Indices(tree.At(r).sonsnbr) - rem;
      MapNext(tree, c0, c, candtab, r, f, l, p, i, f2, l2);
      UnderMore(tree, r, p, i);
      assert Indices(tree.At(r).sonsnbr) - (rem - {i}) == p + {i};
    }

    /** One son on one candidate. */
    method SonOnOne(rootnum: int, fcandnum: int, lcandnum: int, i: int, p: int, ghost rem: set<int>,
                    ghost c0: seq<Cand>, ghost done0: set<int>)
      requires MappedBut(rootnum, fcandnum, lcandnum, rem, c0, done0) && i in rem && 0 <= p <= lcandnum - fcandnum
      modifies this`candtab, this`done
      ensures MappedBut(rootnum, fcandnum, lcandnum, rem - {i}, c0, done0)
      ensures SlicesOk(tree, rootnum) && 0 <= SonI(tree, rootnum, i) < tree.N()
      ensures Interval(candtab, SonI(tree, rootnum, i), fcandnum + p, fcandnum + p)
      ensures CandKept(old(candtab), candtab, SubSet(tree, SonI(tree, rootnum, i)))
      ensures |old(candtab)| == |candtab| && forall j :: 0 <= j < tree.At(rootnum).sonsnbr && j != i ==>
                SonKept(tree, old(candtab), candtab, rootnum, j)
    {
      ghost var done1, c := Indices(tree.At(rootnum).sonsnbr) - rem, candtab;
      SonReady(tree, rootnum, i, done0, done1);
      var son := SonI(tree, rootnum, i);
      SubtreeOn1P(son, fcandnum + p, fcandnum + p);
      SonMapped(rootnum, fcandnum, lcandnum, rem, i, fcandnum + p, fcandnum + p, c0, c, done0);
      forall j | 0 <= j < tree.At(rootnum).sonsnbr && j != i ensures SonKept(tree, c, candtab, rootnum, j) {
        OtherSon(tree, rootnum, i, j);
        assert SameCand(c, candtab, SonI(tree, rootnum, j));
      }
    }

    ghost function Costs(r: int): seq<real>
      requires ValidCosts(tree) && tree.Has(r)
    {
      SonsAreInRange(tree, r);
      SonCosts(tree, r)
    }

    method PushSon(q: Queue, rootnum: int, i: int)
      requires ValidCosts(tree) && tree.Has(rootnum) && SliceOk(tree, rootnum) && SonsInRange(tree, rootnum)
      requires 0 <= i < tree.At(rootnum).sonsnbr && q.Valid() && Holds(q.Contents(), Indices(i), Costs(rootnum))
      modifies q, q.elttab
      ensures q.Valid() && (q.elttab == old(q.elttab) || fresh(q.elttab)) && q.used == i + 1
      ensures Holds(q.Contents(), Indices(i + 1), Costs(rootnum))
    {
      var son := tree.At(SonI(tree, rootnum, i));
      ghost var rem, costs := Indices(i), Costs(rootnum);
      assert i !in rem && son.subtree == costs[i];
      PushCost(q, i, son.subtree, -(son.total.Floor as real), rem, costs);
      IndicesNext(i, i + 1);
    }

    /** The sons, by decreasing cost of subtree and then of node. */
    method PushSons(rootnum: int) returns (q: Queue)
      requires ValidCosts(tree) && tree.Has(rootnum)
      ensures fresh(q) && fresh(q.elttab) && q.Valid() && q.used == tree.At(rootnum).sonsnbr
      ensures Holds(q.Contents(), Indices(tree.At(rootnum).sonsnbr), Costs(rootnum))
    {
      SonsAreInRange(tree, rootnum);
      var sonsnbr := tree.At(rootnum).sonsnbr;
      q := new Queue(sonsnbr);
      assert EltSeq([]) == [];
      var i := 0;
      while i < sonsnbr
        invariant 0 <= i <= sonsnbr && fresh(q) && fresh(q.elttab) && q.Valid() && q.used == i
        invariant Holds(q.Contents(), Indices(i), Costs(rootnum))
      {
        PushSon(q, rootnum, i);
        i := i + 1;
      }
    }

    // ----- Second stage -----

    /** Charges a subtree to a candidate and puts it back in the queue. */
    method Recharge(c: array<real>, candnbr: int, qp: Queue, p: int, cost: real)
      requires 0 <= p < candnbr <= c.Length && qp.Valid() && Holds(qp.Contents(), Indices(candnbr) - {p}, c[..candnbr])
      modifies c, qp, qp.elttab
      ensures qp.Valid() && (qp.elttab == old(qp.elttab) || fresh(qp.elttab)) && qp.used == candnbr
      ensures Holds(qp.Contents(), Indices(candnbr), c[..candnbr]) && c[..] == Charged(old(c[..]), p, cost)
    {
      ghost var before, s, rem := c[..], c[..candnbr], Indices(candnbr) - {p};
      c[p] := c[p] - cost;
      ghost var after := c[..];
      assert after == Charged(before, p, cost);
      HoldsOther(qp.Contents(), rem, s, p, c[p]);
      assert c[..candnbr] == s[p := c[p]];
      PushCost(qp, p, c[p], 0.0, rem, c[..candnbr]);
      assert c[..] == after;
      IndicesBut(candnbr, p);
      IndicesSize(candnbr);
    }

    /** Where the second stage stands: the sons in rem are still in the queue, place says where
        the others went. */
    ghost predicate Dealing(r: int, f: int, l: int, c: seq<real>, candnbr: int, rem0: set<int>, rem: set<int>,
                            place: map<int, int>, c0: seq<Cand>, done0: set<int>, base: seq<real>,
                            cand1: seq<Cand>)
      reads this
    {
      && MappedBut(r, f, l, rem, c0, done0) && 1 <= candnbr <= |c| == l - f + 1
      && Charges(Costs(r), place, base, c) && CandKept(cand1, candtab, Under(tree, r, rem0))
      && Placed(tree, candtab, c, candnbr, r, f, place) && Descending(Costs(r), place, rem)
      && place.Keys == rem0 - rem && rem <= rem0 && Sum(c) == SumRem(Costs(r), rem, |Costs(r)|)
    }

    /** The largest son left goes to the candidate with the most work left. */
    method MapLargest(rootnum: int, fcandnum: int, lcandnum: int, c: array<real>, candnbr: int, qt: Queue, qp: Queue,
                      ghost rem0: set<int>, ghost rem: set<int>, ghost c0: seq<Cand>, ghost done0: set<int>,
                      ghost place: map<int, int>, ghost base: seq<real>, ghost cand1: seq<Cand>)
      returns (ghost i: int, ghost p: int)
      requires Dealing(rootnum, fcandnum, lcandnum, c[..], candnbr, rem0, rem, place, c0, done0, base, cand1)
      requires qt != qp && qt.elttab != qp.elttab && qt.Valid() && qp.Valid() && qt.used > 0 && qp.used > 0
      requires Holds(qt.Contents(), rem, Costs(rootnum)) && Holds(qp.Contents(), Indices(candnbr), c[..candnbr])
      modifies this`candtab, this`done, c, qt, qt.elttab, qp, qp.elttab
      ensures i in rem
              && Dealing(rootnum, fcandnum, lcandnum, c[..], candnbr, rem0, rem - {i}, place[i := p], c0, done0, base,
                         cand1)
      ensures qt.Valid() && qp.Valid() && qt.elttab == old(qt.elttab)
              && (qp.elttab == old(qp.elttab) || fresh(qp.elttab))
      ensures qt.used == |rem - {i}| && qp.used == candnbr
      ensures Holds(qt.Contents(), rem - {i}, Costs(rootnum)) && Holds(qp.Contents(), Indices(candnbr), c[..candnbr])
    {
      ghost var s, costs, before := c[..], Costs(rootnum), candtab;
      var son, cumul := PopLargest(qt, rem, costs);
      var fcand, _ := PopLargest(qp, Indices(candnbr), c[..candnbr]);
      i, p := son, fcand;
      assert c[..] == s && Largest(s[..candnbr], Indices(candnbr), s[fcand]);
      SonOnOne(rootnum, fcandnum, lcandnum, son, fcand, rem, c0, done0);
      assert c[..] == s;
      Recharge(c, candnbr, qp, fcand, cumul);
      DealtNext(before, s, candnbr, rootnum, fcandnum, lcandnum, place, rem0, rem, i, p, c0, done0, base, cand1);
    }

    lemma DealtNext(before: seq<Cand>, s: seq<real>, candnbr: int, r: int, f: int, l: int, place: map<int, int>,
                    rem0: set<int>, rem: set<int>, i: int, p: int, c0: seq<Cand>, done0: set<int>, base: seq<real>,
                    cand1: seq<Cand>)
      requires MappedBut(r, f, l, rem - {i}, c0, done0) && 1 <= candnbr <= |s| == l - f + 1
               && |before| == |candtab| == tree.N() + 1
      requires Placed(tree, before, s, candnbr, r, f, place) && Descending(Costs(r), place, rem)
      requires place.Keys == rem0 - rem && rem <= rem0 && Sum(s) == SumRem(Costs(r), rem, |Costs(r)|)
      requires i in rem && 0 <= i < |Costs(r)| && 0 <= p < candnbr && Largest(Costs(r), rem, Costs(r)[i])
               && Largest(s[..candnbr], Indices(candnbr), s[p])
      requires forall j :: 0 <= j < tree.At(r).sonsnbr && j != i ==> SonKept(tree, before, candtab, r, j)
      requires SlicesOk(tree, r) && 0 <= SonI(tree, r, i) < tree.N()
               && Interval(candtab, SonI(tree, r, i), f + p, f + p)
      requires Charges(Costs(r), place, base, s) && CandKept(cand1, before, Under(tree, r, rem0))
               && CandKept(before, candtab, SubSet(tree, SonI(tree, r, i)))
      ensures Dealing(r, f, l, Charged(s, p, Costs(r)[i]), candnbr, rem0, rem - {i}, place[i := p], c0, done0, base,
                      cand1)
    {
      SonsAreInRange(tree, r);
      PlacedNext(tree, before, candtab, s, candnbr, r, f, place, rem, i, p);
      DescendingNext(Costs(r), place, rem, i, p);
      ChargedSum(Costs(r), s, rem, i, p);
      KeysNext(place, rem0, rem, i, p);
      assert i !in place.Keys;
      ChargesNext(Costs(r), place, base, s, i, p);
      KeptUnder(tree, r, rem0, i, cand1, before, candtab);
    }

    /** The candidates by decreasing work left. */
    method PushCandidates(c: array<real>, candnbr: int) returns (qp: Queue)
      requires 0 <= candnbr <= c.Length
      ensures fresh(qp) && fresh(qp.elttab) && qp.Valid() && qp.used == candnbr
      ensures Holds(qp.Contents(), Indices(candnbr), c[..candnbr])
    {
      qp := new Queue(candnbr);
      assert EltSeq([]) == [];
      ghost var costs := c[..candnbr];
      var i := 0;
      while i < candnbr
        invariant 0 <= i <= candnbr && fresh(qp) && fresh(qp.elttab) && qp.Valid() && qp.used == i
        invariant Holds(qp.Contents(), Indices(i), costs)
      {
        PushCost(qp, i, c[i], 0.0, Indices(i), costs);
        IndicesNext(i, i + 1);
        i := i + 1;
      }
    }

    /** Distributes the sons left, each time the largest to the candidate with the most work
        left; place says where each one went. */
    method SecondStage(rootnum: int, fcandnum: int, lcandnum: int, c: array<real>, candnbr: int, qt: Queue,
                       ghost rem0: set<int>, ghost c0: seq<Cand>, ghost done0: set<int>)
      returns (ghost place: map<int, int>)
      requires MappedBut(rootnum, fcandnum, lcandnum, rem0, c0, done0)
               && 1 <= candnbr <= c.Length == lcandnum - fcandnum + 1
      requires qt.Valid() && qt.used == |rem0| && Holds(qt.Contents(), rem0, Costs(rootnum))
      requires Sum(c[..]) == SumRem(Costs(rootnum), rem0, |Costs(rootnum)|)
      modifies this`candtab, this`done, c, qt, qt.elttab
      ensures MappedBut(rootnum, fcandnum, lcandnum, {}, c0, done0) && Sum(c[..]) == 0.0
      ensures place.Keys == rem0 && Placed(tree, candtab, c[..], candnbr, rootnum, fcandnum, place)
      ensures Charges(Costs(rootnum), place, old(c[..]), c[..])
              && CandKept(old(candtab), candtab, Under(tree, rootnum, rem0))
    {
      ghost var base, cand1 := c[..], candtab;
      ChargesNone(Costs(rootnum), base);
      var qp := PushCandidates(c, candnbr);
      ghost var rem := rem0;
      place := map[];
      while qt.used > 0
        invariant qt.Valid() && qp.Valid() && qt.elttab == old(qt.elttab) && fresh(qp) && fresh(qp.elttab)
        invariant Dealing(rootnum, fcandnum, lcandnum, c[..], candnbr, rem0, rem, place, c0, done0, base, cand1)
        invariant qt.used == |rem| && qp.used == candnbr
        invariant Holds(qt.Contents(), rem, Costs(rootnum)) && Holds(qp.Contents(), Indices(candnbr), c[..candnbr])
        decreases |rem|
      {
        ghost var i, p :=
            MapLargest(rootnum, fcandnum, lcandnum, c, candnbr, qt, qp, rem0, rem, c0, done0, place, base, cand1);
        place, rem := place[i := p], rem - {i};
      }
      SumRemNone(Costs(rootnum), |Costs(rootnum)|);
    }

    // ----- First stage -----

    /** Candidates fcand..lcand take part in a subtree of that cost; left is what they cannot take. */
    method Gather(c: array<real>, fcand: int, candnbr: int, cost: real, epsilon: real, ghost top: real,
                  ghost rest: real)
      returns (lcand: int, left: real)
      requires Active(c[..], fcand, candnbr, top, rest)
      ensures StopsAt(c[..], fcand, candnbr, lcand, cost, epsilon, nocrossproc)
              && left == LeftOver(c[..], fcand, lcand, cost)
    {
      lcand := fcand;
      var scandnbr := 1;
      left := cost - c[fcand];
      LeftOverFirst(c[..], fcand, cost);
      while left > Threshold(nocrossproc, scandnbr, epsilon) && lcand < candnbr - 1
        invariant fcand <= lcand < candnbr && scandnbr == lcand - fcand + 1
                  && left == LeftOver(c[..], fcand, lcand, cost)
        invariant forall k :: fcand <= k < lcand ==> GoesOn(c[..], fcand, k, cost, epsilon, nocrossproc)
        decreases candnbr - lcand
      {
        lcand, scandnbr := lcand + 1, scandnbr + 1;
        assert UntouchedShare(c[..], lcand, top);
        assert c[lcand] > 0.0;
        left := left - c[lcand];
        LeftOverNext(c[..], fcand, lcand - 1, cost);
      }
    }

    /** Moves the share of a subtree to an array of its own. */
    method Share(c: array<real>, fcand: int, lcand: int, left: real) returns (sub: array<real>)
      requires 0 <= fcand <= lcand < c.Length
      modifies c
      ensures fresh(sub) && sub[..] == SubShares(old(c[..]), fcand, lcand, left)
      ensures c[..] == Remaining(old(c[..]), fcand, lcand, left)
    {
      if left > 0.0 {
        sub := ShareEqually(c, fcand, lcand, left);
      } else {
        sub := ShareExactly(c, fcand, lcand, left);
      }
    }

    /** Each candidate takes the same part of what is left over. */
    method ShareEqually(c: array<real>, fcand: int, lcand: int, left: real) returns (sub: array<real>)
      requires 0 <= fcand <= lcand < c.Length && left > 0.0
      modifies c
      ensures fresh(sub) && sub[..] == SubShares(old(c[..]), fcand, lcand, left)
      ensures c[..] == Remaining(old(c[..]), fcand, lcand, left)
    {
      var scandnbr := lcand - fcand + 1;
      ghost var s, r := c[..], Remaining(c[..], fcand, lcand, left);
      ghost var u := SubShares(s, fcand, lcand, left);
      sub := new real[scandnbr];
      var isocost := left / scandnbr as real;
      EqualAt(s, fcand, lcand, left);
      var p := 0;
      while p < scandnbr
        invariant 0 <= p <= scandnbr && forall k :: 0 <= k < p ==> sub[k] == u[k]
        invariant forall k :: 0 <= k < c.Length ==> c[k] == if k < fcand + p then r[k] else s[k]
      {
        sub[p] := c[fcand + p] + isocost;
        c[fcand + p] := -isocost;
        p := p + 1;
      }
    }

    /** All but the last candidate give all they have. */
    method ShareExactly(c: array<real>, fcand: int, lcand: int, left: real) returns (sub: array<real>)
      requires 0 <= fcand <= lcand < c.Length && left <= 0.0
      modifies c
      ensures fresh(sub) && sub[..] == SubShares(old(c[..]), fcand, lcand, left)
      ensures c[..] == Remaining(old(c[..]), fcand, lcand, left)
    {
      ghost var s := c[..];
      sub := GiveAll(c, fcand, lcand);
      ExactAt(s, fcand, lcand, left);
      sub[lcand - fcand] := c[lcand] + left;
      c[lcand] := -left;
    }

    /** The candidates before lcand give all they have. */
    method GiveAll(c: array<real>, fcand: int, lcand: int) returns (sub: array<real>)
      requires 0 <= fcand <= lcand < c.Length
      modifies c
      ensures fresh(sub) && sub.Length == lcand - fcand + 1
      ensures forall k :: 0 <= k < lcand - fcand ==> sub[k] == old(c[..])[fcand + k]
      ensures forall k :: 0 <= k < c.Length ==> c[k] == if fcand <= k < lcand then 0.0 else old(c[k])
    {
      var scandnbr := lcand - fcand + 1;
      ghost var s := c[..];
      sub := new real[scandnbr];
      var p := 0;
      while p < scandnbr - 1
        invariant 0 <= p <= scandnbr - 1 && forall k :: 0 <= k < p ==> sub[k] == s[fcand + k]
        invariant forall k :: 0 <= k < c.Length ==> c[k] == if fcand <= k < fcand + p then 0.0 else s[k]
      {
        sub[p] := c[fcand + p];
        c[fcand + p] := 0.0;
        p := p + 1;
      }
    }

    /** Where the first stage stands: the sons in rem are still in the queue, and the work left
        to the candidates is their cost. */
    ghost predicate Sharing(r: int, f: int, l: int, c: seq<real>, rem: set<int>, c0: seq<Cand>, done0: set<int>)
      reads this
    {
      MappedBut(r, f, l, rem, c0, done0) && |c| == l - f + 1 && Sum(c) == SumRem(Costs(r), rem, |Costs(r)|)
    }

    ghost predicate Using(r: int, c: seq<real>, fcand: int, candnbr: int, top: real, rem: set<int>)
      requires ValidCosts(tree) && tree.Has(r)
    {
      Active(c, fcand, candnbr, top, SumRem(Costs(r), rem, |Costs(r)|))
    }

    /** One son on the first candidate in use; the first stage ends here. */
    method ShareWhole(rootnum: int, fcandnum: int, lcandnum: int, c: array<real>, fcand: int, i: int, cost: real,
                      ghost rem: set<int>, ghost c0: seq<Cand>, ghost done0: set<int>, ghost g: Stage)
      returns (ghost x: Round)
      requires Sharing(rootnum, fcandnum, lcandnum, c[..], rem, c0, done0) && i in rem && 0 <= fcand < g.candnbr
      requires 0 <= i < |Costs(rootnum)| && cost == Costs(rootnum)[i] && StageFits(rootnum, g, c[..])
      requires cost <= c[fcand] || (nocrossproc && cost <= c[fcand] + g.epsilon)
      modifies this`candtab, this`done, c
      ensures Sharing(rootnum, fcandnum, lcandnum, c[..], rem - {i}, c0, done0)
      ensures x == Round(i, fcand, fcand, fcand, old(c[..]), c[..]) && RoundOk(g, x) && IsWhole(g, x)
      ensures Took(tree, old(candtab), candtab, rootnum, fcandnum, g, x)
    {
      ghost var before := candtab;
      ghost var s := c[..];
      ChargedSum(Costs(rootnum), s, rem, i, fcand);
      c[fcand] := c[fcand] - cost;
      assert c[..] == Charged(s, fcand, cost);
      SonOnOne(rootnum, fcandnum, lcandnum, i, fcand, rem, c0, done0);
      x := Round(i, fcand, fcand, fcand, s, c[..]);
      SonsAreInRange(tree, rootnum);
      WholeIsRound(tree, before, candtab, rootnum, fcandnum, g, x);
    }

    /** The stage g is that of node r. */
    ghost predicate StageFits(r: int, g: Stage, c: seq<real>)
      requires ValidCosts(tree) && tree.Has(r)
    {
      && g.costs == Costs(r) && g.nocross == nocrossproc && g.epsilon > 0.0 && |c| == |g.start|
      && 0 <= g.candnbr <= |c|
    }

    /** One son on as many candidates as it needs; fcand is the first one in use afterwards, and
        stop tells that a candidate may not take part in two subtrees. */
    method ShareMany(rootnum: int, fcandnum: int, lcandnum: int, c: array<real>, candnbr: int, fcand0: int, i: int,
                     cost: real, epsilon: real, ghost top: real, ghost rem: set<int>, ghost c0: seq<Cand>,
                     ghost done0: set<int>, ghost g: Stage)
      returns (fcand: int, stop: bool, ghost x: Round)
      requires Sharing(rootnum, fcandnum, lcandnum, c[..], rem, c0, done0) && i in rem && epsilon > 0.0
      requires StageFits(rootnum, g, c[..]) && g.candnbr == candnbr && g.epsilon == epsilon
      requires 0 <= i < |Costs(rootnum)| && cost == Costs(rootnum)[i]
               && Using(rootnum, c[..], fcand0, candnbr, top, rem)
      requires !(cost <= c[fcand0] || (nocrossproc && cost <= c[fcand0] + epsilon))
      modifies this`candtab, this`done, c
      ensures Sharing(rootnum, fcandnum, lcandnum, c[..], rem - {i}, c0, done0)
      ensures Using(rootnum, c[..], fcand, candnbr, top, rem - {i})
      ensures x.son == i && x.use == fcand0 && x.before == old(c[..]) && x.after == c[..]
      ensures Took(tree, old(candtab), candtab, rootnum, fcandnum, g, x)
      ensures fcand == NextUse(g, x) && (stop <==> !MayFollow(g, x))
      decreases Below(tree, rootnum), 0, 1
    {
      ghost var rest := SumRem(Costs(rootnum), rem, |Costs(rootnum)|);
      ghost var s, before := c[..], candtab;
      fcand := Skip(c, candnbr, fcand0, epsilon, top, rest);
      var lcand := ShareFrom(rootnum, fcandnum, lcandnum, c, candnbr, fcand, i, cost, epsilon, top, rem, c0, done0, g);
      x := Round(i, fcand0, fcand, lcand, s, c[..]);
      GetsIsRound(tree, before, candtab, rootnum, fcandnum, g, x);
      fcand, stop := NextCandidate(c, lcand, candnbr, epsilon);
    }

    /** Finds the candidates of a son and maps it on them. */
    method ShareFrom(rootnum: int, fcandnum: int, lcandnum: int, c: array<real>, candnbr: int, fcand: int, i: int,
                     cost: real, epsilon: real, ghost top: real, ghost rem: set<int>, ghost c0: seq<Cand>,
                     ghost done0: set<int>, ghost g: Stage)
      returns (lcand: int)
      requires Sharing(rootnum, fcandnum, lcandnum, c[..], rem, c0, done0) && i in rem && epsilon > 0.0
      requires 0 <= i < |Costs(rootnum)| && cost == Costs(rootnum)[i] && Using(rootnum, c[..], fcand, candnbr, top, rem)
      requires StageFits(rootnum, g, c[..]) && g.candnbr == candnbr && g.epsilon == epsilon
      modifies this`candtab, this`done, c
      ensures Gets(tree, old(candtab), candtab, rootnum, fcandnum, g, old(c[..]), c[..], fcand, lcand, i)
      ensures 0 <= lcand < candnbr <= c.Length && Sharing(rootnum, fcandnum, lcandnum, c[..], rem - {i}, c0, done0)
      ensures Using(rootnum, c[..], lcand, candnbr, top, rem - {i})
      ensures lcand < candnbr - 1 ==> Using(rootnum, c[..], lcand + 1, candnbr, top, rem - {i})
      decreases Below(tree, rootnum), 0, 0, 2
    {
      CostPositive(tree, rootnum, i);
      var left;
      lcand, left := Gather(c, fcand, candnbr, cost, epsilon, top, SumRem(Costs(rootnum), rem, |Costs(rootnum)|));
      MapShare(rootnum, fcandnum, lcandnum, c, candnbr, fcand, lcand, i, cost, left, epsilon, top, rem, c0, done0, g);
    }

    /** The first candidate in use after a share that ended at lcand. */
    method NextCandidate(c: array<real>, lcand: int, candnbr: int, epsilon: real) returns (fcand: int, stop: bool)
      requires 0 <= lcand < candnbr <= c.Length
      ensures if lcand < candnbr - 1 && (nocrossproc || c[lcand] < epsilon) then fcand == lcand + 1 && !stop
              else fcand == lcand && stop == nocrossproc
    {
      if lcand < candnbr - 1 && (nocrossproc || c[lcand] < epsilon) {
        fcand, stop := lcand + 1, false;
      } else {
        fcand, stop := lcand, nocrossproc;
      }
    }

    /** A first candidate with almost nothing left is skipped, unless it is the last. */
    method Skip(c: array<real>, candnbr: int, fcand0: int, epsilon: real, ghost top: real, ghost rest: real)
      returns (fcand: int)
      requires Active(c[..], fcand0, candnbr, top, rest)
      ensures Active(c[..], fcand, candnbr, top, rest)
      ensures fcand == if fcand0 < candnbr - 1 && c[fcand0] <= epsilon then fcand0 + 1 else fcand0
    {
      fcand := fcand0;
      if fcand < candnbr - 1 && c[fcand] <= epsilon {
        NextActive(c[..], fcand, candnbr, top, rest);
        fcand := fcand + 1;
      }
    }

    /** Gives a son its share and maps it. */
    method MapShare(rootnum: int, fcandnum: int, lcandnum: int, c: array<real>, candnbr: int, fcand: int, lcand: int,
                    i: int, cost: real, left: real, epsilon: real, ghost top: real, ghost rem: set<int>,
                    ghost c0: seq<Cand>, ghost done0: set<int>, ghost g: Stage)
      requires Sharing(rootnum, fcandnum, lcandnum, c[..], rem, c0, done0) && i in rem && epsilon > 0.0 && cost > 0.0
      requires StageFits(rootnum, g, c[..]) && g.candnbr == candnbr && g.epsilon == epsilon
      requires 0 <= i < |Costs(rootnum)| && cost == Costs(rootnum)[i] && Using(rootnum, c[..], fcand, candnbr, top, rem)
      requires StopsAt(c[..], fcand, candnbr, lcand, cost, epsilon, nocrossproc)
               && left == LeftOver(c[..], fcand, lcand, cost)
      modifies this`candtab, this`done, c
      ensures Sharing(rootnum, fcandnum, lcandnum, c[..], rem - {i}, c0, done0)
      ensures Using(rootnum, c[..], lcand, candnbr, top, rem - {i})
      ensures lcand < candnbr - 1 ==> Using(rootnum, c[..], lcand + 1, candnbr, top, rem - {i})
      ensures Gets(tree, old(candtab), candtab, rootnum, fcandnum, g, old(c[..]), c[..], fcand, lcand, i)
      decreases Below(tree, rootnum), 0, 0, 1
    {
      ghost var rest := SumRem(Costs(rootnum), rem, |Costs(rootnum)|);
      ghost var subtop := ShareKeeps(c[..], fcand, candnbr, lcand, cost, epsilon, nocrossproc, top, rest);
      SumRemLess(Costs(rootnum), rem, i, |Costs(rootnum)|);
      var sub := Share(c, fcand, lcand, left);
      SonOnMany(rootnum, fcandnum, lcandnum, i, fcand, lcand, sub, subtop, rem, c0, done0);
    }

    method SonOnMany(rootnum: int, fcandnum: int, lcandnum: int, i: int, p: int, q: int, sub: array<real>,
                     ghost subtop: real, ghost rem: set<int>, ghost c0: seq<Cand>, ghost done0: set<int>)
      requires MappedBut(rootnum, fcandnum, lcandnum, rem, c0, done0) && i in rem && 0 <= p <= q <= lcandnum - fcandnum
      requires sub.Length == q - p + 1 && Flat(sub[..], subtop) && 0 <= i < |Costs(rootnum)|
               && Sum(sub[..]) == Costs(rootnum)[i]
      modifies this`candtab, this`done, sub
      ensures MappedBut(rootnum, fcandnum, lcandnum, rem - {i}, c0, done0)
      ensures Goes(tree, old(candtab), candtab, nocrossproc, rootnum, fcandnum, p, q, i, old(sub[..]))
      decreases Below(tree, rootnum), 0, 0, 0
    {
      ghost var done1, c := Indices(tree.At(rootnum).sonsnbr) - rem, candtab;
      SonReady(tree, rootnum, i, done0, done1);
      var son := SonI(tree, rootnum, i);
      Subtree(son, fcandnum + p, fcandnum + q, sub, subtop);
      SonMapped(rootnum, fcandnum, lcandnum, rem, i, fcandnum + p, fcandnum + q, c0, c, done0);
    }

    /** Sons that need several candidates, by decreasing cost; the rounds tell what each one got. */
    method FirstStage(rootnum: int, fcandnum: int, lcandnum: int, c: array<real>, candnbr: int, fcand0: int,
                      epsilon: real, qt: Queue, ghost top: real, ghost c0: seq<Cand>, ghost done0: set<int>,
                      ghost g: Stage)
      returns (ghost rounds: seq<Round>)
      requires ValidCosts(tree) && tree.Has(rootnum) && StageFits(rootnum, g, c[..])
      requires c[..] == g.start && g.fcand0 == fcand0 && g.candnbr == candnbr && g.epsilon == epsilon
      requires Sharing(rootnum, fcandnum, lcandnum, c[..], Left(g, []), c0, done0)
      requires Using(rootnum, c[..], fcand0, candnbr, top, Left(g, []))
      requires qt.Valid() && qt.used == |Left(g, [])| && Holds(qt.Contents(), Left(g, []), Costs(rootnum))
      modifies this`candtab, this`done, c, qt, qt.elttab
      ensures Sharing(rootnum, fcandnum, lcandnum, c[..], Left(g, rounds), c0, done0) && c[..] == After(g, rounds)
      ensures qt.Valid() && qt.elttab == old(qt.elttab)
      ensures qt.used == |Left(g, rounds)| && Holds(qt.Contents(), Left(g, rounds), Costs(rootnum))
      ensures Told(tree, candtab, rootnum, fcandnum, g, rounds) && Ended(g, rounds)
      decreases Below(tree, rootnum), 1, 0
    {
      var fcand, stop := fcand0, false;
      rounds := [];
      while !stop && qt.used > 0
        invariant Sharing(rootnum, fcandnum, lcandnum, c[..], Left(g, rounds), c0, done0) && c[..] == After(g, rounds)
        invariant !stop ==> Using(rootnum, c[..], fcand, candnbr, top, Left(g, rounds))
        invariant qt.Valid() && qt.elttab == old(qt.elttab) && qt.used == |Left(g, rounds)|
                  && Holds(qt.Contents(), Left(g, rounds), Costs(rootnum))
        invariant Told(tree, candtab, rootnum, fcandnum, g, rounds) && GoesOnAt(g, rounds, fcand, stop)
        decreases |Left(g, rounds)|
      {
        fcand, stop, rounds :=
            MapRound(rootnum, fcandnum, lcandnum, c, candnbr, fcand, epsilon, qt, top, c0, done0, g, rounds);
      }
    }

    /** Whether another round can come, and with which candidate. */
    ghost predicate GoesOnAt(g: Stage, rounds: seq<Round>, fcand: int, stop: bool) {
      if rounds == [] then !stop && fcand == g.fcand0
      else (stop <==> !MayFollow(g, rounds[|rounds| - 1])) && (!stop ==> fcand == NextUse(g, rounds[|rounds| - 1]))
    }

    /** One round. */
    method MapRound(rootnum: int, fcandnum: int, lcandnum: int, c: array<real>, candnbr: int, fcand0: int,
                    epsilon: real, qt: Queue, ghost top: real, ghost c0: seq<Cand>, ghost done0: set<int>,
                    ghost g: Stage, ghost was: seq<Round>)
      returns (fcand: int, stop: bool, ghost rounds: seq<Round>)
      requires ValidCosts(tree) && tree.Has(rootnum) && StageFits(rootnum, g, c[..])
      requires g.candnbr == candnbr && g.epsilon == epsilon && c[..] == After(g, was)
      requires Sharing(rootnum, fcandnum, lcandnum, c[..], Left(g, was), c0, done0)
      requires Using(rootnum, c[..], fcand0, candnbr, top, Left(g, was))
      requires qt.Valid() && qt.used == |Left(g, was)| > 0 && Holds(qt.Contents(), Left(g, was), Costs(rootnum))
      requires Told(tree, candtab, rootnum, fcandnum, g, was) && GoesOnAt(g, was, fcand0, false)
      modifies this`candtab, this`done, c, qt, qt.elttab
      ensures Sharing(rootnum, fcandnum, lcandnum, c[..], Left(g, rounds), c0, done0) && c[..] == After(g, rounds)
      ensures !stop ==> Using(rootnum, c[..], fcand, candnbr, top, Left(g, rounds))
      ensures qt.Valid() && qt.elttab == old(qt.elttab) && qt.used == |Left(g, rounds)| < |Left(g, was)|
      ensures Holds(qt.Contents(), Left(g, rounds), Costs(rootnum))
      ensures Told(tree, candtab, rootnum, fcandnum, g, rounds) && GoesOnAt(g, rounds, fcand, stop)
      decreases Below(tree, rootnum), 0, 2
    {
      ghost var rem, before := Left(g, was), candtab;
      var i, cost := PopLargest(qt, rem, Costs(rootnum));
      ghost var x: Round;
      if cost <= c[fcand0] || (nocrossproc && cost <= c[fcand0] + epsilon) {
        x := ShareWhole(rootnum, fcandnum, lcandnum, c, fcand0, i, cost, rem, c0, done0, g);
        fcand, stop := fcand0, true;
      } else {
        fcand, stop, x :=
            ShareMany(rootnum, fcandnum, lcandnum, c, candnbr, fcand0, i, cost, epsilon, top, rem, c0, done0, g);
      }
      ToldNext(tree, before, candtab, rootnum, fcandnum, g, was, x);
      rounds := was + [x];
      assert Left(g, rounds) == rem - {i};
      RoundIsLast(g, was, x, rem, i, fcand, stop);
    }

    lemma RoundIsLast(g: Stage, was: seq<Round>, x: Round, rem: set<int>, i: int, fcand: int, stop: bool)
      requires stop <==> !MayFollow(g, x)
      requires !stop ==> fcand == NextUse(g, x)
      requires i in rem
      ensures GoesOnAt(g, was + [x], fcand, stop) && After(g, was + [x]) == x.after && |rem - {i}| < |rem|
    {
    }

    // ----- The recursion -----

    /** Takes the cost of the node itself from its candidates. */
    method ChargeAll(c: array<real>, isocost: real)
      modifies c
      ensures c[..] == Shifted(old(c[..]), -isocost)
    {
      ghost var s := c[..];
      var p := 0;
      while p < c.Length
        invariant 0 <= p <= c.Length
        invariant forall k :: 0 <= k < c.Length ==> c[k] == if k < p then s[k] + -isocost else s[k]
      {
        c[p] := c[p] - isocost;
        p := p + 1;
      }
    }

    method SumUsed(c: array<real>, fcand: int, candnbr: int) returns (cumul: real)
      requires 0 <= fcand <= candnbr <= c.Length
      ensures cumul == Sum(c[fcand..candnbr])
    {
      cumul := 0.0;
      var i := fcand;
      while i < candnbr
        invariant fcand <= i <= candnbr && cumul == Sum(c[fcand..i])
      {
        assert c[fcand..i + 1] == c[fcand..i] + [c[i]];
        SumAppend(c[fcand..i], [c[i]]);
        SumOne(c[i]);
        cumul := cumul + c[i];
        i := i + 1;
      }
    }

    /** Removes the candidates that already have more work than they should; the assertions are
        those of the source, and its rescaling of the work left is never needed. */
    method Trim(c: array<real>, aspt: real, ghost top: real) returns (fcand: int, candnbr: int, epsilon: real)
      requires c.Length >= 2 && Flat(c[..], top) && Sum(c[..]) == aspt && aspt > 0.0
      ensures Active(c[..], fcand, candnbr, top, aspt) && Trims(c[..], fcand, candnbr, epsilon)
    {
      TrimLeavesWork(c[..], top, aspt);
      candnbr := c.Length;
      fcand := if c[0] <= 0.0 then 1 else 0;
      if c[candnbr - 1] <= 0.0 { candnbr := candnbr - 1; }
      assert fcand < candnbr;
      assert candnbr >= 1;
      var cumul := SumUsed(c, fcand, candnbr);
      assert c[fcand..candnbr] == c[..][fcand..candnbr];
      if cumul < aspt { assert false; }
      epsilon := CROSS_TOLERANCE * cumul / candnbr as real;
      QuotientPositive(CROSS_TOLERANCE * cumul, candnbr);
    }

    /** propMappSubtree: maps the subtree of rootnum on its candidates, whose work left sums to
        the cost of the subtree; all of it is used up, but for a leaf or a single candidate. */
    method Subtree(rootnum: int, fcandnum: int, lcandnum: int, c: array<real>, ghost top: real)
      requires Ready(rootnum, fcandnum, lcandnum) && c.Length == lcandnum - fcandnum + 1
      requires Sum(c[..]) == tree.At(rootnum).subtree && Flat(c[..], top)
      modifies this`candtab, this`done, c
      ensures Mapped(tree, old(candtab), candtab, rootnum, fcandnum, lcandnum)
      ensures done == old(done) + SubSet(tree, rootnum)
      ensures c.Length >= 2 && tree.At(rootnum).sonsnbr > 0 ==> Sum(c[..]) == 0.0
      ensures Proportional(tree, candtab, nocrossproc, rootnum, old(c[..]))
      decreases Below(tree, rootnum), 3
    {
      if c.Length == 1 {
        SubtreeOn1P(rootnum, fcandnum, lcandnum);
        return;
      }
      ghost var c0, done0 := candtab, done;
      SetCand(rootnum, fcandnum, lcandnum);
      NoSonMapped(rootnum, fcandnum, lcandnum, c0, done0);
      if tree.At(rootnum).sonsnbr == 0 {
        AllSonsMapped(rootnum, fcandnum, lcandnum, c0, done0);
        return;
      }
      MapSons(rootnum, fcandnum, lcandnum, c, top, c0, done0);
      AllSonsMapped(rootnum, fcandnum, lcandnum, c0, done0);
    }

    lemma NoSonMapped(r: int, f: int, l: int, c0: seq<Cand>, done0: set<int>)
      requires ValidCosts(tree) && tree.Has(r) && SubSet(tree, r) !! done0 && done == done0 + {r}
      requires SonsMapped(tree, c0, candtab, r, f, l, {})
      ensures MappedBut(r, f, l, Indices(tree.At(r).sonsnbr), c0, done0)
    {
      var n := tree.At(r).sonsnbr;
      assert Indices(n) - Indices(n) == {};
      assert Under(tree, r, {}) == {};
    }

    lemma AllSonsMapped(r: int, f: int, l: int, c0: seq<Cand>, done0: set<int>)
      requires ValidCosts(tree) && tree.Has(r)
      requires MappedBut(r, f, l, if tree.At(r).sonsnbr == 0 then Indices(0) else {}, c0, done0)
      ensures Mapped(tree, c0, candtab, r, f, l) && done == done0 + SubSet(tree, r)
    {
      var n := tree.At(r).sonsnbr;
      SonsAreInRange(tree, r);
      assert Indices(n) - {} == Indices(n);
      MapDone(tree, c0, candtab, r, f, l, Indices(n));
    }

    /** Charges the node itself: what is left is the cost of the sons. */
    method ChargeNode(rootnum: int, c: array<real>, ghost top: real) returns (ghost subtop: real)
      requires ValidCosts(tree) && tree.Has(rootnum) && 2 <= c.Length
      requires Sum(c[..]) == tree.At(rootnum).subtree && Flat(c[..], top)
      modifies c
      ensures c[..] == WithoutNode(tree, rootnum, old(c[..])) && Flat(c[..], subtop)
      ensures Sum(c[..]) == tree.At(rootnum).subtree - tree.At(rootnum).total
    {
      var isocost := tree.At(rootnum).total / c.Length as real;
      ChargedWhole(tree, rootnum, c[..], top);
      ChargeAll(c, isocost);
      subtop := top - isocost;
    }

    /** Charges the node itself and trims. */
    method Prepare(rootnum: int, c: array<real>, ghost top: real)
      returns (fcand: int, candnbr: int, epsilon: real, ghost subtop: real)
      requires ValidCosts(tree) && tree.Has(rootnum) && 2 <= c.Length && tree.At(rootnum).sonsnbr > 0
      requires Sum(c[..]) == tree.At(rootnum).subtree && Flat(c[..], top)
      modifies c
      ensures epsilon > 0.0 && Using(rootnum, c[..], fcand, candnbr, subtop, Indices(tree.At(rootnum).sonsnbr))
      ensures c[..] == WithoutNode(tree, rootnum, old(c[..])) && Trims(c[..], fcand, candnbr, epsilon)
    {
      SonsCost(tree, rootnum);
      subtop := ChargeNode(rootnum, c, top);
      var aspt := tree.At(rootnum).subtree - tree.At(rootnum).total;
      fcand, candnbr, epsilon := Trim(c, aspt, subtop);
    }

    method MapSons(rootnum: int, fcandnum: int, lcandnum: int, c: array<real>, ghost top: real, ghost c0: seq<Cand>,
                   ghost done0: set<int>)
      requires ValidCosts(tree) && tree.Has(rootnum)
      requires MappedBut(rootnum, fcandnum, lcandnum, Indices(tree.At(rootnum).sonsnbr), c0, done0)
      requires 2 <= c.Length == lcandnum - fcandnum + 1 && tree.At(rootnum).sonsnbr > 0
      requires Sum(c[..]) == tree.At(rootnum).subtree && Flat(c[..], top)
      modifies this`candtab, this`done, c
      ensures MappedBut(rootnum, fcandnum, lcandnum, {}, c0, done0) && Sum(c[..]) == 0.0
      ensures Proportional(tree, candtab, nocrossproc, rootnum, old(c[..]))
      decreases Below(tree, rootnum), 2
    {
      ghost var subtop, entry;
      entry := c[..];
      var fcand, candnbr, epsilon;
      fcand, candnbr, epsilon, subtop := Prepare(rootnum, c, top);
      var qt := PushSons(rootnum);
      IndicesSize(tree.At(rootnum).sonsnbr);
      ghost var g := Stage(Costs(rootnum), c[..], fcand, candnbr, nocrossproc, epsilon);
      assert Left(g, []) == Indices(tree.At(rootnum).sonsnbr);
      assert Trims(g.start, fcand, candnbr, epsilon);
      ghost var rounds, place :=
          MapStages(rootnum, fcandnum, lcandnum, c, candnbr, fcand, epsilon, qt, subtop, c0, done0, g);
      PlanIsOk(rootnum, fcandnum, lcandnum, entry, Plan(fcand, candnbr, epsilon, rounds, place, c[..]), g, c0, done0);
    }

    /** Both stages. */
    method MapStages(rootnum: int, fcandnum: int, lcandnum: int, c: array<real>, candnbr: int, fcand0: int,
                     epsilon: real, qt: Queue, ghost top: real, ghost c0: seq<Cand>, ghost done0: set<int>,
                     ghost g: Stage)
      returns (ghost rounds: seq<Round>, ghost place: map<int, int>)
      requires ValidCosts(tree) && tree.Has(rootnum) && StageFits(rootnum, g, c[..]) && 1 <= candnbr <= c.Length
      requires c[..] == g.start && g.fcand0 == fcand0 && g.candnbr == candnbr && g.epsilon == epsilon
      requires Sharing(rootnum, fcandnum, lcandnum, c[..], Left(g, []), c0, done0)
      requires Using(rootnum, c[..], fcand0, candnbr, top, Left(g, []))
      requires qt.Valid() && qt.used == |Left(g, [])| && Holds(qt.Contents(), Left(g, []), Costs(rootnum))
      modifies this`candtab, this`done, c, qt, qt.elttab
      ensures MappedBut(rootnum, fcandnum, lcandnum, {}, c0, done0) && Sum(c[..]) == 0.0
      ensures Told(tree, candtab, rootnum, fcandnum, g, rounds) && Ended(g, rounds) && place.Keys == Left(g, rounds)
      ensures Placed(tree, candtab, c[..], candnbr, rootnum, fcandnum, place)
      ensures Charges(g.costs, place, After(g, rounds), c[..])
      decreases Below(tree, rootnum), 1, 1
    {
      rounds := FirstStage(rootnum, fcandnum, lcandnum, c, candnbr, fcand0, epsilon, qt, top, c0, done0, g);
      place := MapRest(rootnum, fcandnum, lcandnum, c, candnbr, qt, c0, done0, g, rounds);
    }

    /** The second stage, if sons are left. */
    method MapRest(rootnum: int, fcandnum: int, lcandnum: int, c: array<real>, candnbr: int, qt: Queue,
                   ghost c0: seq<Cand>, ghost done0: set<int>, ghost g: Stage, ghost rounds: seq<Round>)
      returns (ghost place: map<int, int>)
      requires ValidCosts(tree) && tree.Has(rootnum) && g.costs == Costs(rootnum)
      requires Sharing(rootnum, fcandnum, lcandnum, c[..], Left(g, rounds), c0, done0) && c[..] == After(g, rounds)
      requires qt.Valid() && qt.used == |Left(g, rounds)| && Holds(qt.Contents(), Left(g, rounds), Costs(rootnum))
      requires Told(tree, candtab, rootnum, fcandnum, g, rounds) && 1 <= candnbr <= c.Length
      modifies this`candtab, this`done, c, qt, qt.elttab
      ensures MappedBut(rootnum, fcandnum, lcandnum, {}, c0, done0) && Sum(c[..]) == 0.0
      ensures Told(tree, candtab, rootnum, fcandnum, g, rounds) && place.Keys == Left(g, rounds)
      ensures Placed(tree, candtab, c[..], candnbr, rootnum, fcandnum, place)
      ensures Charges(g.costs, place, After(g, rounds), c[..])
    {
      place := map[];
      if qt.used > 0 {
        ghost var before := candtab;
        place := SecondStage(rootnum, fcandnum, lcandnum, c, candnbr, qt, Left(g, rounds), c0, done0);
        ToldKept(tree, before, candtab, rootnum, fcandnum, g, rounds, Left(g, rounds));
      } else {
        assert Left(g, rounds) == {};
        SumRemNone(Costs(rootnum), |Costs(rootnum)|);
        ChargesNone(Costs(rootnum), c[..]);
      }
    }

    lemma PlanIsOk(r: int, f: int, l: int, entry: seq<real>, p: Plan, g: Stage, c0: seq<Cand>, done0: set<int>)
      requires ValidCosts(tree) && tree.Has(r) && MappedBut(r, f, l, {}, c0, done0) && 2 <= |entry| == l - f + 1
      requires Sum(entry) == tree.At(r).subtree && g == StageOf(tree, r, nocrossproc, entry, p)
      requires Trims(g.start, p.fcand0, p.candnbr, p.epsilon) && Told(tree, candtab, r, f, g, p.rounds)
               && Ended(g, p.rounds)
      requires p.place.Keys == Left(g, p.rounds) && Placed(tree, candtab, p.rest, p.candnbr, r, f, p.place)
      requires Charges(g.costs, p.place, After(g, p.rounds), p.rest) && Sum(p.rest) == 0.0
      ensures Proportional(tree, candtab, nocrossproc, r, entry)
    {
      forall k | 0 <= k < |p.rounds| ensures RoundMapped(tree, candtab, r, f, p.rounds[k]) {
        assert ToldAt(tree, candtab, r, f, g, p.rounds[k]);
      }
      NodeDone(tree, candtab, nocrossproc, r, entry, p);
    }

    /** Every candidate starts with an equal part of the whole cost. */
    method EqualParts(candnbr: int, cost: real) returns (c: array<real>, ghost isocost: real)
      requires candnbr >= 1
      ensures fresh(c) && c[..] == Const(candnbr, cost / candnbr as real) && Sum(c[..]) == cost && Flat(c[..], isocost)
    {
      var part := cost / candnbr as real;
      isocost := part;
      c := new real[candnbr];
      var p := 0;
      while p < candnbr
        invariant 0 <= p <= candnbr && forall k :: 0 <= k < p ==> c[k] == part
      {
        c[p] := part;
        p := p + 1;
      }
      assert c[..] == Const(candnbr, part);
      SumConst(candnbr, part);
      DivTimes(candnbr, cost);
    }

    lemma AllIntervals(n: nat)
      requires ValidCosts(tree) && n >= 1 && Nested(tree, candtab, n - 1) && Interval(candtab, -1, 0, n - 1)
      requires Proportional(tree, candtab, nocrossproc, -1, Const(n, tree.At(-1).subtree / n as real))
      ensures FairSonsAreSingle(tree, candtab, n)
      ensures forall d :: tree.Has(d) ==> SonsSeparate(tree, candtab, nocrossproc, d)
    {
      RootIsFair(tree, candtab, nocrossproc, n);
      forall d | tree.Has(d) ensures SonsSeparate(tree, candtab, nocrossproc, d) {
        AllSeparate(tree, candtab, nocrossproc, n - 1, Const(n, tree.At(-1).subtree / n as real), d);
      }
    }

    /** propMappTree: every node gets one interval of candidates, part of that of its father. */
    method MapTree(candnbr: int, allcand: bool)
      requires ValidCosts(tree) && |candtab| == tree.N() + 1 && done == {} && candnbr >= 1
      modifies this`candtab, this`done
      ensures |candtab| == |old(candtab)| && LevelsSame(old(candtab), candtab)
      ensures Interval(candtab, -1, 0, candnbr - 1) && done == SubSet(tree, -1)
      ensures Nested(tree, candtab, candnbr - 1)
      ensures allcand ==> Everyone(tree, candtab, candnbr - 1)
      ensures !allcand ==>
                && Proportional(tree, candtab, nocrossproc, -1, Const(candnbr, tree.At(-1).subtree / candnbr as real))
                && FairSonsAreSingle(tree, candtab, candnbr)
                && (forall d :: tree.Has(d) ==> SonsSeparate(tree, candtab, nocrossproc, d))
    {
      ghost var c0 := candtab;
      if allcand {
        SubtreeOn1P(-1, 0, candnbr - 1);
      } else {
        var c, isocost := EqualParts(candnbr, tree.At(-1).subtree);
        Subtree(-1, 0, candnbr - 1, c, isocost);
      }
      MappedAll(tree, c0, candtab, candnbr - 1);
      if !allcand { AllIntervals(candnbr); }
      forall d | 0 <= d < tree.N() ensures d in SubSet(tree, -1) { AllBelowRoot(tree, d); }
    }
  }

  ghost predicate Everyone(t: Tree, c: seq<Cand>, l: int) {
    |c| == t.N() + 1 && forall d :: 0 <= d < t.N() ==> Interval(c, d, 0, l)
  }

  lemma MappedAll(t: Tree, c0: seq<Cand>, c: seq<Cand>, l: int)
    requires ValidTree(t) && Mapped(t, c0, c, -1, 0, l)
    ensures Nested(t, c, l)
  {
    forall d | 0 <= d < t.N() ensures Inside(c, d, 0, l) && InFather(t, c, d) {
      AllBelowRoot(t, d);
      assert d in SubSet(t, -1) - {-1};
    }
  }

  /** What the share of a subtree keeps true, both for the subtree and for its candidates. */
  lemma ShareKeeps(s: seq<real>, fcand: int, candnbr: int, lcand: int, cost: real, epsilon: real, nocrossproc: bool,
                   top: real, rest: real)
    returns (subtop: real)
    requires Active(s, fcand, candnbr, top, rest) && cost > 0.0 && epsilon > 0.0
    requires StopsAt(s, fcand, candnbr, lcand, cost, epsilon, nocrossproc)
    ensures var left := LeftOver(s, fcand, lcand, cost); var r := Remaining(s, fcand, lcand, left);
            && Sum(SubShares(s, fcand, lcand, left)) == cost && Flat(SubShares(s, fcand, lcand, left), subtop)
            && Sum(r) == rest - cost && Active(r, lcand, candnbr, top, rest - cost)
            && (lcand < candnbr - 1 ==> Active(r, lcand + 1, candnbr, top, rest - cost))
  {
    var left := LeftOver(s, fcand, lcand, cost);
    LastNotUsedUp(s, fcand, candnbr, lcand, cost, epsilon, nocrossproc);
    SubSharesSum(s, fcand, lcand, cost);
    subtop := SubSharesFlat(s, fcand, candnbr, top, rest, lcand, left);
    RemainingActive(s, fcand, candnbr, top, rest, lcand, cost, lcand);
    if lcand < candnbr - 1 { RemainingActive(s, fcand, candnbr, top, rest, lcand, cost, lcand + 1); }
  }

  lemma QuotientPositive(x: real, n: int)
    requires x > 0.0 && n > 0
    ensures x / n as real > 0.0
  {
    DivTimes(n, x);
  }

  lemma CostPositive(t: Tree, r: int, i: int)
    requires ValidCosts(t) && t.Has(r) && 0 <= i < t.At(r).sonsnbr
    ensures SlicesOk(t, r) && SonsInRange(t, r) && SonCosts(t, r)[i] > 0.0
  {
    SonsAreInRange(t, r);
    assert CostOk(t, SonI(t, r, i));
  }

  lemma {:induction false} SumPositive(s: seq<real>)
    requires forall i :: 0 <= i < |s| ==> s[i] > 0.0
    ensures if s == [] then Sum(s) == 0.0 else Sum(s) > 0.0
    decreases |s|
  {
    if s != [] { SumPositive(s[..|s| - 1]); }
  }

  /** Without the cost of the node, the work left is the cost of its sons. */
  lemma ChargedWhole(t: Tree, r: int, c: seq<real>, top: real)
    requires ValidCosts(t) && t.Has(r) && |c| >= 2 && Sum(c) == t.At(r).subtree && Flat(c, top)
    ensures var isocost := t.At(r).total / |c| as real; var s := Shifted(c, -isocost);
            Flat(s, top - isocost) && Sum(s) == t.At(r).subtree - t.At(r).total
  {
    ShiftedLess(c, t.At(r).total);
    FlatShifted(c, top, t.At(r).total / |c| as real);
  }

  lemma SonsCost(t: Tree, r: int)
    requires ValidCosts(t) && t.Has(r) && t.At(r).sonsnbr > 0
    ensures t.At(r).subtree - t.At(r).total > 0.0
    ensures SlicesOk(t, r) && SonsInRange(t, r)
    ensures t.At(r).subtree - t.At(r).total == SumRem(SonCosts(t, r), Indices(t.At(r).sonsnbr), t.At(r).sonsnbr)
  {
    SonsAreInRange(t, r);
    assert CostOk(t, r);
    var costs := SonCosts(t, r);
    forall i | 0 <= i < |costs| ensures costs[i] > 0.0 { CostPositive(t, r, i); }
    SumPositive(costs);
    SumRemAll(costs, |costs|);
    assert costs[..|costs|] == costs;
  }

  lemma NextActive(s: seq<real>, fcand: int, candnbr: int, top: real, rest: real)
    requires Active(s, fcand, candnbr, top, rest) && fcand < candnbr - 1
    ensures Active(s, fcand + 1, candnbr, top, rest)
  {
    assert UntouchedShare(s, fcand + 1, top);
  }

  lemma EqualAt(s: seq<real>, fcand: int, lcand: int, left: real)
    requires 0 <= fcand <= lcand < |s| && left > 0.0
    ensures var r, x := Remaining(s, fcand, lcand, left), left / (lcand - fcand + 1) as real;
            forall k :: 0 <= k < |s| ==> r[k] == if fcand <= k <= lcand then -x else s[k]
    ensures var u, x := SubShares(s, fcand, lcand, left), left / (lcand - fcand + 1) as real;
            forall k :: 0 <= k < |u| ==> u[k] == s[fcand + k] + x
  {
  }

  lemma ExactAt(s: seq<real>, fcand: int, lcand: int, left: real)
    requires 0 <= fcand <= lcand < |s| && left <= 0.0
    ensures var r := Remaining(s, fcand, lcand, left);
            forall k :: 0 <= k < |s| ==> r[k] == if fcand <= k < lcand then 0.0 else if k == lcand then -left else s[k]
    ensures var u := SubShares(s, fcand, lcand, left);
            forall k :: 0 <= k < |u| ==> u[k] == if fcand + k < lcand then s[fcand + k] else s[lcand] + left
  {
  }

  lemma OtherSon(t: Tree, r: int, i: int, j: int)
    requires ValidTree(t) && t.Has(r) && 0 <= i < t.At(r).sonsnbr && 0 <= j < t.At(r).sonsnbr && i != j
    ensures SlicesOk(t, r) && SonsInRange(t, r) && SonI(t, r, j) !in SubSet(t, SonI(t, r, i))
  {
    SonsAreInRange(t, r);
    assert EntryOk(t, r, i) && EntryOk(t, r, j);
    if i < j { SonsIncrease(t, r, i, j); } else { SonsIncrease(t, r, j, i); }
    SonsUnrelated(t, r, SonI(t, r, j), SonI(t, r, i));
  }

  /** A son whose turn has come was not mapped yet. */
  lemma SonReady(t: Tree, r: int, i: int, done0: set<int>, p: set<int>)
    requires ValidTree(t) && t.Has(r) && 0 <= i < t.At(r).sonsnbr && i !in p && SubSet(t, r) !! done0
    ensures SlicesOk(t, r) && 0 <= SonI(t, r, i) < t.N() && Below(t, SonI(t, r, i)) < Below(t, r)
    ensures SubSet(t, SonI(t, r, i)) !! (done0 + {r} + Under(t, r, p))
  {
    assert SlicesOk(t, r) && EntryOk(t, r, i);
    var son := SonI(t, r, i);
    assert t.Rises(son);
    UnderMore(t, r, p, i);
    forall d | d in SubSet(t, son) ensures d in SubSet(t, r) {
      assert Desc(t, son, r);
      DescTrans(t, d, son, r);
    }
  }
}

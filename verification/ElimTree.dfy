/** The elimination tree of blend/elimintree.c: built from the symbolic structure, with the
    sons of all nodes in one table. The artificial root is node -1. */
module ElimTree {
  import opened SymbolMatrix

  datatype Node = Node(total: real, subtree: real, cripath: real, ndlevel: int, sonsnbr: int, fathnum: int,
                       fsonnum: int)

  /** nodetab starts with the artificial root: node d is at position d + 1. */
  datatype Tree = Tree(nodetab: seq<Node>, sonstab: seq<int>) {
    function N(): int { |nodetab| - 1 }
    predicate Has(d: int) { -1 <= d < N() }
    function At(d: int): Node requires Has(d) { nodetab[d + 1] }
    function Father(d: int): int requires Has(d) { At(d).fathnum }

    /** Father in reach of the recursions below. */
    predicate Rises(d: int) requires 0 <= d < N() { Father(d) == -1 || d < Father(d) < N() }
  }

  /** Room above a node, for recursions that climb. */
  function Above(t: Tree, d: int): nat
    requires t.Has(d)
  {
    if d == -1 then 0 else t.N() - d
  }

  /** Size of a node, for recursions that descend. */
  function Below(t: Tree, d: int): nat
    requires t.Has(d)
  {
    if d == -1 then t.N() else d
  }

  ghost predicate AllRise(t: Tree) {
    |t.nodetab| >= 1 && forall d :: 0 <= d < t.N() ==> t.Rises(d)
  }

  /** Node i of the sons of d. */
  function SonI(t: Tree, d: int, i: int): int
    requires t.Has(d) && 0 <= t.At(d).fsonnum + i < |t.sonstab|
  {
    t.sonstab[t.At(d).fsonnum + i]
  }

  predicate SliceOk(t: Tree, d: int)
    requires t.Has(d)
  {
    0 <= t.At(d).sonsnbr && 0 <= t.At(d).fsonnum && t.At(d).fsonnum + t.At(d).sonsnbr <= |t.sonstab|
  }

  /** Entry i of the slice of d is a son of d, and later entries are later nodes. */
  predicate EntryOk(t: Tree, d: int, i: int)
    requires t.Has(d) && SliceOk(t, d) && 0 <= i < t.At(d).sonsnbr
  {
    && 0 <= SonI(t, d, i) < t.N() && t.Father(SonI(t, d, i)) == d
    && (i > 0 ==> SonI(t, d, i - 1) < SonI(t, d, i))
  }

  /** The slice of d lists every son of d. */
  ghost predicate Listed(t: Tree, s: int)
    requires 0 <= s < t.N() && t.Rises(s)
  {
    var d := t.Father(s);
    SliceOk(t, d) && exists i :: 0 <= i < t.At(d).sonsnbr && SonI(t, d, i) == s
  }

  ghost predicate SlicesOk(t: Tree, d: int)
    requires t.Has(d)
  {
    SliceOk(t, d) && forall i :: 0 <= i < t.At(d).sonsnbr ==> EntryOk(t, d, i)
  }

  /** Each slice of sonstab lists exactly the sons of its node, in increasing order. */
  ghost predicate ValidTree(t: Tree) {
    && AllRise(t) && |t.sonstab| == t.N()
    && (forall d :: -1 <= d < t.N() ==> SlicesOk(t, d))
    && (forall s :: 0 <= s < t.N() ==> t.Rises(s) && Listed(t, s))
  }

  lemma {:induction false} SonsIncrease(t: Tree, d: int, i: int, j: int)
    requires t.Has(d) && SlicesOk(t, d) && 0 <= i < j < t.At(d).sonsnbr
    ensures SonI(t, d, i) < SonI(t, d, j)
    decreases j
  {
    assert EntryOk(t, d, j);
    if i < j - 1 { SonsIncrease(t, d, i, j - 1); }
  }

  // ----- Descendants -----

  /** d is r or below r. */
  predicate Desc(t: Tree, d: int, r: int)
    requires AllRise(t) && t.Has(d)
    decreases Above(t, d)
  {
    d == r || (d >= 0 && (assert t.Rises(d); Desc(t, t.Father(d), r)))
  }

  ghost function SubSet(t: Tree, r: int): set<int>
    requires AllRise(t)
  {
    set d | -1 <= d < t.N() && Desc(t, d, r)
  }

  /** The descendants of the sons of r whose indices are in p. */
  ghost function Under(t: Tree, r: int, p: set<int>): set<int>
    requires ValidTree(t) && t.Has(r)
  {
    set d | -1 <= d < t.N() && InBranches(t, d, r, p)
  }

  ghost predicate InBranch(t: Tree, d: int, r: int, i: int)
    requires ValidTree(t) && t.Has(d) && t.Has(r)
  {
    assert SlicesOk(t, r);
    0 <= i < t.At(r).sonsnbr && Desc(t, d, SonI(t, r, i))
  }

  ghost predicate InBranches(t: Tree, d: int, r: int, p: set<int>)
    requires ValidTree(t) && t.Has(d) && t.Has(r)
  {
    exists i :: i in p && InBranch(t, d, r, i)
  }

  ghost function Indices(i: int): (p: set<int>)
    ensures forall k :: k in p <==> 0 <= k < i
    decreases i
  {
    if i <= 0 then {} else Indices(i - 1) + {i - 1}
  }

  /** Every node is below the root. */
  lemma {:induction false} AllBelowRoot(t: Tree, d: int)
    requires AllRise(t) && t.Has(d)
    ensures Desc(t, d, -1)
    decreases Above(t, d)
  {
    if d >= 0 {
      assert t.Rises(d);
      AllBelowRoot(t, t.Father(d));
    }
  }

  lemma {:induction false} DescRises(t: Tree, d: int, r: int)
    requires AllRise(t) && t.Has(d) && t.Has(r) && Desc(t, d, r)
    ensures r == -1 || (0 <= d <= r)
    decreases Above(t, d)
  {
    if d != r {
      assert t.Rises(d);
      DescRises(t, t.Father(d), r);
    }
  }

  lemma {:induction false} DescTrans(t: Tree, d: int, s: int, r: int)
    requires AllRise(t) && t.Has(d) && t.Has(s) && Desc(t, d, s) && Desc(t, s, r)
    ensures Desc(t, d, r)
    decreases Above(t, d)
  {
    if d != s {
      assert t.Rises(d);
      DescTrans(t, t.Father(d), s, r);
    }
  }

  /** Two nodes above one node lie above one another. */
  lemma {:induction false} DescChain(t: Tree, d: int, r: int, s: int)
    requires AllRise(t) && t.Has(d) && t.Has(r) && t.Has(s) && Desc(t, d, r) && Desc(t, d, s)
    ensures Desc(t, r, s) || Desc(t, s, r)
    decreases Above(t, d)
  {
    if d != r && d != s {
      assert t.Rises(d);
      DescChain(t, t.Father(d), r, s);
    }
  }

  /** A node strictly below r is below one of the sons of r. */
  lemma {:induction false} BelowASon(t: Tree, d: int, r: int) returns (i: int)
    requires ValidTree(t) && t.Has(d) && t.Has(r) && Desc(t, d, r) && d != r
    ensures SlicesOk(t, r) && 0 <= i < t.At(r).sonsnbr && Desc(t, d, SonI(t, r, i))
    decreases Above(t, d)
  {
    assert SlicesOk(t, r);
    assert t.Rises(d) && Listed(t, d);
    if t.Father(d) == r {
      i :| 0 <= i < t.At(r).sonsnbr && SonI(t, r, i) == d;
    } else {
      i := BelowASon(t, t.Father(d), r);
    }
  }

  /** The subtrees of two sons of one node are disjoint. */
  lemma SonsApart(t: Tree, r: int, i: int, j: int, d: int)
    requires ValidTree(t) && t.Has(r) && t.Has(d) && SlicesOk(t, r)
    requires 0 <= i < j < t.At(r).sonsnbr
    ensures !(Desc(t, d, SonI(t, r, i)) && Desc(t, d, SonI(t, r, j)))
  {
    var s, u := SonI(t, r, i), SonI(t, r, j);
    assert EntryOk(t, r, i) && EntryOk(t, r, j);
    SonsIncrease(t, r, i, j);
    SonsUnrelated(t, r, s, u);
    SonsUnrelated(t, r, u, s);
    if Desc(t, d, s) && Desc(t, d, u) { DescChain(t, d, s, u); }
  }

  lemma SonsUnrelated(t: Tree, r: int, s: int, u: int)
    requires AllRise(t) && t.Has(r) && 0 <= s < t.N() && 0 <= u < t.N() && s != u
    requires t.Father(s) == r && t.Father(u) == r
    ensures !Desc(t, s, u)
  {
    assert t.Rises(u) && t.Rises(s);
    if Desc(t, r, u) { DescRises(t, r, u); }
  }

  /** Node r is not below its own sons. */
  lemma FatherNotBelow(t: Tree, r: int, i: int)
    requires ValidTree(t) && t.Has(r) && SlicesOk(t, r) && 0 <= i < t.At(r).sonsnbr
    ensures !Desc(t, r, SonI(t, r, i))
  {
    assert EntryOk(t, r, i);
    var s := SonI(t, r, i);
    assert t.Rises(s);
    if Desc(t, r, s) { DescRises(t, r, s); }
  }

  lemma UnderAll(t: Tree, r: int, p: set<int>)
    requires ValidTree(t) && t.Has(r) && forall i :: 0 <= i < t.At(r).sonsnbr ==> i in p
    ensures SubSet(t, r) == Under(t, r, p) + {r}
  {
    assert SlicesOk(t, r);
    forall d | d in SubSet(t, r) ensures d in Under(t, r, p) + {r} {
      if d != r { var i := BelowASon(t, d, r); assert i in p && InBranch(t, d, r, i); }
    }
    forall d | d in Under(t, r, p) + {r} ensures d in SubSet(t, r) {
      if d != r {
        var i :| i in p && InBranch(t, d, r, i);
        assert EntryOk(t, r, i);
        assert Desc(t, SonI(t, r, i), r);
        DescTrans(t, d, SonI(t, r, i), r);
      }
    }
  }

  lemma UnderMore(t: Tree, r: int, p: set<int>, i: int)
    requires ValidTree(t) && t.Has(r) && 0 <= i < t.At(r).sonsnbr && i !in p
    ensures SlicesOk(t, r) && EntryOk(t, r, i)
    ensures Under(t, r, p + {i}) == Under(t, r, p) + SubSet(t, SonI(t, r, i))
    ensures Under(t, r, p) !! SubSet(t, SonI(t, r, i))
    ensures r !in SubSet(t, SonI(t, r, i)) && r !in Under(t, r, p)
  {
    assert SlicesOk(t, r) && EntryOk(t, r, i);
    FatherNotBelow(t, r, i);
    assert forall d :: -1 <= d < t.N() ==>
          InBranches(t, d, r, p + {i}) == (InBranches(t, d, r, p) || InBranch(t, d, r, i)) by {
      forall d | -1 <= d < t.N() && InBranch(t, d, r, i) ensures InBranches(t, d, r, p + {i}) { assert i in p + {i}; }
      forall d | -1 <= d < t.N() && InBranches(t, d, r, p) ensures InBranches(t, d, r, p + {i}) {
        var j :| j in p && InBranch(t, d, r, j);
        assert j in p + {i};
      }
    }
    forall d | d in Under(t, r, p) ensures d !in SubSet(t, SonI(t, r, i)) && d != r {
      var j :| j in p && InBranch(t, d, r, j);
      FatherNotBelow(t, r, j);
      if i < j { SonsApart(t, r, i, j, d); } else { SonsApart(t, r, j, i, d); }
    }
  }

  // ----- Trees with the same links -----

  /** Two trees that differ by their costs only. */
  ghost predicate SameShape(t: Tree, u: Tree) {
    && u.sonstab == t.sonstab && |u.nodetab| == |t.nodetab|
    && forall i :: 0 <= i < |t.nodetab| ==> SameLinks(t.nodetab[i], u.nodetab[i])
  }
  predicate SameLinks(a: Node, b: Node) {
    a.sonsnbr == b.sonsnbr && a.fathnum == b.fathnum && a.fsonnum == b.fsonnum
  }

  lemma ShapeIsValid(t: Tree, u: Tree)
    requires ValidTree(t) && SameShape(t, u)
    ensures ValidTree(u)
    ensures forall d :: t.Has(d) ==>
              u.At(d).sonsnbr == t.At(d).sonsnbr && u.At(d).fathnum == t.At(d).fathnum
                  && u.At(d).fsonnum == t.At(d).fsonnum
  {
    forall d | t.Has(d) ensures SameLinks(t.At(d), u.At(d)) {
      var i := d + 1;
      assert SameLinks(t.nodetab[i], u.nodetab[i]);
    }
    forall d | 0 <= d < u.N() ensures u.Rises(d) { assert t.Rises(d) && SameLinks(t.At(d), u.At(d)); }
    forall d | -1 <= d < u.N() ensures SlicesOk(u, d) { ShapeSlices(t, u, d); }
    forall s | 0 <= s < u.N() ensures u.Rises(s) && Listed(u, s) {
      assert t.Rises(s) && SameLinks(t.At(s), u.At(s)) && Listed(t, s);
      var d := t.Father(s);
      assert SameLinks(t.At(d), u.At(d));
      var i :| 0 <= i < t.At(d).sonsnbr && SonI(t, d, i) == s;
      assert SonI(u, d, i) == s;
    }
  }

  lemma ShapeSlices(t: Tree, u: Tree, d: int)
    requires ValidTree(t) && SameShape(t, u) && t.Has(d)
    ensures SlicesOk(u, d)
  {
    var k := d + 1;
    assert SameLinks(t.nodetab[k], u.nodetab[k]) && SlicesOk(t, d);
    forall i | 0 <= i < u.At(d).sonsnbr ensures EntryOk(u, d, i) {
      assert EntryOk(t, d, i);
      var m := SonI(t, d, i) + 1;
      assert SameLinks(t.nodetab[m], u.nodetab[m]);
    }
  }

  lemma {:induction false} ShapeDesc(t: Tree, u: Tree, d: int, r: int)
    requires AllRise(t) && AllRise(u) && SameShape(t, u) && t.Has(d)
    ensures Desc(u, d, r) == Desc(t, d, r)
    decreases Above(t, d)
  {
    if d != r && d >= 0 {
      var k := d + 1;
      assert SameLinks(t.nodetab[k], u.nodetab[k]) && t.Rises(d) && u.Rises(d);
      ShapeDesc(t, u, t.Father(d), r);
    }
  }

  lemma ShapeSubSet(t: Tree, u: Tree, r: int)
    requires AllRise(t) && AllRise(u) && SameShape(t, u)
    ensures SubSet(u, r) == SubSet(t, r)
  {
    forall d | t.Has(d) ensures Desc(u, d, r) == Desc(t, d, r) { ShapeDesc(t, u, d, r); }
  }

  predicate Same(t: Tree, u: Tree, d: int) requires t.Has(d) && u.Has(d) { t.At(d) == u.At(d) }
  ghost predicate Untouched(t: Tree, u: Tree, s: set<int>) {
    t.N() == u.N() && forall d :: t.Has(d) && d !in s ==> Same(t, u, d)
  }

  // ----- Counting sons -----

  predicate ValidFathers(f: seq<int>) {
    forall i :: 0 <= i < |f| ==> FatherOk(f, i)
  }

  predicate FatherOk(f: seq<int>, i: int)
    requires 0 <= i < |f|
  {
    f[i] == -1 || i < f[i] < |f|
  }

  /** Number of sons of d among the first k nodes. */
  function Count(f: seq<int>, d: int, k: int): (c: int)
    requires 0 <= k <= |f|
    ensures 0 <= c <= k
    decreases k
  {
    if k == 0 then 0 else Count(f, d, k - 1) + if f[k - 1] == d then 1 else 0
  }

  /** Number of sons of the nodes before d, the artificial root first, among the first k nodes. */
  function CountBefore(f: seq<int>, d: int, k: int): (c: int)
    requires 0 <= k <= |f| && -1 <= d
    ensures 0 <= c
    decreases d
  {
    if d == -1 then 0 else CountBefore(f, d - 1, k) + Count(f, d - 1, k)
  }

  /** Where the sons of d start. */
  function Base(f: seq<int>, d: int): (b: int)
    requires -1 <= d
    ensures 0 <= b
  {
    CountBefore(f, d, |f|)
  }

  /** Where node s is listed. */
  function Slot(f: seq<int>, s: int): int
    requires 0 <= s < |f| && -1 <= f[s]
  {
    Base(f, f[s]) + Count(f, f[s], s)
  }

  lemma {:induction false} CountGrows(f: seq<int>, d: int, k: int, m: int)
    requires 0 <= k <= m <= |f|
    ensures Count(f, d, k) <= Count(f, d, m)
    ensures k < m && f[k] == d ==> Count(f, d, k) < Count(f, d, m)
    decreases m
  {
    if k < m { CountGrows(f, d, k, m - 1); }
  }

  lemma {:induction false} CountBeforeNext(f: seq<int>, d: int, k: int)
    requires 0 <= k < |f| && -1 <= d
    ensures CountBefore(f, d, k + 1) == CountBefore(f, d, k) + if f[k] < d && -1 <= f[k] then 1 else 0
    decreases d
  {
    if d > -1 { CountBeforeNext(f, d - 1, k); }
  }

  lemma {:induction false} CountBeforeZero(f: seq<int>, d: int)
    requires -1 <= d
    ensures CountBefore(f, d, 0) == 0
    decreases d
  {
    if d > -1 { CountBeforeZero(f, d - 1); }
  }

  /** Every node is the son of one node. */
  lemma {:induction false} CountAll(f: seq<int>, k: int)
    requires ValidFathers(f) && 0 <= k <= |f|
    ensures CountBefore(f, |f|, k) == k
    decreases k
  {
    if k == 0 {
      CountBeforeZero(f, |f|);
    } else {
      CountAll(f, k - 1);
      CountBeforeNext(f, |f|, k - 1);
      assert FatherOk(f, k - 1);
    }
  }

  lemma {:induction false} BaseGrows(f: seq<int>, d: int, e: int)
    requires -1 <= d < e
    ensures Base(f, d) + Count(f, d, |f|) <= Base(f, e)
    decreases e
  {
    if d < e - 1 { BaseGrows(f, d, e - 1); }
  }

  lemma BaseInRange(f: seq<int>, d: int)
    requires ValidFathers(f) && -1 <= d < |f|
    ensures Base(f, d) + Count(f, d, |f|) <= |f|
  {
    CountAll(f, |f|);
    BaseGrows(f, d, |f|);
  }

  lemma SlotInRange(f: seq<int>, s: int)
    requires ValidFathers(f) && 0 <= s < |f|
    ensures FatherOk(f, s) && 0 <= Slot(f, s) < |f|
  {
    assert FatherOk(f, s);
    BaseInRange(f, f[s]);
    CountGrows(f, f[s], s, |f|);
  }

  lemma SlotsDiffer(f: seq<int>, s: int, u: int)
    requires ValidFathers(f) && 0 <= s < u < |f|
    ensures FatherOk(f, s) && FatherOk(f, u) && Slot(f, s) != Slot(f, u)
  {
    assert FatherOk(f, s) && FatherOk(f, u);
    CountGrows(f, f[s], s, |f|);
    CountGrows(f, f[u], u, |f|);
    if f[s] == f[u] { CountGrows(f, f[s], s, u); }
    else if f[s] < f[u] { BaseGrows(f, f[s], f[u]); }
    else { BaseGrows(f, f[u], f[s]); }
  }

  /** Son i of d. */
  lemma {:induction false} NthSon(f: seq<int>, d: int, i: int, k: int) returns (s: int)
    requires 0 <= k <= |f| && 0 <= i < Count(f, d, k)
    ensures 0 <= s < k && f[s] == d && Count(f, d, s) == i
    decreases k
  {
    if i < Count(f, d, k - 1) { s := NthSon(f, d, i, k - 1); } else { s := k - 1; }
  }

  // ----- Building the tree -----

  function Fathers(nodetab: seq<Node>): (f: seq<int>)
    requires |nodetab| >= 1
    ensures |f| == |nodetab| - 1 && forall i :: 0 <= i < |f| ==> f[i] == nodetab[i + 1].fathnum
  {
    seq(|nodetab| - 1, i requires 0 <= i < |nodetab| - 1 => nodetab[i + 1].fathnum)
  }

  /** The number of sons is counted over the first k nodes. */
  ghost predicate Counted(nodetab: seq<Node>, f: seq<int>, k: int) {
    |nodetab| == |f| + 1 && 0 <= k <= |f| && forall d :: -1 <= d < |f| ==> CountedAt(nodetab, f, k, d)
  }
  ghost predicate CountedAt(nodetab: seq<Node>, f: seq<int>, k: int, d: int)
    requires |nodetab| == |f| + 1 && 0 <= k <= |f| && -1 <= d < |f|
  {
    nodetab[d + 1].sonsnbr == Count(f, d, k)
  }

  /** fsonnum is the start of each slice, moved by the sons among the first k nodes. */
  ghost predicate Cursors(nodetab: seq<Node>, f: seq<int>, upto: int, k: int) {
    |nodetab| == |f| + 1 && 0 <= k <= |f| && upto <= |f| && forall d :: -1 <= d < upto ==> CursorAt(nodetab, f, k, d)
  }
  ghost predicate CursorAt(nodetab: seq<Node>, f: seq<int>, k: int, d: int)
    requires |nodetab| == |f| + 1 && 0 <= k <= |f| && -1 <= d < |f|
  {
    nodetab[d + 1].fsonnum == Base(f, d) + Count(f, d, k)
  }

  ghost predicate Filled(sonstab: seq<int>, f: seq<int>, k: int) {
    |sonstab| == |f| && 0 <= k <= |f| && forall s :: 0 <= s < k ==> FilledAt(sonstab, f, s)
  }
  ghost predicate FilledAt(sonstab: seq<int>, f: seq<int>, s: int)
    requires |sonstab| == |f| && 0 <= s < |f|
  {
    FatherOk(f, s) && 0 <= Slot(f, s) < |f| && sonstab[Slot(f, s)] == s
  }

  /** The three tables together describe a tree. */
  lemma TablesMakeTree(t: Tree, f: seq<int>)
    requires |t.nodetab| >= 1 && f == Fathers(t.nodetab) && ValidFathers(f)
    requires Counted(t.nodetab, f, |f|) && Cursors(t.nodetab, f, |f|, 0) && Filled(t.sonstab, f, |f|)
    ensures ValidTree(t)
  {
    forall d | 0 <= d < t.N() ensures t.Rises(d) { assert FatherOk(f, d); }
    forall d | -1 <= d < t.N() ensures SlicesOk(t, d) { SlicesFollow(t, f, d); }
    forall s | 0 <= s < t.N() ensures t.Rises(s) && Listed(t, s) {
      var d := f[s];
      assert FatherOk(f, s) && FilledAt(t.sonstab, f, s);
      assert SlicesOk(t, d) && CursorAt(t.nodetab, f, 0, d) && CountedAt(t.nodetab, f, |f|, d);
      CountGrows(f, d, s, |f|);
      assert SonI(t, d, Count(f, d, s)) == s;
    }
  }

  lemma SlicesFollow(t: Tree, f: seq<int>, d: int)
    requires |t.nodetab| >= 1 && f == Fathers(t.nodetab) && ValidFathers(f) && t.Has(d)
    requires Counted(t.nodetab, f, |f|) && Cursors(t.nodetab, f, |f|, 0) && Filled(t.sonstab, f, |f|)
    ensures SlicesOk(t, d)
  {
    BaseInRange(f, d);
    assert CursorAt(t.nodetab, f, 0, d) && CountedAt(t.nodetab, f, |f|, d);
    assert SliceOk(t, d);
    forall i | 0 <= i < t.At(d).sonsnbr ensures EntryOk(t, d, i) {
      var s := NthSon(f, d, i, |f|);
      assert FilledAt(t.sonstab, f, s);
      if i > 0 {
        var u := NthSon(f, d, i - 1, |f|);
        assert FilledAt(t.sonstab, f, u);
        if s <= u { CountGrows(f, d, s, u); }
      }
    }
  }

  /** The father of a column block is the one its first off-diagonal block faces. */
  function FatherOf(s: Symbol, i: int): int
    requires Valid(s) && 0 <= i < s.CblkNbr()
  {
    assert ValidColumn(s, i);
    if s.Last(i) - s.First(i) > 1 then s.bloktab[s.First(i) + 1].fcblknm else -1
  }

  function FathersOf(s: Symbol): (f: seq<int>)
    requires Valid(s)
    ensures |f| == s.CblkNbr() && forall i :: 0 <= i < |f| ==> f[i] == FatherOf(s, i)
  {
    seq(s.CblkNbr(), i requires 0 <= i < s.CblkNbr() => FatherOf(s, i))
  }

  lemma FathersAreValid(s: Symbol)
    requires Valid(s)
    ensures ValidFathers(FathersOf(s))
  {
    var f := FathersOf(s);
    forall i | 0 <= i < |f| ensures FatherOk(f, i) {
      assert ValidColumn(s, i);
      if s.Last(i) - s.First(i) > 1 { FacesLater(s, i, s.First(i) + 1); }
    }
  }

  class EliminTree {
    var nodenbr: int
    var nodetab: seq<Node>
    var sonstab: seq<int>

    ghost predicate Shaped(f: seq<int>)
      reads this
    {
      nodenbr == |f| == |sonstab| && |nodetab| == nodenbr + 1
    }

    function Value(): Tree
      reads this
    {
      Tree(nodetab, sonstab)
    }

    /** An empty forest of nodenbr nodes, all without sons. */
    constructor (nodenbr: int)
      requires nodenbr >= 0
      ensures this.nodenbr == nodenbr == |sonstab| && |nodetab| == nodenbr + 1
      ensures forall i :: 0 <= i < |nodetab| ==> nodetab[i] == Node(0.0, 0.0, 0.0, -1, 0, -1, -1)
    {
      this.nodenbr := nodenbr;
      nodetab := seq(nodenbr + 1, _ => Node(0.0, 0.0, 0.0, -1, 0, -1, -1));
      sonstab := seq(nodenbr, _ => 0);
    }

    /** Start of the slice of each node, from the numbers of sons. */
    method SetSonsIndex(ghost f: seq<int>)
      requires Shaped(f) && ValidFathers(f) && Counted(nodetab, f, |f|) && Fathers(nodetab) == f
      modifies this`nodetab
      ensures Shaped(f) && Counted(nodetab, f, |f|) && Fathers(nodetab) == f
      ensures Cursors(nodetab, f, |f|, 0)
    {
      ghost var before := nodetab;
      nodetab := nodetab[0 := nodetab[0].(fsonnum := 0)];
      forall d | -1 <= d < |f| ensures CountedAt(nodetab, f, |f|, d) { assert CountedAt(before, f, |f|, d); }
      var i := 0;
      while i < nodenbr
        invariant 0 <= i <= nodenbr && Shaped(f) && Fathers(nodetab) == f
        invariant Counted(nodetab, f, |f|) && Cursors(nodetab, f, i, 0)
      {
        i := NextIndex(i, f);
      }
      CountAll(f, |f|);
      assert CountedAt(nodetab, f, |f|, nodenbr - 1) && CursorAt(nodetab, f, 0, nodenbr - 1);
      assert nodetab[nodenbr].fsonnum + nodetab[nodenbr].sonsnbr == nodenbr;
    }

    method NextIndex(i: int, ghost f: seq<int>) returns (next: int)
      requires 0 <= i < nodenbr && Shaped(f) && Fathers(nodetab) == f
      requires Counted(nodetab, f, |f|) && Cursors(nodetab, f, i, 0)
      modifies this`nodetab
      ensures next == i + 1 && Shaped(f) && Fathers(nodetab) == f
      ensures Counted(nodetab, f, |f|) && Cursors(nodetab, f, i + 1, 0)
    {
      ghost var before := nodetab;
      assert CountedAt(before, f, |f|, i - 1) && CursorAt(before, f, 0, i - 1);
      nodetab := nodetab[i + 1 := nodetab[i + 1].(fsonnum := nodetab[i].fsonnum + nodetab[i].sonsnbr)];
      forall d | -1 <= d < |f| ensures CountedAt(nodetab, f, |f|, d) { assert CountedAt(before, f, |f|, d); }
      forall d | -1 <= d < i + 1 ensures CursorAt(nodetab, f, 0, d) {
        if d < i { assert CursorAt(before, f, 0, d); }
      }
      next := i + 1;
    }
  
    /** Fills the slices, with fsonnum as a cursor that is then put back. */
    method SetSons(ghost f: seq<int>)
      requires Shaped(f) && ValidFathers(f) && Counted(nodetab, f, |f|) && Fathers(nodetab) == f
      modifies this`nodetab, this`sonstab
      ensures Shaped(f) && Fathers(nodetab) == f && ValidTree(Value())
    {
      SetSonsIndex(f);
      var i := 0;
      while i < nodenbr
        invariant 0 <= i <= nodenbr && Shaped(f) && Fathers(nodetab) == f
        invariant Counted(nodetab, f, |f|) && Cursors(nodetab, f, |f|, i) && Filled(sonstab, f, i)
      {
        i := ListSon(i, f);
      }
      SetSonsIndex(f);
      TablesMakeTree(Value(), f);
    }

    method ListSon(i: int, ghost f: seq<int>) returns (next: int)
      requires 0 <= i < nodenbr && Shaped(f) && ValidFathers(f) && Fathers(nodetab) == f
      requires Counted(nodetab, f, |f|) && Cursors(nodetab, f, |f|, i) && Filled(sonstab, f, i)
      modifies this`nodetab, this`sonstab
      ensures next == i + 1 && Shaped(f) && Fathers(nodetab) == f
      ensures Counted(nodetab, f, |f|) && Cursors(nodetab, f, |f|, i + 1) && Filled(sonstab, f, i + 1)
    {
      ghost var before, listed := nodetab, sonstab;
      var father := nodetab[i + 1].fathnum;
      assert FatherOk(f, i) && father == f[i];
      SlotInRange(f, i);
      assert CursorAt(before, f, i, father);
      var node := nodetab[father + 1].fsonnum;
      assert 0 <= node < nodenbr;
      nodetab := nodetab[father + 1 := nodetab[father + 1].(fsonnum := node + 1)];
      sonstab := sonstab[node := i];
      forall d | -1 <= d < |f| ensures CountedAt(nodetab, f, |f|, d) { assert CountedAt(before, f, |f|, d); }
      ghost var k := i + 1;
      forall d | -1 <= d < |f| ensures CursorAt(nodetab, f, k, d) { assert CursorAt(before, f, i, d); }
      forall s | 0 <= s < i + 1 ensures FilledAt(sonstab, f, s) {
        if s < i {
          assert FilledAt(listed, f, s);
          SlotsDiffer(f, s, i);
        }
      }
      next := i + 1;
    }

    /** Fathers and numbers of sons from the structure, then the slices. */
    method Build(symb: Symbol)
      requires Valid(symb) && nodenbr == symb.CblkNbr() == |sonstab| && |nodetab| == nodenbr + 1
      requires forall i :: 0 <= i < |nodetab| ==> nodetab[i].sonsnbr == 0
      modifies this`nodetab, this`sonstab
      ensures ValidTree(Value()) && |nodetab| == symb.CblkNbr() + 1
      ensures Fathers(nodetab) == FathersOf(symb)
    {
      ghost var f := FathersOf(symb);
      FathersAreValid(symb);
      var i, totalsonsnbr := 0, 0;
      assert Counted(nodetab, f, 0) by {
        forall d | -1 <= d < |f| ensures CountedAt(nodetab, f, 0, d) { }
      }
      while i < symb.CblkNbr()
        invariant 0 <= i <= nodenbr && Shaped(f) && totalsonsnbr == i
        invariant Counted(nodetab, f, i) && forall k :: 0 <= k < i ==> nodetab[k + 1].fathnum == f[k]
      {
        SetFather(symb, i, f);
        totalsonsnbr := totalsonsnbr + 1;
        i := i + 1;
      }
      assert totalsonsnbr == symb.CblkNbr();
      SetSons(f);
    }

    method SetFather(symb: Symbol, i: int, ghost f: seq<int>)
      requires Valid(symb) && 0 <= i < nodenbr == symb.CblkNbr() && f == FathersOf(symb) && ValidFathers(f) && Shaped(f)
      requires Counted(nodetab, f, i) && forall k :: 0 <= k < i ==> nodetab[k + 1].fathnum == f[k]
      modifies this`nodetab
      ensures Shaped(f) && Counted(nodetab, f, i + 1) && forall k :: 0 <= k < i + 1 ==> nodetab[k + 1].fathnum == f[k]
    {
      ghost var before := nodetab;
      assert ValidColumn(symb, i) && FatherOk(f, i);
      if symb.cblktab[i + 1].bloknum - symb.cblktab[i].bloknum > 1 {
        var fathnum := symb.bloktab[symb.cblktab[i].bloknum + 1].fcblknm;
        nodetab := nodetab[i + 1 := nodetab[i + 1].(fathnum := fathnum)];
        nodetab := nodetab[fathnum + 1 := nodetab[fathnum + 1].(sonsnbr := nodetab[fathnum + 1].sonsnbr + 1)];
      } else {
        nodetab := nodetab[i + 1 := nodetab[i + 1].(fathnum := -1)];
        nodetab := nodetab[0 := nodetab[0].(sonsnbr := nodetab[0].sonsnbr + 1)];
      }
      ghost var k := i + 1;
      forall d | -1 <= d < |f| ensures CountedAt(nodetab, f, k, d) { assert CountedAt(before, f, i, d); }
    }

    // ----- Levels -----

    /** eTreeComputeLevels: levels of a subtree, counted from that of its root; answers the
        largest one. */
    method ComputeLevels(rootnum: int, rootlvl: int, ghost t0: Tree, ghost offset: int) returns (maxlevel: int)
      requires ValidTree(t0) && t0.Has(rootnum) && SameShape(t0, Value()) && rootlvl == offset + Depth(t0, rootnum)
      modifies this`nodetab
      ensures SameShape(t0, Value()) && SameCosts(old(Value()), Value())
      ensures AllLeveled(t0, Value(), SubSet(t0, rootnum), offset)
              && Untouched(old(Value()), Value(), SubSet(t0, rootnum))
      ensures IsMaxLevel(t0, SubSet(t0, rootnum), offset, maxlevel)
      decreases Below(t0, rootnum), 1
    {
      ghost var was := Value();
      nodetab := nodetab[rootnum + 1 := nodetab[rootnum + 1].(ndlevel := rootlvl)];
      LevelStart(t0, was, Value(), rootnum, offset);
      maxlevel := rootlvl;
      var i, sonsnbr := 0, nodetab[rootnum + 1].sonsnbr;
      ghost var k := rootnum + 1;
      assert SameLinks(t0.nodetab[k], nodetab[k]) && SlicesOk(t0, rootnum);
      while i < sonsnbr
        invariant 0 <= i <= sonsnbr == t0.At(rootnum).sonsnbr && SameShape(t0, Value()) && SameCosts(was, Value())
        invariant LevelsDone(t0, was, Value(), rootnum, Indices(i), offset, maxlevel)
      {
        maxlevel := SonLevels(rootnum, rootlvl + 1, i, maxlevel, t0, was, offset);
        i := i + 1;
      }
      UnderAll(t0, rootnum, Indices(sonsnbr));
    }

    method SonLevels(rootnum: int, sonlvl: int, i: int, maxlevel0: int, ghost t0: Tree, ghost was: Tree,
                     ghost offset: int) returns (maxlevel: int)
      requires ValidTree(t0) && t0.Has(rootnum) && SameShape(t0, Value()) && SameCosts(was, Value())
      requires 0 <= i < t0.At(rootnum).sonsnbr && sonlvl == offset + Depth(t0, rootnum) + 1
      requires LevelsDone(t0, was, Value(), rootnum, Indices(i), offset, maxlevel0)
      modifies this`nodetab
      ensures SameShape(t0, Value()) && SameCosts(was, Value())
      ensures LevelsDone(t0, was, Value(), rootnum, Indices(i + 1), offset, maxlevel)
      decreases Below(t0, rootnum), 0
    {
      ghost var t := Value();
      assert SlicesOk(t0, rootnum) && EntryOk(t0, rootnum, i);
      ghost var k := rootnum + 1;
      assert SameLinks(t0.nodetab[k], nodetab[k]);
      var son := sonstab[nodetab[rootnum + 1].fsonnum + i];
      assert t0.Rises(son);
      var max := ComputeLevels(son, sonlvl, t0, offset);
      maxlevel := if max > maxlevel0 then max else maxlevel0;
      LevelsNext(t0, was, t, Value(), rootnum, i, offset, maxlevel0, max);
    }

    /** eTreeNodeLevel: climbs to the root. */
    method NodeLevel(nodenum: int) returns (level: int)
      requires ValidTree(Value()) && Value().Has(nodenum)
      ensures level == Depth(Value(), nodenum)
    {
      level := 0;
      if nodenum == -1 { return 0; }
      level := 1;
      var node := nodenum;
      ghost var t := Value();
      assert t.Rises(node);
      while nodetab[node + 1].fathnum != -1
        invariant 0 <= node < t.N() && t.Rises(node) && level + Depth(t, node) == Depth(t, nodenum) + 1
        decreases t.N() - node
      {
        level := level + 1;
        node := nodetab[node + 1].fathnum;
        assert t.Rises(node);
      }
    }

    /** eTreeLevel: the largest level, found by climbing from every node. */
    method TreeLevel() returns (maxlevel: int)
      requires ValidTree(Value()) && nodenbr == Value().N()
      ensures maxlevel == MaxDepth(Value(), nodenbr)
    {
      maxlevel := 0;
      var i := 0;
      while i < nodenbr
        invariant 0 <= i <= nodenbr && maxlevel == MaxDepth(Value(), i)
      {
        var nodelevel := NodeLevel(i);
        if nodelevel > maxlevel {
          maxlevel := nodelevel;
        }
        i := i + 1;
      }
    }

    /** Both computations on one tree: the levels stored from the root are the climbing counts,
        and the two maxima are equal. */
    method LevelsBothWays() returns (computed: int, climbed: int)
      requires ValidTree(Value()) && nodenbr == Value().N()
      modifies this`nodetab
      ensures computed == climbed && SameShape(old(Value()), Value()) && SameCosts(old(Value()), Value())
      ensures ValidTree(Value()) && forall d :: Value().Has(d) ==> Leveled(Value(), Value(), d, 0)
    {
      ghost var t0 := Value();
      SameShapeSelf(t0);
      computed := ComputeLevels(-1, 0, t0, 0);
      ShapeIsValid(t0, Value());
      MaximaAgree(t0, computed);
      climbed := TreeLevel();
      SameMaxDepth(t0, Value(), nodenbr);
      forall d | t0.Has(d) ensures Leveled(Value(), Value(), d, 0) {
        AllBelowRoot(t0, d);
        assert Leveled(t0, Value(), d, 0);
        SameDepth(t0, Value(), d);
      }
    }
  }

  // ----- Levels -----

  /** Number of nodes from d up to the artificial root, which is not counted. */
  function Depth(t: Tree, d: int): (n: int)
    requires AllRise(t) && t.Has(d)
    ensures 0 <= n && (n == 0 <==> d == -1)
    decreases Above(t, d)
  {
    if d == -1 then 0 else assert t.Rises(d); 1 + Depth(t, t.Father(d))
  }

  predicate CostSame(a: Node, b: Node) { a.total == b.total && a.subtree == b.subtree && a.cripath == b.cripath }
  ghost predicate SameCosts(t: Tree, u: Tree) {
    t.N() == u.N() && forall k :: 0 <= k < |t.nodetab| ==> CostSame(t.nodetab[k], u.nodetab[k])
  }

  ghost predicate Leveled(t0: Tree, t: Tree, d: int, offset: int)
    requires AllRise(t0) && t0.Has(d) && t.Has(d)
  {
    t.At(d).ndlevel == offset + Depth(t0, d)
  }
  ghost predicate AllLeveled(t0: Tree, t: Tree, s: set<int>, offset: int)
    requires AllRise(t0) && t.N() == t0.N()
  {
    forall d :: d in s && t0.Has(d) ==> Leveled(t0, t, d, offset)
  }

  ghost predicate LevelIs(t: Tree, d: int, offset: int, level: int)
    requires AllRise(t) && t.Has(d)
  {
    offset + Depth(t, d) == level
  }
  /** The largest level of the nodes of s. */
  ghost predicate IsMaxLevel(t: Tree, s: set<int>, offset: int, maxlevel: int)
    requires AllRise(t)
  {
    && (forall d :: d in s && t.Has(d) ==> offset + Depth(t, d) <= maxlevel)
    && (exists d :: d in s && t.Has(d) && LevelIs(t, d, offset, maxlevel))
  }

  /** The root and the subtrees of its sons in p have their levels. */
  ghost predicate LevelsDone(t0: Tree, was: Tree, t: Tree, r: int, p: set<int>, offset: int, maxlevel: int)
    requires ValidTree(t0) && t0.Has(r)
  {
    && t.N() == t0.N() && AllLeveled(t0, t, Under(t0, r, p) + {r}, offset)
    && Untouched(was, t, Under(t0, r, p) + {r}) && IsMaxLevel(t0, Under(t0, r, p) + {r}, offset, maxlevel)
  }

  lemma LevelStart(t0: Tree, was: Tree, t: Tree, r: int, offset: int)
    requires ValidTree(t0) && t0.Has(r) && SameShape(t0, was)
    requires t == was.(nodetab := was.nodetab[r + 1 := was.nodetab[r + 1].(ndlevel := offset + Depth(t0, r))])
    ensures SameShape(t0, t) && SameCosts(was, t)
            && LevelsDone(t0, was, t, r, Indices(0), offset, offset + Depth(t0, r))
  {
    assert Under(t0, r, Indices(0)) == {};
    assert LevelIs(t0, r, offset, offset + Depth(t0, r));
    forall k | 0 <= k < |t0.nodetab| ensures SameLinks(t0.nodetab[k], t.nodetab[k]) {
      assert SameLinks(t0.nodetab[k], was.nodetab[k]);
    }
  }

  lemma LevelsNext(t0: Tree, was: Tree, t: Tree, u: Tree, r: int, i: int, offset: int, maxlevel: int, max: int)
    requires ValidTree(t0) && t0.Has(r) && 0 <= i < t0.At(r).sonsnbr && SlicesOk(t0, r)
    requires LevelsDone(t0, was, t, r, Indices(i), offset, maxlevel) && SameCosts(was, t) && SameCosts(t, u)
             && t0.Has(SonI(t0, r, i))
    requires AllLeveled(t0, u, SubSet(t0, SonI(t0, r, i)), offset) && Untouched(t, u, SubSet(t0, SonI(t0, r, i)))
    requires IsMaxLevel(t0, SubSet(t0, SonI(t0, r, i)), offset, max)
    ensures LevelsDone(t0, was, u, r, Indices(i + 1), offset, if max > maxlevel then max else maxlevel)
            && SameCosts(was, u)
  {
    var p, s := Indices(i), SubSet(t0, SonI(t0, r, i));
    UnderMore(t0, r, p, i);
    assert Indices(i + 1) == p + {i};
    var done := Under(t0, r, p) + {r};
    assert Under(t0, r, p + {i}) + {r} == done + s;
    forall d | d in done + s && t0.Has(d) ensures Leveled(t0, u, d, offset) {
      if d !in s { assert Same(t, u, d) && Leveled(t0, t, d, offset); }
    }
    forall d | was.Has(d) && d !in done + s ensures Same(was, u, d) { assert Same(was, t, d) && Same(t, u, d); }
    forall k | 0 <= k < |was.nodetab| ensures CostSame(was.nodetab[k], u.nodetab[k]) {
      assert CostSame(was.nodetab[k], t.nodetab[k]) && CostSame(t.nodetab[k], u.nodetab[k]);
    }
    MaxOfBoth(t0, done, s, offset, maxlevel, max);
  }

  lemma MaxOfBoth(t: Tree, a: set<int>, b: set<int>, offset: int, x: int, y: int)
    requires AllRise(t) && IsMaxLevel(t, a, offset, x) && IsMaxLevel(t, b, offset, y)
    ensures IsMaxLevel(t, a + b, offset, if y > x then y else x)
  {
    var d :| d in a && t.Has(d) && LevelIs(t, d, offset, x);
    var e :| e in b && t.Has(e) && LevelIs(t, e, offset, y);
    assert d in a + b && e in a + b;
    if y > x { assert LevelIs(t, e, offset, y); } else { assert LevelIs(t, d, offset, x); }
  }

  /** Largest depth of the nodes before k, and of the root. */
  function MaxDepth(t: Tree, k: int): (m: int)
    requires AllRise(t) && 0 <= k <= t.N()
    decreases k
  {
    if k == 0 then 0
    else if Depth(t, k - 1) > MaxDepth(t, k - 1) then Depth(t, k - 1) else MaxDepth(t, k - 1)
  }

  lemma {:induction false} MaxDepthAbove(t: Tree, k: int, d: int)
    requires AllRise(t) && -1 <= d < k <= t.N()
    ensures Depth(t, d) <= MaxDepth(t, k)
    decreases k
  {
    if d < k - 1 { MaxDepthAbove(t, k - 1, d); }
    else if d == -1 { MaxDepthNonNegative(t, k); }
  }

  lemma {:induction false} MaxDepthNonNegative(t: Tree, k: int)
    requires AllRise(t) && 0 <= k <= t.N()
    ensures 0 <= MaxDepth(t, k)
    decreases k
  {
    if k > 0 { MaxDepthNonNegative(t, k - 1); }
  }

  lemma {:induction false} MaxDepthIsDepth(t: Tree, k: int) returns (d: int)
    requires AllRise(t) && 0 <= k <= t.N()
    ensures -1 <= d < k && Depth(t, d) == MaxDepth(t, k)
    decreases k
  {
    if k == 0 {
      d := -1;
    } else {
      d := MaxDepthIsDepth(t, k - 1);
      if Depth(t, k - 1) > MaxDepth(t, k - 1) { d := k - 1; }
    }
  }

  /** The largest level that the recursion from the root finds is the one found by climbing. */
  lemma MaximaAgree(t: Tree, x: int)
    requires ValidTree(t)
    ensures IsMaxLevel(t, SubSet(t, -1), 0, x) <==> x == MaxDepth(t, t.N())
  {
    var m := MaxDepth(t, t.N());
    var e := MaxDepthIsDepth(t, t.N());
    AllBelowRoot(t, e);
    assert e in SubSet(t, -1) && t.Has(e) && LevelIs(t, e, 0, m);
    forall d | t.Has(d) ensures Depth(t, d) <= m { MaxDepthAbove(t, t.N(), d); }
    assert IsMaxLevel(t, SubSet(t, -1), 0, m);
  }

  lemma SameShapeSelf(t: Tree)
    ensures SameShape(t, t)
  {
    forall k | 0 <= k < |t.nodetab| ensures SameLinks(t.nodetab[k], t.nodetab[k]) { }
  }

  /** Depths depend on the links only. */
  lemma {:induction false} SameDepth(t0: Tree, t: Tree, d: int)
    requires AllRise(t0) && AllRise(t) && SameShape(t0, t) && t0.Has(d)
    ensures t.Has(d) && Depth(t, d) == Depth(t0, d)
    decreases Above(t0, d)
  {
    if d != -1 {
      assert t0.Rises(d) && SameLinks(t0.nodetab[d + 1], t.nodetab[d + 1]);
      SameDepth(t0, t, t0.Father(d));
    }
  }

  lemma {:induction false} SameMaxDepth(t0: Tree, t: Tree, k: int)
    requires AllRise(t0) && AllRise(t) && SameShape(t0, t) && 0 <= k <= t0.N()
    ensures k <= t.N() && MaxDepth(t, k) == MaxDepth(t0, k)
    decreases k
  {
    if k > 0 {
      SameMaxDepth(t0, t, k - 1);
      SameDepth(t0, t, k - 1);
    }
  }
}

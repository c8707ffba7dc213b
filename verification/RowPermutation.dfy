/** bvec_zlapmr of bcsc/bvec_zcompute.c: permutes the rows of a matrix in place, following the
    cycles of the permutation. A row is one element here, since the loop over the columns of
    the source exchanges two rows column by column. */
module RowPermutation {

  /** p is a permutation with inverse q. */
  predicate Inverse(p: seq<int>, q: seq<int>) {
    |p| == |q| && (forall x :: 0 <= x < |p| ==> InverseAt(p, q, x)) && (forall x :: 0 <= x < |p| ==> InverseAt(q, p, x))
  }
  predicate InverseAt(p: seq<int>, q: seq<int>, x: int)
    requires 0 <= x < |p| == |q|
  {
    0 <= p[x] < |p| && q[p[x]] == x
  }

  predicate IsPermutation(p: seq<int>) {
    (forall x :: 0 <= x < |p| ==> 0 <= p[x] < |p|)
        && (forall x, y :: 0 <= x < |p| && 0 <= y < |p| && x != y ==> p[x] != p[y])
  }

  /** Row x of the old matrix is row p[x] of the new one. */
  ghost predicate MovedTo<T(!new)>(p: seq<int>, before: seq<T>, after: seq<T>) {
    |p| == |before| == |after| && forall x :: 0 <= x < |p| ==> 0 <= p[x] < |p| && after[p[x]] == before[x]
  }

  /** Row p[x] of the old matrix is row x of the new one. */
  ghost predicate TakenFrom<T(!new)>(p: seq<int>, before: seq<T>, after: seq<T>) {
    |p| == |before| == |after| && forall x :: 0 <= x < |p| ==> 0 <= p[x] < |p| && after[x] == before[p[x]]
  }

  /** The two directions undo each other. */
  lemma DirectionsUndo<T(!new)>(p: seq<int>, a: seq<T>, b: seq<T>, c: seq<T>)
    requires IsPermutation(p)
    ensures MovedTo(p, a, b) && TakenFrom(p, b, c) ==> c == a
    ensures TakenFrom(p, a, b) && MovedTo(p, b, c) ==> c == a
  {
    if TakenFrom(p, a, b) && MovedTo(p, b, c) {
      var q := InverseOf(p);
      forall x | 0 <= x < |a| ensures c[x] == a[x] { assert InverseAt(q, p, x); }
    }
  }

  /** A permutation has an inverse. */
  lemma {:induction false} Reached(p: seq<int>, k: int, x: int) returns (y: int)
    requires IsPermutation(p) && 0 <= x < |p| == k
    ensures 0 <= y < |p| && p[y] == x
  {
    if forall z :: 0 <= z < |p| ==> p[z] != x {
      Image(p, |p|);
      assert ImageSet(p, |p|) <= Range(|p|) - {x};
      RangeSize(|p|);
      SubsetSize(ImageSet(p, |p|), Range(|p|) - {x});
      assert false;
    }
    y :| 0 <= y < |p| && p[y] == x;
  }

  function ImageSet(p: seq<int>, k: int): set<int>
    requires 0 <= k <= |p|
    decreases k
  {
    if k == 0 then {} else ImageSet(p, k - 1) + {p[k - 1]}
  }

  lemma {:induction false} Image(p: seq<int>, k: int)
    requires IsPermutation(p) && 0 <= k <= |p|
    ensures |ImageSet(p, k)| == k && forall v :: v in ImageSet(p, k) <==> IsImage(p, k, v)
    decreases k
  {
    if k > 0 {
      Image(p, k - 1);
      var v := p[k - 1];
      assert !IsImage(p, k - 1, v);
      forall w ensures IsImage(p, k, w) <==> IsImage(p, k - 1, w) || w == v { ImageNext(p, k - 1, w); }
    }
  }

  predicate IsImage(p: seq<int>, k: int, v: int)
    requires 0 <= k <= |p|
  {
    exists z :: 0 <= z < k && p[z] == v
  }

  lemma ImageNext(p: seq<int>, k: int, w: int)
    requires 0 <= k < |p|
    ensures IsImage(p, k + 1, w) <==> IsImage(p, k, w) || w == p[k]
  {
    if IsImage(p, k, w) {
      var z :| 0 <= z < k && p[z] == w;
      assert 0 <= z < k + 1;
    }
    if w == p[k] { assert 0 <= k < k + 1; }
  }

  function Range(n: int): (s: set<int>)
    ensures forall x :: x in s <==> 0 <= x < n
    decreases n
  {
    if n <= 0 then {} else Range(n - 1) + {n - 1}
  }

  lemma {:induction false} RangeSize(n: int)
    requires 0 <= n
    ensures |Range(n)| == n
    decreases n
  {
    if n > 0 { RangeSize(n - 1); }
  }

  lemma SubsetSize(a: set<int>, b: set<int>)
    requires a <= b
    ensures |a| <= |b|
  {
    assert b == a + (b - a);
  }

  lemma {:induction false} InverseUpTo(p: seq<int>, k: int) returns (q: seq<int>)
    requires IsPermutation(p) && 0 <= k <= |p|
    ensures |q| == k && forall x :: 0 <= x < k ==> 0 <= q[x] < |p| && p[q[x]] == x
    decreases k
  {
    q := [];
    if k > 0 {
      var r := InverseUpTo(p, k - 1);
      var y := Reached(p, |p|, k - 1);
      q := r + [y];
    }
  }

  lemma InverseOf(p: seq<int>) returns (q: seq<int>)
    requires IsPermutation(p)
    ensures Inverse(p, q)
  {
    q := InverseUpTo(p, |p|);
    forall x | 0 <= x < |p| ensures InverseAt(p, q, x) {
      var y := q[p[x]];
      assert p[y] == p[x];
    }
  }

  // ----- Marks -----

  function Marked(v: int): int { -v - 1 }

  /** The working copy: entries in seen are marked. */
  predicate MarksOk(p: seq<int>, c: seq<int>, seen: set<int>) {
    |c| == |p| && forall x :: 0 <= x < |p| ==> c[x] == if x in seen then Marked(p[x]) else p[x]
  }

  /** seen is a union of cycles. */
  predicate WholeCycles(p: seq<int>, seen: set<int>) {
    forall x :: 0 <= x < |p| ==> 0 <= p[x] < |p| && (x in seen <==> p[x] in seen)
  }

  /** Rows of the cycles seen are where they go; the others are where they were. */
  ghost predicate RowsMoved<T(!new)>(p: seq<int>, before: seq<T>, a: seq<T>, seen: set<int>) {
    |p| == |before| == |a| &&
    forall x :: 0 <= x < |p| ==> 0 <= p[x] < |p| && a[p[x]] == (if x in seen then before[x] else before[p[x]])
  }

  // ----- Backward -----

  predicate PredIn(q: seq<int>, seen0: set<int>, seen: set<int>, i: int, x: int) {
    0 <= x < |q| && q[x] in seen && q[x] !in seen0 && q[x] != i
  }
  predicate SuccIn(p: seq<int>, seen: set<int>, x: int) { 0 <= x < |p| && p[x] in seen }

  /** The entries seen of the cycle of k go from k to i. */
  ghost predicate PathOk(p: seq<int>, q: seq<int>, seen0: set<int>, seen: set<int>, k: int, i: int) {
    && Inverse(p, q) && WholeCycles(p, seen0) && seen0 <= seen && 0 <= k < |p| && 0 <= i < |p|
    && k !in seen0 && k in seen && i in seen && i !in seen0
    && (forall x :: x in seen && x !in seen0 && x != k ==> PredIn(q, seen0, seen, i, x))
    && (forall x :: x in seen && x !in seen0 && x != i ==> SuccIn(p, seen, x))
  }

  lemma PathNext(p: seq<int>, q: seq<int>, seen0: set<int>, seen: set<int>, k: int, i: int)
    requires PathOk(p, q, seen0, seen, k, i) && p[i] != k
    ensures 0 <= p[i] < |p| && p[i] !in seen && PathOk(p, q, seen0, seen + {p[i]}, k, p[i])
    ensures 0 <= p[p[i]] < |p| && p[p[i]] != p[i]
  {
    var j, more := p[i], seen + {p[i]};
    assert InverseAt(p, q, i) && InverseAt(p, q, j);
    assert j in seen && j !in seen0 && j != k ==> PredIn(q, seen0, seen, i, j);
    assert j !in seen;
    forall x | x in more && x !in seen0 && x != k ensures PredIn(q, seen0, more, j, x) {
      if x != j { assert PredIn(q, seen0, seen, i, x); }
    }
    forall x | x in more && x !in seen0 && x != j ensures SuccIn(p, more, x) {
      if x != i { assert SuccIn(p, seen, x); }
    }
  }

  lemma PathEnd(p: seq<int>, q: seq<int>, seen0: set<int>, seen: set<int>, k: int, i: int)
    requires PathOk(p, q, seen0, seen, k, i) && p[i] == k
    ensures WholeCycles(p, seen)
  {
    forall x | 0 <= x < |p| ensures 0 <= p[x] < |p| && (x in seen <==> p[x] in seen) {
      assert InverseAt(p, q, x) && InverseAt(p, q, i);
      if p[x] in seen && p[x] !in seen0 && p[x] != k { assert PredIn(q, seen0, seen, i, p[x]); }
      if x in seen && x !in seen0 && x != i { assert SuccIn(p, seen, x); }
    }
  }

  lemma PathStart(p: seq<int>, q: seq<int>, seen: set<int>, k: int)
    requires Inverse(p, q) && WholeCycles(p, seen) && 0 <= k < |p| && k !in seen
    ensures PathOk(p, q, seen, seen + {k}, k, k)
  {
  }

  /** In the middle of the cycle of k: the row of i waits at position k, the other rows of
      entries seen are where they go, and the others where they were. */
  ghost predicate RowsMid<T(!new)>(p: seq<int>, before: seq<T>, a: seq<T>, seen: set<int>, k: int, i: int) {
    && |p| == |before| == |a| && 0 <= k < |p| && 0 <= i < |p| && (forall x :: 0 <= x < |p| ==> 0 <= p[x] < |p|)
    && a[k] == before[i] && (p[i] != k ==> a[p[i]] == before[p[i]])
    && (forall x :: 0 <= x < |p| && x != i && p[x] != k ==> RowAt(p, before, a, seen, x))
  }

  ghost predicate RowAt<T(!new)>(p: seq<int>, before: seq<T>, a: seq<T>, seen: set<int>, x: int)
    requires |p| == |before| == |a| && 0 <= x < |p| && 0 <= p[x] < |p|
  {
    a[p[x]] == if x in seen then before[x] else before[p[x]]
  }

  function Exchanged<T>(a: seq<T>, j: int, k: int): (b: seq<T>)
    requires 0 <= j < |a| && 0 <= k < |a|
    ensures |b| == |a|
  {
    a[j := a[k]][k := a[j]]
  }

  lemma RowsNext<T(!new)>(p: seq<int>, q: seq<int>, before: seq<T>, a: seq<T>, seen: set<int>, k: int, i: int)
    requires Inverse(p, q) && RowsMid(p, before, a, seen, k, i) && p[i] != k && p[i] !in seen && i in seen
             && p[p[i]] != p[i]
    ensures RowsMid(p, before, Exchanged(a, p[i], k), seen + {p[i]}, k, p[i])
  {
    var j := p[i];
    var b, more := Exchanged(a, j, k), seen + {j};
    assert InverseAt(p, q, i) && InverseAt(p, q, j);
    assert p[j] != k ==> RowAt(p, before, a, seen, j);
    forall x | 0 <= x < |p| && x != j && p[x] != k ensures RowAt(p, before, b, more, x) {
      assert InverseAt(p, q, x);
      if x != i { assert RowAt(p, before, a, seen, x); }
    }
  }

  lemma RowsStart<T(!new)>(p: seq<int>, q: seq<int>, before: seq<T>, a: seq<T>, seen: set<int>, k: int)
    requires Inverse(p, q) && WholeCycles(p, seen) && RowsMoved(p, before, a, seen) && 0 <= k < |p| && k !in seen
    ensures RowsMid(p, before, a, seen + {k}, k, k)
  {
    assert InverseAt(q, p, k) && p[q[k]] == k && q[k] !in seen;
    assert a[p[q[k]]] == before[p[q[k]]];
    forall x | 0 <= x < |p| && x != k && p[x] != k ensures RowAt(p, before, a, seen + {k}, x) { }
  }

  lemma RowsEnd<T(!new)>(p: seq<int>, q: seq<int>, before: seq<T>, a: seq<T>, seen: set<int>, k: int, i: int)
    requires Inverse(p, q) && RowsMid(p, before, a, seen, k, i) && p[i] == k && i in seen
    ensures RowsMoved(p, before, a, seen)
  {
    forall x | 0 <= x < |p| ensures a[p[x]] == (if x in seen then before[x] else before[p[x]]) {
      assert InverseAt(p, q, x) && InverseAt(p, q, i);
      if x != i { assert RowAt(p, before, a, seen, x); }
    }
  }

  // ----- Backward -----

  predicate AllSeen(seen: set<int>, k: int) { forall x :: 0 <= x < k ==> x in seen }

  lemma SeenNext(seen0: set<int>, seen: set<int>, k: int, next: int)
    requires AllSeen(seen0, k) && seen0 <= seen && k in seen && next == k + 1
    ensures AllSeen(seen, next)
  {
  }

  /** What is known between two cycles: all entries before k are seen. */
  ghost predicate Between<T(!new)>(p: seq<int>, q: seq<int>, before: seq<T>, a: seq<T>, c: seq<int>, seen: set<int>,
                                   k: int) {
    && Inverse(p, q) && WholeCycles(p, seen) && RowsMoved(p, before, a, seen) && MarksOk(p, c, seen)
    && 0 <= k <= |p| && AllSeen(seen, k) && seen <= Range(|p|)
  }

  /** What is known in the middle of the cycle of k. */
  ghost predicate MidBackward<T(!new)>(p: seq<int>, q: seq<int>, before: seq<T>, a: seq<T>, c: seq<int>,
                                       seen0: set<int>, seen: set<int>, k: int, i: int) {
    PathOk(p, q, seen0, seen, k, i) && RowsMid(p, before, a, seen, k, i) && MarksOk(p, c, seen) && seen <= Range(|p|)
  }

  lemma BackwardStart<T(!new)>(p: seq<int>, q: seq<int>, before: seq<T>, a: seq<T>, c: seq<int>, d: seq<int>,
                               seen: set<int>, k: int)
    requires Between(p, q, before, a, c, seen, k) && k < |p| && k !in seen && |d| == |c| && d == c[k := Marked(c[k])]
    ensures MidBackward(p, q, before, a, d, seen, seen + {k}, k, k)
  {
    PathStart(p, q, seen, k);
    RowsStart(p, q, before, a, seen, k);
    MarkNext(p, c, d, seen, k);
  }

  lemma BackwardEnd<T(!new)>(p: seq<int>, q: seq<int>, before: seq<T>, a: seq<T>, c: seq<int>, seen0: set<int>,
                             seen: set<int>, k: int, i: int, next: int)
    requires MidBackward(p, q, before, a, c, seen0, seen, k, i) && p[i] == k && next == k + 1
    requires AllSeen(seen0, k)
    ensures Between(p, q, before, a, c, seen, next)
  {
    SeenNext(seen0, seen, k, next);
    PathEnd(p, q, seen0, seen, k, i);
    RowsEnd(p, q, before, a, seen, k, i);
  }

  /** Follows the cycle of k, exchanging rows with the one that waits at position k. */
  method FollowBackward<T(!new)>(a: array<T>, c: array<int>, k: int, ghost p: seq<int>, ghost q: seq<int>,
                                 ghost before: seq<T>, ghost seen0: set<int>)
    returns (ghost seen: set<int>)
    requires (a as object) != c && Between(p, q, before, a[..], c[..], seen0, k) && k < |p| && k !in seen0
    modifies a, c
    ensures Between(p, q, before, a[..], c[..], seen, k + 1)
  {
    var i, j := k, c[k];
    assert j == p[k];
    ghost var d := c[..];
    c[i] := -j - 1;
    seen := seen0 + {k};
    BackwardStart(p, q, before, a[..], d, c[..], seen0, k);
    while j != k
      invariant a.Length == |p| == c.Length && 0 <= i < |p| && j == p[i]
      invariant MidBackward(p, q, before, a[..], c[..], seen0, seen, k, i)
      decreases |Range(|p|) - seen|
    {
      ghost var was := seen;
      i, j, seen := StepBackward(a, c, k, i, j, p, q, before, seen0, seen);
      Fewer(|p|, was, i);
    }
    BackwardEnd(p, q, before, a[..], c[..], seen0, seen, k, i, k + 1);
  }

  /** One exchange, and the next entry of the cycle. */
  method StepBackward<T(!new)>(a: array<T>, c: array<int>, k: int, i0: int, j0: int, ghost p: seq<int>,
                               ghost q: seq<int>, ghost before: seq<T>, ghost seen0: set<int>, ghost seen: set<int>)
    returns (i: int, j: int, ghost more: set<int>)
    requires (a as object) != c && a.Length == |p| == c.Length && 0 <= i0 < |p| && j0 == p[i0] && j0 != k
    requires MidBackward(p, q, before, a[..], c[..], seen0, seen, k, i0)
    modifies a, c
    ensures i == j0 && i !in seen && 0 <= i < |p| && j == p[i] && more == seen + {i}
    ensures MidBackward(p, q, before, a[..], c[..], seen0, more, k, i)
  {
    PathNext(p, q, seen0, seen, k, i0);
    RowsNext(p, q, before, a[..], seen, k, i0);
    ExchangeRows(a, j0, k);
    i := j0;
    j := Mark(c, i, p, seen);
    assert (j != i) && (j >= 0);
    more := seen + {i};
  }

  method ExchangeRows<T(!new)>(a: array<T>, j: int, k: int)
    requires 0 <= j < a.Length && 0 <= k < a.Length
    modifies a
    ensures a[..] == Exchanged(old(a[..]), j, k)
  {
    a[j], a[k] := a[k], a[j];
  }

  /** Reads entry i of the working copy and marks it. */
  method Mark(c: array<int>, i: int, ghost p: seq<int>, ghost seen: set<int>) returns (j: int)
    requires 0 <= i < c.Length && MarksOk(p, c[..], seen) && i !in seen
    modifies c
    ensures j == p[i] && MarksOk(p, c[..], seen + {i})
  {
    ghost var d := c[..];
    assert d[i] == p[i];
    j := c[i];
    c[i] := -j - 1;
    MarkNext(p, d, c[..], seen, i);
  }

  lemma Fewer(n: int, seen: set<int>, i: int)
    requires 0 <= i < n && i !in seen
    ensures |Range(n) - (seen + {i})| < |Range(n) - seen|
  {
    assert Range(n) - seen == (Range(n) - (seen + {i})) + {i};
  }

  lemma MarkNext(p: seq<int>, c: seq<int>, d: seq<int>, seen: set<int>, i: int)
    requires MarksOk(p, c, seen) && 0 <= i < |p| && i !in seen && d == c[i := Marked(p[i])]
    ensures MarksOk(p, d, seen + {i})
  {
  }

  /** The loop over all cycles. */
  method Backward<T(!new)>(a: array<T>, c: array<int>, ghost p: seq<int>, ghost q: seq<int>)
    requires (a as object) != c && Inverse(p, q) && c[..] == p && a.Length == |p|
    modifies a, c
    ensures MovedTo(p, old(a[..]), a[..]) && MarksOk(p, c[..], Range(|p|))
  {
    ghost var before, seen: set<int> := a[..], {};
    BetweenStart(p, q, before);
    var k := 0;
    while k < c.Length
      invariant Between(p, q, before, a[..], c[..], seen, k)
    {
      seen := OneBackward(a, c, k, p, q, before, seen);
      k := k + 1;
    }
    BackwardDone(p, q, before, a[..], c[..], seen);
  }

  /** Nothing is done for a cycle already seen. */
  method OneBackward<T(!new)>(a: array<T>, c: array<int>, k: int, ghost p: seq<int>, ghost q: seq<int>,
                              ghost before: seq<T>, ghost seen0: set<int>)
    returns (ghost seen: set<int>)
    requires (a as object) != c && Between(p, q, before, a[..], c[..], seen0, k) && k < |p|
    modifies a, c
    ensures Between(p, q, before, a[..], c[..], seen, k + 1)
  {
    SeenOrNot(p, q, c[..], seen0, k);
    seen := seen0;
    if c[k] >= 0 {
      seen := FollowBackward(a, c, k, p, q, before, seen0);
    }
  }

  lemma BetweenStart<T(!new)>(p: seq<int>, q: seq<int>, a: seq<T>)
    requires Inverse(p, q) && |a| == |p|
    ensures Between(p, q, a, a, p, {}, 0)
  {
    forall x | 0 <= x < |p| ensures 0 <= p[x] < |p| { assert InverseAt(p, q, x); }
  }

  /** The sign of an entry tells whether its cycle was seen. */
  lemma SeenOrNot(p: seq<int>, q: seq<int>, c: seq<int>, marked: set<int>, k: int)
    requires Inverse(p, q) && MarksOk(p, c, marked) && 0 <= k < |p|
    ensures c[k] < 0 <==> k in marked
  {
    assert InverseAt(p, q, k);
  }

  lemma BackwardDone<T(!new)>(p: seq<int>, q: seq<int>, before: seq<T>, a: seq<T>, c: seq<int>, seen: set<int>)
    requires Between(p, q, before, a, c, seen, |p|)
    ensures MovedTo(p, before, a) && MarksOk(p, c, Range(|p|))
  {
    assert seen == Range(|p|);
  }

  // ----- Forward -----

  /** In the middle of the cycle of k, at entry j: the row that k takes waits at j. */
  ghost predicate RowsAhead<T(!new)>(p: seq<int>, before: seq<T>, a: seq<T>, seen: set<int>, k: int, j: int) {
    && |p| == |before| == |a| && 0 <= k < |p| && 0 <= j < |p| && (forall x :: 0 <= x < |p| ==> 0 <= p[x] < |p|)
    && a[j] == before[p[k]] && (j != k ==> a[k] == before[k])
    && (forall x :: 0 <= x < |p| && x != k && x != j ==> RowTaken(p, before, a, seen, x))
  }

  ghost predicate RowTaken<T(!new)>(p: seq<int>, before: seq<T>, a: seq<T>, seen: set<int>, x: int)
    requires |p| == |before| == |a| && 0 <= x < |p| && 0 <= p[x] < |p|
  {
    a[x] == if x in seen then before[p[x]] else before[x]
  }

  ghost predicate RowsTaken<T(!new)>(p: seq<int>, before: seq<T>, a: seq<T>, seen: set<int>) {
    && |p| == |before| == |a| && (forall x :: 0 <= x < |p| ==> 0 <= p[x] < |p|)
    && forall x :: 0 <= x < |p| ==> RowTaken(p, before, a, seen, x)
  }

  lemma AheadStart<T(!new)>(p: seq<int>, before: seq<T>, a: seq<T>, seen: set<int>, k: int)
    requires RowsTaken(p, before, a, seen) && WholeCycles(p, seen) && 0 <= k < |p| && k !in seen
    ensures RowsAhead(p, before, a, seen + {k}, k, p[k])
  {
    assert RowTaken(p, before, a, seen, k) && RowTaken(p, before, a, seen, p[k]);
    forall x | 0 <= x < |p| && x != k && x != p[k] ensures RowTaken(p, before, a, seen + {k}, x) {
      assert RowTaken(p, before, a, seen, x);
    }
  }

  lemma AheadNext<T(!new)>(p: seq<int>, before: seq<T>, a: seq<T>, seen: set<int>, k: int, j: int)
    requires RowsAhead(p, before, a, seen, k, j) && j != k && k in seen && j !in seen && p[j] != j
             && (p[j] == k || p[j] !in seen)
    ensures RowsAhead(p, before, Exchanged(a, j, p[j]), seen + {j}, k, p[j])
  {
    var i := p[j];
    var b := Exchanged(a, j, i);
    assert i != k ==> RowTaken(p, before, a, seen, i);
    forall x | 0 <= x < |p| && x != k && x != i ensures RowTaken(p, before, b, seen + {j}, x) {
      if x != j { assert RowTaken(p, before, a, seen, x); }
    }
  }

  lemma AheadEnd<T(!new)>(p: seq<int>, before: seq<T>, a: seq<T>, seen: set<int>, k: int)
    requires RowsAhead(p, before, a, seen, k, k) && k in seen
    ensures RowsTaken(p, before, a, seen)
  {
    forall x | 0 <= x < |p| ensures RowTaken(p, before, a, seen, x) { }
  }

  /** The entries of the cycle after the first one are not fixed points. */
  predicate NoFixed(p: seq<int>, seen0: set<int>, seen: set<int>, k: int) {
    forall x :: x in seen && x !in seen0 && x != k && 0 <= x < |p| ==> p[x] != x
  }

  /** In the middle of the cycle of k, after entry l. */
  ghost predicate MidForward<T(!new)>(p: seq<int>, q: seq<int>, before: seq<T>, a: seq<T>, c: seq<int>, seen0: set<int>,
                                      seen: set<int>, marked0: set<int>, k: int, l: int)
  {
    && PathOk(p, q, seen0, seen, k, l) && RowsAhead(p, before, a, seen, k, p[l]) && NoFixed(p, seen0, seen, k)
    && MarksOk(p, c, marked0 + (seen - seen0)) && marked0 <= seen0 && seen <= Range(|p|)
  }

  lemma ForwardNext<T(!new)>(p: seq<int>, q: seq<int>, before: seq<T>, a: seq<T>, c: seq<int>, seen0: set<int>,
                             seen: set<int>, marked0: set<int>, k: int, l: int, j: int, d: seq<int>)
    requires MidForward(p, q, before, a, c, seen0, seen, marked0, k, l) && j == p[l] && j != k
    ensures 0 <= j < |p| && j !in seen && 0 <= p[j] < |p| && p[j] != j
    ensures j !in marked0 + (seen - seen0)
    ensures MarksOk(p, d, marked0 + (seen - seen0) + {j}) ==>
              MidForward(p, q, before, Exchanged(a, j, p[j]), d, seen0, seen + {j}, marked0, k, j)
  {
    PathNext(p, q, seen0, seen, k, l);
    if p[j] != k { PathNext(p, q, seen0, seen + {j}, k, j); }
    AheadNext(p, before, a, seen, k, j);
    assert marked0 + (seen + {j} - seen0) == marked0 + (seen - seen0) + {j};
  }

  lemma ForwardStep<T(!new)>(p: seq<int>, q: seq<int>, before: seq<T>, a: seq<T>, c: seq<int>, seen0: set<int>,
                             seen: set<int>, marked0: set<int>, k: int, l: int, j: int, i: int)
    requires MidForward(p, q, before, a, c, seen0, seen, marked0, k, l) && j == p[l] && j != k && 0 <= j < |p|
             && i == p[j]
    ensures j !in seen && 0 <= i < |p| && j < |c|
    ensures MidForward(p, q, before, Exchanged(a, j, i), c[j := Marked(i)], seen0, seen + {j}, marked0, k, j)
  {
    var d := c[j := Marked(i)];
    ForwardNext(p, q, before, a, c, seen0, seen, marked0, k, l, j, d);
    MarkNext(p, c, d, marked0 + (seen - seen0), j);
  }

  method SetMark(c: array<int>, j: int, i: int)
    requires 0 <= j < c.Length
    modifies c
    ensures c[..] == old(c[..])[j := Marked(i)]
  {
    c[j] := -i - 1;
  }

  /** One exchange, and the next entry of the cycle. */
  method StepForward<T(!new)>(a: array<T>, c: array<int>, j0: int, i0: int, ghost k: int, ghost l: int,
                              ghost p: seq<int>, ghost q: seq<int>, ghost before: seq<T>, ghost seen0: set<int>,
                              ghost seen: set<int>, ghost marked0: set<int>)
    returns (j: int, i: int, ghost more: set<int>)
    requires (a as object) != c && a.Length == c.Length == |p|
             && MidForward(p, q, before, a[..], c[..], seen0, seen, marked0, k, l)
    requires j0 == p[l] && j0 != k && 0 <= j0 < |p| && i0 == p[j0]
    modifies a, c
    ensures j0 !in seen && 0 <= j0 < |p| && more == seen + {j0} && j == p[j0] && 0 <= j < |p| && i == c[j]
    ensures MidForward(p, q, before, a[..], c[..], seen0, more, marked0, k, j0)
  {
    ForwardStep(p, q, before, a[..], c[..], seen0, seen, marked0, k, l, j0, i0);
    ExchangeRows(a, j0, i0);
    SetMark(c, j0, i0);
    more := seen + {j0};
    j := i0;
    NextEntry(p, q, before, a[..], c[..], seen0, more, marked0, k, j0);
    i := c[j];
    assert j != i;
  }

  /** The entry after l: the end of the cycle is marked, and the others are not. */
  lemma NextEntry<T(!new)>(p: seq<int>, q: seq<int>, before: seq<T>, a: seq<T>, c: seq<int>, seen0: set<int>,
                           seen: set<int>, marked0: set<int>, k: int, l: int)
    requires MidForward(p, q, before, a, c, seen0, seen, marked0, k, l)
    ensures 0 <= p[l] < |p| && c[p[l]] != p[l]
    ensures if p[l] == k then c[p[l]] < 0 else c[p[l]] >= 0 && c[p[l]] == p[p[l]]
  {
    assert InverseAt(p, q, l);
    var j := p[l];
    assert InverseAt(p, q, j);
    if j == k {
      assert k in marked0 + (seen - seen0);
    } else {
      PathNext(p, q, seen0, seen, k, l);
    }
  }

  /** What is known between two cycles going forward: entries before k of the cycles seen are
      not marked any more, but for the first one of each cycle. */
  ghost predicate BetweenForward<T(!new)>(p: seq<int>, q: seq<int>, before: seq<T>, a: seq<T>, c: seq<int>,
                                          seen: set<int>, marked: set<int>, k: int) {
    && Inverse(p, q) && WholeCycles(p, seen) && RowsTaken(p, before, a, seen) && MarksOk(p, c, marked)
    && 0 <= k <= |p| && marked <= seen <= Range(|p|) && (forall x :: 0 <= x < |p| ==> MarkRule(p, seen, marked, k, x))
  }

  predicate MarkRule(p: seq<int>, seen: set<int>, marked: set<int>, k: int, x: int)
    requires 0 <= x < |p|
  {
    && (x < k ==> x in seen)
    && (x in seen && x >= k ==> x in marked && p[x] != x)
    && (x in seen && x !in marked ==> p[x] != x)
    && (x in marked && x < k && p[x] != x ==> p[x] !in marked || p[x] >= k)
  }

  lemma ForwardStart<T(!new)>(p: seq<int>, q: seq<int>, before: seq<T>, a: seq<T>, c: seq<int>, d: seq<int>,
                              seen: set<int>, marked: set<int>, k: int)
    requires BetweenForward(p, q, before, a, c, seen, marked, k) && k < |p| && k !in seen && d == c[k := Marked(p[k])]
    ensures MidForward(p, q, before, a, d, seen, seen + {k}, marked, k, k)
  {
    PathStart(p, q, seen, k);
    AheadStart(p, before, a, seen, k);
    MarkNext(p, c, d, marked, k);
    assert marked + (seen + {k} - seen) == marked + {k};
  }

  lemma ForwardEnd<T(!new)>(p: seq<int>, q: seq<int>, before: seq<T>, a0: seq<T>, a: seq<T>, c0: seq<int>, c: seq<int>,
                            seen0: set<int>, seen: set<int>, marked0: set<int>, k: int, l: int)
    requires BetweenForward(p, q, before, a0, c0, seen0, marked0, k) && k < |p| && k !in seen0
    requires MidForward(p, q, before, a, c, seen0, seen, marked0, k, l) && p[l] == k
    ensures BetweenForward(p, q, before, a, c, seen, marked0 + (seen - seen0), k + 1)
  {
    PathEnd(p, q, seen0, seen, k, l);
    AheadEnd(p, before, a, seen, k);
    var marked, next := marked0 + (seen - seen0), k + 1;
    forall x | 0 <= x < |p| ensures MarkRule(p, seen, marked, next, x) {
      RuleAfterCycle(p, q, seen0, seen, marked0, k, l, x);
    }
  }

  lemma RuleAfterCycle(p: seq<int>, q: seq<int>, seen0: set<int>, seen: set<int>, marked0: set<int>, k: int, l: int,
                       x: int)
    requires PathOk(p, q, seen0, seen, k, l) && NoFixed(p, seen0, seen, k) && WholeCycles(p, seen) && marked0 <= seen0
    requires 0 <= x < |p| && forall y :: 0 <= y < |p| ==> MarkRule(p, seen0, marked0, k, y)
    ensures MarkRule(p, seen, marked0 + (seen - seen0), k + 1, x)
  {
    assert MarkRule(p, seen0, marked0, k, x);
    assert 0 <= p[x] < |p| && MarkRule(p, seen0, marked0, k, p[x]);
  }

  /** A mark of a cycle already seen is taken back, since its entry is not fixed. */
  lemma Unmarked<T(!new)>(p: seq<int>, q: seq<int>, before: seq<T>, a: seq<T>, c: seq<int>, seen: set<int>,
                          marked: set<int>, k: int)
    requires BetweenForward(p, q, before, a, c, seen, marked, k) && k < |p| && k in seen
    ensures k in marked && BetweenForward(p, q, before, a, c[k := p[k]], seen, marked - {k}, k + 1)
  {
    var next := k + 1;
    assert MarkRule(p, seen, marked, k, k);
    forall x | 0 <= x < |p| ensures MarkRule(p, seen, marked - {k}, next, x) {
      assert MarkRule(p, seen, marked, k, x);
      assert InverseAt(p, q, x);
    }
  }

  /** Follows the cycle of k. */
  method FollowForward<T(!new)>(a: array<T>, c: array<int>, k: int, ghost p: seq<int>, ghost q: seq<int>,
                                ghost before: seq<T>, ghost a0: seq<T>, ghost c0: seq<int>, ghost seen0: set<int>,
                                ghost marked0: set<int>)
    returns (ghost seen: set<int>)
    requires (a as object) != c && a.Length == c.Length == |p| && k < |p| && k !in seen0
    requires BetweenForward(p, q, before, a0, c0, seen0, marked0, k) && a[..] == a0 && c[..] == c0[k := Marked(p[k])]
    modifies a, c
    ensures BetweenForward(p, q, before, a[..], c[..], seen, marked0 + (seen - seen0), k + 1)
  {
    ForwardStart(p, q, before, a0, c0, c[..], seen0, marked0, k);
    seen := seen0 + {k};
    ghost var l := k;
    NextEntry(p, q, before, a[..], c[..], seen0, seen, marked0, k, l);
    var j := -c[k] - 1;
    var i := c[j];
    while i >= 0
      invariant a.Length == c.Length == |p| && MidForward(p, q, before, a[..], c[..], seen0, seen, marked0, k, l)
      invariant j == p[l] && 0 <= j < |p| && i == c[j]
      decreases |Range(|p|) - seen|
    {
      NextEntry(p, q, before, a[..], c[..], seen0, seen, marked0, k, l);
      ghost var was, prev := seen, l;
      l := j;
      j, i, seen := StepForward(a, c, j, i, k, prev, p, q, before, seen0, seen, marked0);
      Fewer(|p|, was, l);
    }
    NextEntry(p, q, before, a[..], c[..], seen0, seen, marked0, k, l);
    ForwardEnd(p, q, before, a0, a[..], c0, c[..], seen0, seen, marked0, k, l);
  }

  /** One entry of the loop: the mark is set before it is tested, so that an entry of a cycle
      already seen loses its mark. */
  method OneForward<T(!new)>(a: array<T>, c: array<int>, k: int, ghost p: seq<int>, ghost q: seq<int>,
                             ghost before: seq<T>, ghost seen0: set<int>, ghost marked0: set<int>)
    returns (ghost seen: set<int>, ghost marked: set<int>)
    requires (a as object) != c && a.Length == c.Length == |p| && k < |p|
    requires BetweenForward(p, q, before, a[..], c[..], seen0, marked0, k)
    modifies a, c
    ensures BetweenForward(p, q, before, a[..], c[..], seen, marked, k + 1)
  {
    ghost var a0, c0 := a[..], c[..];
    EntryForward(p, q, before, a0, c0, seen0, marked0, k);
    var j := c[k];
    c[k] := -j - 1;
    if j < 0 {
      Unmarked(p, q, before, a0, c0, seen0, marked0, k);
      seen, marked := seen0, marked0 - {k};
    } else {
      seen := FollowForward(a, c, k, p, q, before, a0, c0, seen0, marked0);
      marked := marked0 + (seen - seen0);
    }
  }

  /** The sign of the entry at k tells whether its cycle was seen. */
  lemma EntryForward<T(!new)>(p: seq<int>, q: seq<int>, before: seq<T>, a: seq<T>, c: seq<int>, seen: set<int>,
                              marked: set<int>, k: int)
    requires BetweenForward(p, q, before, a, c, seen, marked, k) && k < |p|
    ensures if c[k] < 0 then k in seen && -c[k] - 1 == p[k] else k !in seen && c[k] == p[k]
  {
    SeenOrNot(p, q, c, marked, k);
    assert MarkRule(p, seen, marked, k, k);
  }

  predicate Identity(p: seq<int>) { forall x :: 0 <= x < |p| ==> p[x] == x }

  /** At the end all the entries are marked exactly when the permutation is the identity. */
  lemma AllMarked<T(!new)>(p: seq<int>, q: seq<int>, before: seq<T>, a: seq<T>, c: seq<int>, seen: set<int>,
                           marked: set<int>)
    requires BetweenForward(p, q, before, a, c, seen, marked, |p|)
    ensures TakenFrom(p, before, a) && marked <= Range(|p|)
    ensures Identity(p) <==> marked == Range(|p|)
  {
    forall x | 0 <= x < |p| ensures 0 <= p[x] < |p| && x in seen && a[x] == before[p[x]] {
      assert MarkRule(p, seen, marked, |p|, x) && RowTaken(p, before, a, seen, x);
    }
    if Identity(p) {
      forall x | 0 <= x < |p| ensures x in marked { assert MarkRule(p, seen, marked, |p|, x); }
    }
    if marked == Range(|p|) {
      forall x | 0 <= x < |p| ensures p[x] == x { assert MarkRule(p, seen, marked, |p|, x) && p[x] in marked; }
    }
  }

  /** The loop over all cycles. */
  method Forward<T(!new)>(a: array<T>, c: array<int>, ghost p: seq<int>, ghost q: seq<int>)
    returns (ghost marked: set<int>)
    requires (a as object) != c && Inverse(p, q) && c[..] == p && a.Length == |p|
    modifies a, c
    ensures TakenFrom(p, old(a[..]), a[..]) && MarksOk(p, c[..], marked) && marked <= Range(|p|)
    ensures Identity(p) <==> marked == Range(|p|)
  {
    ghost var before, seen: set<int> := a[..], {};
    marked := {};
    BetweenStart(p, q, before);
    ForwardBegin(p, q, before);
    var k := 0;
    while k < c.Length
      invariant c.Length == |p| && a.Length == |p| && BetweenForward(p, q, before, a[..], c[..], seen, marked, k)
    {
      seen, marked := OneForward(a, c, k, p, q, before, seen, marked);
      k := k + 1;
    }
    assert k == |p|;
    AllMarked(p, q, before, a[..], c[..], seen, marked);
  }

  lemma ForwardBegin<T(!new)>(p: seq<int>, q: seq<int>, a: seq<T>)
    requires Between(p, q, a, a, p, {}, 0)
    ensures BetweenForward(p, q, a, a, p, {}, {}, 0)
  {
    forall x | 0 <= x < |p| ensures MarkRule(p, {}, {}, 0, x) && RowTaken(p, a, a, {}, x) { }
  }

  // ----- The whole routine -----

  predicate AllNegative(c: seq<int>) { forall x :: 0 <= x < |c| ==> c[x] < 0 }
  predicate Negated(c: seq<int>, d: seq<int>) { |d| == |c| && forall x :: 0 <= x < |d| ==> d[x] == Marked(c[x]) }

  /** Restores the permutation array from its marks; negative tells whether the assertion of
      the loop holds of all the entries. */
  method Restore(perm: array<int>) returns (negative: bool)
    modifies perm
    ensures negative <==> AllNegative(old(perm[..]))
    ensures Negated(old(perm[..]), perm[..])
  {
    ghost var c := perm[..];
    negative := true;
    var k := 0;
    while k < perm.Length
      invariant 0 <= k <= perm.Length == |c| && (negative <==> forall x :: 0 <= x < k ==> c[x] < 0)
      invariant forall x :: 0 <= x < perm.Length ==> perm[x] == if x < k then Marked(c[x]) else c[x]
    {
      negative := negative && perm[k] < 0;
      perm[k] := -perm[k] - 1;
      k := k + 1;
    }
  }

  lemma Restored(p: seq<int>, q: seq<int>, c: seq<int>, d: seq<int>, marked: set<int>)
    requires Inverse(p, q) && MarksOk(p, c, marked) && marked <= Range(|p|) && |d| == |c|
    requires Negated(c, d)
    ensures d == p <==> marked == Range(|p|)
    ensures AllNegative(c) <==> marked == Range(|p|)
  {
    forall x | 0 <= x < |p| ensures (c[x] < 0 <==> x in marked) && (d[x] == p[x] <==> x in marked) {
      assert InverseAt(p, q, x);
    }
    if d == p { forall x | 0 <= x < |p| ensures x in marked { assert d[x] == p[x]; } }
    if forall x :: 0 <= x < |c| ==> c[x] < 0 { forall x | 0 <= x < |p| ensures x in marked { assert c[x] < 0; } }
    if marked == Range(|p|) { forall x | 0 <= x < |p| ensures d[x] == p[x] { } }
  }

  method FollowAll<T(!new)>(backward: bool, a: array<T>, c: array<int>, ghost p: seq<int>, ghost q: seq<int>)
    returns (ghost marked: set<int>)
    requires (a as object) != c && Inverse(p, q) && c[..] == p && a.Length == |p|
    modifies a, c
    ensures if backward then MovedTo(p, old(a[..]), a[..]) else TakenFrom(p, old(a[..]), a[..])
    ensures MarksOk(p, c[..], marked) && marked <= Range(|p|) && (marked == Range(|p|) <==> backward || Identity(p))
  {
    marked := Range(|p|);
    if backward {
      Backward(a, c, p, q);
    } else {
      marked := Forward(a, c, p, q);
    }
  }

  /** bvec_zlapmr: moves row x to row perm[x] going backward, and takes row perm[x] going
      forward. With a private copy (threadSafe), or going backward, the permutation is given
      back; otherwise it is given back, and the assertion of the last loop holds, exactly when
      the permutation is the identity. */
  method Lapmr<T(!new)>(threadSafe: bool, backward: bool, a: array<T>, perm: array<int>) returns (asserted: bool)
    requires (a as object) != perm && a.Length == perm.Length && IsPermutation(perm[..])
    modifies a, perm
    ensures if backward then MovedTo(old(perm[..]), old(a[..]), a[..]) else TakenFrom(old(perm[..]), old(a[..]), a[..])
    ensures perm[..] == old(perm[..]) <==> threadSafe || backward || Identity(old(perm[..]))
    ensures asserted <==> threadSafe || backward || Identity(old(perm[..]))
  {
    if threadSafe {
      LapmrOnCopy(backward, a, perm);
      asserted := true;
    } else {
      asserted := LapmrInPlace(backward, a, perm);
    }
  }

  /** With a private copy the permutation is only read. */
  method LapmrOnCopy<T(!new)>(backward: bool, a: array<T>, perm: array<int>)
    requires (a as object) != perm && a.Length == perm.Length && IsPermutation(perm[..])
    modifies a
    ensures if backward then MovedTo(perm[..], old(a[..]), a[..]) else TakenFrom(perm[..], old(a[..]), a[..])
  {
    ghost var p := perm[..];
    ghost var q := InverseOf(p);
    var c := new int[perm.Length](i requires 0 <= i < perm.Length reads perm => perm[i]);
    assert c[..] == p;
    ghost var marked := FollowAll(backward, a, c, p, q);
  }

  /** In place the permutation is marked, then restored from its marks. */
  method LapmrInPlace<T(!new)>(backward: bool, a: array<T>, perm: array<int>) returns (asserted: bool)
    requires (a as object) != perm && a.Length == perm.Length && IsPermutation(perm[..])
    modifies a, perm
    ensures if backward then MovedTo(old(perm[..]), old(a[..]), a[..]) else TakenFrom(old(perm[..]), old(a[..]), a[..])
    ensures perm[..] == old(perm[..]) <==> backward || Identity(old(perm[..]))
    ensures asserted <==> backward || Identity(old(perm[..]))
  {
    ghost var p := perm[..];
    ghost var q := InverseOf(p);
    ghost var marked := FollowAll(backward, a, perm, p, q);
    ghost var marks := perm[..];
    asserted := Restore(perm);
    Restored(p, q, marks, perm[..], marked);
  }

  /** In place and forward, an exchange of two rows is enough to lose the permutation. */
  method ForwardLosesPermutation() returns (perm: array<int>, asserted: bool)
    ensures perm[..] != [1, 0] && !asserted
  {
    var rows := new int[2] [7, 8];
    perm := new int[2] [1, 0];
    assert perm[..] == [1, 0];
    asserted := Lapmr(false, false, rows, perm);
    assert [1, 0][0] != 0;
  }
}

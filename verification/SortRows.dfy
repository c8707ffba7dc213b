/** bcsc_zsort of bcsc/bcsc_zinit.c: the rows of every column are sorted through a table of
    places, which later calls use to write directly. cppSort of common/cpp_sort.cpp is a sort of
    the standard library; any sort of a part of the table will do, and the template is one. */
module SortRows {
  import opened Csc
  import opened RowPermutation
  import opened PermuteCsc
  import opened Spmv
  import opened Coltab
  import Sorting

  // ----- cppSort -----

  /** The row that place i refers to. */
  function Key(rows: seq<int>, i: int): int { if 0 <= i < |rows| then rows[i] else 0 }

  function KeyLess(rows: seq<int>): (int, int) -> bool { (i: int, j: int) => Key(rows, i) < Key(rows, j) }

  lemma KeyLessIsStrictWeak(rows: seq<int>)
    ensures Sorting.StrictWeak(KeyLess(rows))
  {
    var less := KeyLess(rows);
    forall x, y, z ensures Sorting.Step3(less, x, y, z) { }
    forall x, y | less(x, y) ensures Sorting.Le(less, x, y) { }
  }

  ghost predicate KeysSorted(rows: seq<int>, s: seq<int>, lo: int, hi: int) {
    0 <= lo <= hi <= |s| && forall i, j :: lo <= i < j < hi ==> Key(rows, s[i]) <= Key(rows, s[j])
  }

  lemma {:induction false} PowAbove(n: nat)
    ensures n < Sorting.Pow2(n)
  {
    if n > 0 { PowAbove(n - 1); }
  }

  /** Sorts the places lo .. hi - 1 by the rows they refer to. */
  method CppSort(sorttab: array<int>, lo: int, hi: int, rows: seq<int>)
    requires 0 <= lo <= hi <= sorttab.Length
    modifies sorttab
    ensures Sorting.SameOn(old(sorttab[..]), sorttab[..], lo, hi - 1) && KeysSorted(rows, sorttab[..], lo, hi)
  {
    ghost var s := sorttab[..];
    var part :=
        new int[hi - lo](i requires 0 <= i < hi - lo && hi <= sorttab.Length
                         && 0 <= lo reads sorttab => sorttab[lo + i]);
    assert part[..] == s[lo..hi];
    KeyLessIsStrictWeak(rows);
    PowAbove(hi - lo);
    ghost var depth := Sorting.Sort(part, KeyLess(rows), hi - lo + 1);
    ghost var t := part[..];
    forall i | 0 <= i < hi - lo { sorttab[lo + i] := part[i]; }
    PartSorted(rows, s, t, sorttab[..], lo, hi);
  }

  lemma PartSorted(rows: seq<int>, s: seq<int>, t: seq<int>, u: seq<int>, lo: int, hi: int)
    requires 0 <= lo <= hi <= |s| == |u| && |t| == hi - lo && multiset(t) == multiset(s[lo..hi])
    requires Sorting.Sorted(KeyLess(rows), t)
    requires forall i :: 0 <= i < |u| ==> u[i] == if lo <= i < hi then t[i - lo] else s[i]
    ensures Sorting.SameOn(s, u, lo, hi - 1) && KeysSorted(rows, u, lo, hi)
  {
    assert u[lo..hi] == t && u[..lo] == s[..lo] && u[hi..] == s[hi..];
    forall i, j | lo <= i < j < hi ensures Key(rows, u[i]) <= Key(rows, u[j]) {
      assert Sorting.Le(KeyLess(rows), t[i - lo], t[j - lo]);
    }
  }

  // ----- A permutation of the places -----

  lemma {:induction false} OnceEach(p: seq<int>, k: int, v: int)
    requires IsPermutation(p) && 0 <= k <= |p|
    ensures multiset(p[..k])[v] <= 1 && (v !in p[..k] ==> multiset(p[..k])[v] == 0)
    decreases k
  {
    if k > 0 {
      OnceEach(p, k - 1, v);
      assert p[..k] == p[..k - 1] + [p[k - 1]];
    }
  }

  lemma TwiceIn(q: seq<int>, i: int, j: int)
    requires 0 <= i < j < |q| && q[i] == q[j]
    ensures multiset(q)[q[i]] >= 2
  {
    var a, b := q[..i + 1], q[i + 1..];
    assert q == a + b && a[i] == q[i] && b[j - i - 1] == q[j];
    assert a[i] in multiset(a) && b[j - i - 1] in multiset(b);
    assert multiset(q) == multiset(a) + multiset(b);
  }

  lemma PermutationKept(p: seq<int>, q: seq<int>, lo: int, hi: int)
    requires IsPermutation(p) && Sorting.SameOn(p, q, lo, hi)
    ensures IsPermutation(q)
  {
    Sorting.SameOnPermutes(p, q, lo, hi);
    forall x | 0 <= x < |q| ensures 0 <= q[x] < |q| { var k := Sorting.SameOnHas(p, q, lo, hi, x); }
    forall x, y | 0 <= x < y < |q| ensures q[x] != q[y] {
      OnceEach(p, |p|, q[x]);
      assert p[..|p|] == p;
      if q[x] == q[y] { TwiceIn(q, x, y); }
    }
  }

  // ----- Column by column -----

  /** The columns before c are sorted, and the others are as they were. */
  ghost predicate SortedBefore(m: Pattern, perm: seq<int>, peri: seq<int>, rows: seq<int>, order: seq<int>, c: int) {
    && Ready(m, perm, peri) && |order| == |rows| == m.Nnz() && IsPermutation(order) && 0 <= c <= m.n
    && ColumnsStay(m, peri, order, c) && ColumnsSorted(m, peri, rows, order, c) && ColumnsUnmoved(m, peri, order, c)
  }
  ghost predicate ColumnsStay(m: Pattern, peri: seq<int>, order: seq<int>, c: int)
    requires c <= |peri|
  {
    forall d, s :: 0 <= d < c && InOut(m, peri, d, s) ==> StaysIn(m, peri, order, d, s)
  }
  ghost predicate ColumnsSorted(m: Pattern, peri: seq<int>, rows: seq<int>, order: seq<int>, c: int)
    requires c <= |peri|
  {
    forall d, s, t :: 0 <= d < c && InOut(m, peri, d, s) && InOut(m, peri, d, t) && s < t ==> InOrder(rows, order, s, t)
  }
  ghost predicate ColumnsUnmoved(m: Pattern, peri: seq<int>, order: seq<int>, c: int)
    requires 0 <= c
  {
    forall d, s :: c <= d < |peri| && InOut(m, peri, d, s) ==> Unmoved(order, s)
  }
  predicate Unmoved(order: seq<int>, s: int) { 0 <= s < |order| && order[s] == s }

  lemma ColumnInside(m: Pattern, perm: seq<int>, peri: seq<int>, c: int, next: int)
    requires Ready(m, perm, peri) && 0 <= c < next == c + 1 <= m.n
    ensures 0 <= OutLo(m, peri, c) <= OutLo(m, peri, next) <= m.Nnz()
  {
    OutGrows(m, perm, peri, 0, c);
    OutGrows(m, perm, peri, c, next);
    OutGrows(m, perm, peri, next, m.n);
    OutEnd(m, perm, peri);
  }

  lemma SortedNone(m: Pattern, perm: seq<int>, peri: seq<int>, rows: seq<int>, order: seq<int>)
    requires Ready(m, perm, peri) && |order| == |rows| == m.Nnz() && forall s :: 0 <= s < |order| ==> order[s] == s
    ensures SortedBefore(m, perm, peri, rows, order, 0)
  {
    forall d, s | 0 <= d < m.n && InOut(m, peri, d, s) ensures Unmoved(order, s) {
      ColumnInside(m, perm, peri, d, d + 1);
    }
  }

  /** Column c is at the places lo .. hi - 1. */
  ghost predicate Bounds(m: Pattern, peri: seq<int>, c: int, lo: int, hi: int) {
    0 <= c < |peri| && lo == OutLo(m, peri, c) && hi == OutLo(m, peri, c + 1)
  }

  /** Places of the other columns are not moved by the sort of column c. */
  lemma OtherKept(m: Pattern, perm: seq<int>, peri: seq<int>, before: seq<int>, after: seq<int>, c: int, lo: int,
                  hi: int, d: int, s: int)
    requires Ready(m, perm, peri) && Bounds(m, peri, c, lo, hi) && 0 <= d < m.n && d != c && InOut(m, peri, d, s)
    requires |before| == m.Nnz() && Sorting.SameOn(before, after, lo, hi - 1)
    ensures 0 <= s < |after| == |before| && after[s] == before[s]
  {
    ColumnInside(m, perm, peri, d, d + 1);
    if InOut(m, peri, c, s) { OneOutColumn(m, perm, peri, c, d, s); }
    var k := Sorting.SameOnHas(before, after, lo, hi - 1, s);
  }

  /** Places of column c stay in it. */
  lemma ColumnKept(m: Pattern, perm: seq<int>, peri: seq<int>, before: seq<int>, after: seq<int>, c: int, lo: int,
                   hi: int, s: int)
    requires Ready(m, perm, peri) && |before| == m.Nnz() && Bounds(m, peri, c, lo, hi) && InOut(m, peri, c, s)
    requires ColumnsUnmoved(m, peri, before, c) && Sorting.SameOn(before, after, lo, hi - 1)
    ensures StaysIn(m, peri, after, c, s)
  {
    ColumnInside(m, perm, peri, c, c + 1);
    var k := Sorting.SameOnHas(before, after, lo, hi - 1, s);
    assert InOut(m, peri, c, k) && Unmoved(before, k);
  }

  lemma ColumnSorted(m: Pattern, peri: seq<int>, rows: seq<int>, after: seq<int>, c: int, lo: int, hi: int, s: int,
                     t: int)
    requires Bounds(m, peri, c, lo, hi) && KeysSorted(rows, after, lo, hi)
    requires InOut(m, peri, c, s) && InOut(m, peri, c, t) && s < t
    requires Refers(rows, after, s) && Refers(rows, after, t)
    ensures InOrder(rows, after, s, t)
  {
    assert Key(rows, after[s]) <= Key(rows, after[t]);
  }

  predicate Refers(rows: seq<int>, order: seq<int>, s: int) { 0 <= s < |order| && 0 <= order[s] < |rows| }

  lemma StayNext(m: Pattern, perm: seq<int>, peri: seq<int>, before: seq<int>, after: seq<int>, c: int, next: int,
                 lo: int, hi: int)
    requires Ready(m, perm, peri) && |before| == m.Nnz() && Bounds(m, peri, c, lo, hi) && next == c + 1
    requires ColumnsStay(m, peri, before, c) && ColumnsUnmoved(m, peri, before, c)
    requires Sorting.SameOn(before, after, lo, hi - 1)
    ensures ColumnsStay(m, peri, after, next)
  {
    forall d, s | 0 <= d < next && InOut(m, peri, d, s) ensures StaysIn(m, peri, after, d, s) {
      if d < c {
        assert StaysIn(m, peri, before, d, s);
        OtherKept(m, perm, peri, before, after, c, lo, hi, d, s);
      } else {
        ColumnKept(m, perm, peri, before, after, c, lo, hi, s);
      }
    }
  }

  lemma EarlierInOrder(m: Pattern, perm: seq<int>, peri: seq<int>, rows: seq<int>, before: seq<int>, after: seq<int>,
                       c: int, lo: int, hi: int, d: int, s: int, t: int)
    requires Ready(m, perm, peri) && |before| == m.Nnz() && Bounds(m, peri, c, lo, hi) && 0 <= d < c
    requires Sorting.SameOn(before, after, lo, hi - 1) && InOrder(rows, before, s, t)
    requires InOut(m, peri, d, s) && InOut(m, peri, d, t)
    ensures InOrder(rows, after, s, t)
  {
    OtherKept(m, perm, peri, before, after, c, lo, hi, d, s);
    OtherKept(m, perm, peri, before, after, c, lo, hi, d, t);
  }

  lemma InOrderNext(m: Pattern, perm: seq<int>, peri: seq<int>, rows: seq<int>, before: seq<int>, after: seq<int>,
                    c: int, next: int, lo: int, hi: int)
    requires Ready(m, perm, peri) && |before| == m.Nnz() && Bounds(m, peri, c, lo, hi) && next == c + 1
    requires ColumnsSorted(m, peri, rows, before, c) && Sorting.SameOn(before, after, lo, hi - 1)
    requires KeysSorted(rows, after, lo, hi) && forall s :: 0 <= s < |after| ==> Refers(rows, after, s)
    ensures ColumnsSorted(m, peri, rows, after, next)
  {
    forall d, s, t | 0 <= d < next && InOut(m, peri, d, s) && InOut(m, peri, d, t) && s < t
      ensures InOrder(rows, after, s, t) {
      if d < c {
        assert InOrder(rows, before, s, t);
        EarlierInOrder(m, perm, peri, rows, before, after, c, lo, hi, d, s, t);
      } else {
        ColumnInside(m, perm, peri, c, next);
        assert Refers(rows, after, s) && Refers(rows, after, t);
        ColumnSorted(m, peri, rows, after, c, lo, hi, s, t);
      }
    }
  }

  lemma UnmovedNext(m: Pattern, perm: seq<int>, peri: seq<int>, before: seq<int>, after: seq<int>, c: int, next: int,
                    lo: int, hi: int)
    requires Ready(m, perm, peri) && |before| == m.Nnz() && Bounds(m, peri, c, lo, hi) && next == c + 1
    requires ColumnsUnmoved(m, peri, before, c) && Sorting.SameOn(before, after, lo, hi - 1)
    ensures ColumnsUnmoved(m, peri, after, next)
  {
    forall d, s | next <= d < |peri| && InOut(m, peri, d, s) ensures Unmoved(after, s) {
      assert Unmoved(before, s);
      OtherKept(m, perm, peri, before, after, c, lo, hi, d, s);
    }
  }

  lemma SortedNext(m: Pattern, perm: seq<int>, peri: seq<int>, rows: seq<int>, before: seq<int>, after: seq<int>,
                   c: int, next: int, lo: int, hi: int)
    requires SortedBefore(m, perm, peri, rows, before, c) && Bounds(m, peri, c, lo, hi) && next == c + 1
    requires Sorting.SameOn(before, after, lo, hi - 1) && KeysSorted(rows, after, lo, hi)
    ensures SortedBefore(m, perm, peri, rows, after, next)
  {
    PermutationKept(before, after, lo, hi - 1);
    forall s | 0 <= s < |after| ensures Refers(rows, after, s) { }
    StayNext(m, perm, peri, before, after, c, next, lo, hi);
    InOrderNext(m, perm, peri, rows, before, after, c, next, lo, hi);
    UnmovedNext(m, perm, peri, before, after, c, next, lo, hi);
  }

  /** One column. */
  method SortColumn(ghost m: Pattern, ghost perm: seq<int>, ghost peri: seq<int>, rows: seq<int>, sorttab: array<int>,
                    lo: int, hi: int, ghost c: int)
    requires SortedBefore(m, perm, peri, rows, sorttab[..], c) && Bounds(m, peri, c, lo, hi)
    modifies sorttab
    ensures SortedBefore(m, perm, peri, rows, sorttab[..], c + 1)
  {
    ColumnInside(m, perm, peri, c, c + 1);
    ghost var before := sorttab[..];
    CppSort(sorttab, lo, hi, rows);
    SortedNext(m, perm, peri, rows, before, sorttab[..], c, c + 1, lo, hi);
  }

  /** The columns of one block. */
  method SortBlock(ghost m: Pattern, ghost perm: seq<int>, ghost peri: seq<int>, rows: seq<int>, sorttab: array<int>,
                   block: Block, coltab: seq<int>)
    requires StartsAt(m, peri, block, coltab) && SortedBefore(m, perm, peri, rows, sorttab[..], block.fcolnum)
    modifies sorttab
    ensures SortedBefore(m, perm, peri, rows, sorttab[..], block.lcolnum + 1)
  {
    var colnbr := block.lcolnum - block.fcolnum + 1;
    var itercol := 0;
    while itercol < colnbr
      invariant 0 <= itercol <= colnbr
      invariant SortedBefore(m, perm, peri, rows, sorttab[..], block.fcolnum + itercol)
    {
      SortColumn(m, perm, peri, rows, sorttab, coltab[itercol], coltab[itercol + 1], block.fcolnum + itercol);
      itercol := itercol + 1;
    }
  }

  ghost predicate SortedBlocks(m: Pattern, perm: seq<int>, peri: seq<int>, rows: seq<int>, order: seq<int>,
                               blocks: seq<Block>, b: int) {
    0 <= b <= |blocks| && SortedBefore(m, perm, peri, rows, order, NextColumn(blocks, b))
  }

  method SortBlockAt(ghost m: Pattern, ghost perm: seq<int>, ghost peri: seq<int>, rows: seq<int>, sorttab: array<int>,
                     blocks: seq<Block>, coltabs: seq<seq<int>>, b: int)
    requires Tiling(blocks, m.n) && AllStarts(m, peri, blocks, coltabs) && 0 <= b < |blocks|
    requires SortedBlocks(m, perm, peri, rows, sorttab[..], blocks, b)
    modifies sorttab
    ensures SortedBlocks(m, perm, peri, rows, sorttab[..], blocks, b + 1)
  {
    BlockStarts(m, peri, blocks, coltabs, b);
    SortBlock(m, perm, peri, rows, sorttab, blocks[b], coltabs[b]);
  }

  /** The loops of bcsc_zsort over blocks and columns: an order of the places. */
  method SortAll(ghost m: Pattern, ghost perm: seq<int>, ghost peri: seq<int>, rows: seq<int>, blocks: seq<Block>,
                 coltabs: seq<seq<int>>) returns (sorttab: array<int>)
    requires Ready(m, perm, peri) && |rows| == m.Nnz() && Tiling(blocks, m.n) && AllStarts(m, peri, blocks, coltabs)
    ensures fresh(sorttab) && SortsRows(m, perm, peri, rows, sorttab[..])
  {
    sorttab := AllPlaces(m, perm, peri, rows);
    var itercblk := 0;
    while itercblk < |blocks|
      invariant fresh(sorttab) && SortedBlocks(m, perm, peri, rows, sorttab[..], blocks, itercblk)
    {
      SortBlockAt(m, perm, peri, rows, sorttab, blocks, coltabs, itercblk);
      itercblk := itercblk + 1;
    }
    SortedAll(m, perm, peri, rows, sorttab[..], blocks);
  }

  /** The table starts as the places in their own order. */
  method AllPlaces(ghost m: Pattern, ghost perm: seq<int>, ghost peri: seq<int>, rows: seq<int>)
    returns (sorttab: array<int>)
    requires Ready(m, perm, peri) && |rows| == m.Nnz()
    ensures fresh(sorttab) && SortedBefore(m, perm, peri, rows, sorttab[..], 0)
  {
    sorttab := new int[|rows|](i => i);
    SortedNone(m, perm, peri, rows, sorttab[..]);
  }

  lemma BlockStarts(m: Pattern, peri: seq<int>, blocks: seq<Block>, coltabs: seq<seq<int>>, b: int)
    requires Tiling(blocks, m.n) && AllStarts(m, peri, blocks, coltabs) && 0 <= b < |blocks|
    ensures blocks[b].fcolnum == NextColumn(blocks, b) && blocks[b].lcolnum + 1 == NextColumn(blocks, b + 1)
    ensures StartsAt(m, peri, blocks[b], coltabs[b])
  {
    assert BlockOk(blocks, m.n, b) && StartsAt(m, peri, blocks[b], coltabs[b]);
  }

  lemma SortedAll(m: Pattern, perm: seq<int>, peri: seq<int>, rows: seq<int>, order: seq<int>, blocks: seq<Block>)
    requires Tiling(blocks, m.n) && SortedBlocks(m, perm, peri, rows, order, blocks, |blocks|)
    ensures SortsRows(m, perm, peri, rows, order)
  {
  }

  /** Sorts the rows of every column, gathers rows and values in that order, and keeps the
      inverse of the order as the table. */
  method Zsort<T(!new)>(ghost m: Pattern, ghost perm: seq<int>, ghost peri: seq<int>, blocks: seq<Block>,
                        coltabs: seq<seq<int>>, rowtab: array<int>, valtab: array<T>)
    returns (sorttab: array<int>, ghost order: seq<int>)
    requires Ready(m, perm, peri) && Tiling(blocks, m.n) && AllStarts(m, peri, blocks, coltabs)
    requires rowtab.Length == valtab.Length == m.Nnz() && (rowtab as object) != valtab
    modifies rowtab, valtab
    ensures fresh(sorttab) && SortsRows(m, perm, peri, old(rowtab[..]), order) && Inverse(order, sorttab[..])
    ensures Gathered(old(rowtab[..]), rowtab[..], order) && Gathered(old(valtab[..]), valtab[..], order)
  {
    var rowcopy, valcopy := rowtab[..], valtab[..];
    var places := SortAll(m, perm, peri, rowcopy, blocks, coltabs);
    var inOrder := places[..];
    order := inOrder;
    forall i | 0 <= i < rowtab.Length { rowtab[i] := rowcopy[inOrder[i]]; }
    forall i | 0 <= i < valtab.Length { valtab[i] := valcopy[inOrder[i]]; }
    sorttab := InverseTable(inOrder);
  }

  ghost predicate Gathered<T(!new)>(before: seq<T>, after: seq<T>, order: seq<int>) {
    |before| == |after| == |order|
    && forall k :: 0 <= k < |order| ==> 0 <= order[k] < |before| && after[k] == before[order[k]]
  }

  method InverseTable(order: seq<int>) returns (inverse: array<int>)
    requires IsPermutation(order)
    ensures fresh(inverse) && Inverse(order, inverse[..])
  {
    ghost var q := InverseOf(order);
    inverse := new int[|order|](_ => 0);
    var i := 0;
    while i < |order|
      invariant 0 <= i <= |order| && forall k :: 0 <= k < i ==> inverse[order[k]] == k
    {
      inverse[order[i]] := i;
      i := i + 1;
    }
    forall x | 0 <= x < |order| ensures InverseAt(inverse[..], order, x) {
      assert InverseAt(q, order, x);
      assert inverse[order[q[x]]] == q[x];
    }
  }
}

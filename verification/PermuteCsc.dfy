/** permute_z_Matrix and bcsc_zsort of bcsc/bcsc_zinit.c: the columns and rows of a matrix in a
    new order. The first call sorts the rows of each column and keeps the places; later calls
    write to these places directly, with the same result. */
module PermuteCsc {
  import opened Csc
  import opened RowPermutation

  function Len(m: Pattern, i: int): int
    requires 0 <= i < |m.colptr| - 1
  {
    m.Lo(i + 1) - m.Lo(i)
  }

  /** Entries of the new columns before c. */
  function OutLo(m: Pattern, peri: seq<int>, c: int): (s: int)
    requires 0 <= c <= |peri|
    decreases c
  {
    if c == 0 then 0
    else OutLo(m, peri, c - 1) + if 0 <= peri[c - 1] < |m.colptr| - 1 then Len(m, peri[c - 1]) else 0
  }

  ghost predicate Ready(m: Pattern, perm: seq<int>, peri: seq<int>) {
    ValidPattern(m) && |perm| == |peri| == m.n && Inverse(perm, peri)
  }

  lemma {:induction false} OutGrows(m: Pattern, perm: seq<int>, peri: seq<int>, c: int, d: int)
    requires Ready(m, perm, peri) && 0 <= c <= d <= m.n
    ensures 0 <= OutLo(m, peri, c) <= OutLo(m, peri, d)
    decreases d
  {
    if c < d {
      assert InverseAt(peri, perm, d - 1);
      assert ColOk(m, peri[d - 1]);
      OutGrows(m, perm, peri, c, d - 1);
    } else if c > 0 {
      assert InverseAt(peri, perm, c - 1);
      assert ColOk(m, peri[c - 1]);
      OutGrows(m, perm, peri, c - 1, c - 1);
    }
  }

  /** Entries of the columns of the matrix whose new number is before c: a sum over the old
      columns, which is the one over the new ones. */
  function OldSum(m: Pattern, perm: seq<int>, c: int, i: int): int
    requires 0 <= i < |m.colptr| && i <= |perm|
    decreases i
  {
    if i == 0 then 0 else OldSum(m, perm, c, i - 1) + if perm[i - 1] < c then Len(m, i - 1) else 0
  }

  lemma {:induction false} OldSumNext(m: Pattern, perm: seq<int>, peri: seq<int>, c: int, i: int)
    requires Ready(m, perm, peri) && 0 <= c < m.n && 0 <= i <= m.n
    ensures OldSum(m, perm, c + 1, i) == OldSum(m, perm, c, i) + if 0 <= peri[c] < i then Len(m, peri[c]) else 0
    decreases i
  {
    if i > 0 {
      assert InverseAt(perm, peri, i - 1) && InverseAt(peri, perm, c);
      OldSumNext(m, perm, peri, c, i - 1);
    }
  }

  lemma {:induction false} OldSumNone(m: Pattern, perm: seq<int>, peri: seq<int>, i: int)
    requires Ready(m, perm, peri) && 0 <= i <= m.n
    ensures OldSum(m, perm, 0, i) == 0
    decreases i
  {
    if i > 0 {
      assert InverseAt(perm, peri, i - 1);
      OldSumNone(m, perm, peri, i - 1);
    }
  }

  lemma {:induction false} OutIsOld(m: Pattern, perm: seq<int>, peri: seq<int>, c: int)
    requires Ready(m, perm, peri) && 0 <= c <= m.n
    ensures OutLo(m, peri, c) == OldSum(m, perm, c, m.n)
    decreases c
  {
    if c == 0 {
      OldSumNone(m, perm, peri, m.n);
    } else {
      assert InverseAt(peri, perm, c - 1);
      OutIsOld(m, perm, peri, c - 1);
      OldSumNext(m, perm, peri, c - 1, m.n);
    }
  }

  lemma {:induction false} OldSumAll(m: Pattern, perm: seq<int>, peri: seq<int>, i: int)
    requires Ready(m, perm, peri) && 0 <= i <= m.n
    ensures OldSum(m, perm, m.n, i) == m.Lo(i)
    decreases i
  {
    if i > 0 {
      assert InverseAt(perm, peri, i - 1);
      OldSumAll(m, perm, peri, i - 1);
    }
  }

  /** All the entries have a place. */
  lemma OutEnd(m: Pattern, perm: seq<int>, peri: seq<int>)
    requires Ready(m, perm, peri)
    ensures OutLo(m, peri, m.n) == m.Nnz()
  {
    OutIsOld(m, perm, peri, m.n);
    OldSumAll(m, perm, peri, m.n);
  }

  // ----- Places -----

  /** Place of entry j of column i before the rows are sorted. */
  function Slot(m: Pattern, perm: seq<int>, peri: seq<int>, i: int, j: int): int
    requires 0 <= i < |m.colptr| - 1 && i < |perm| && 0 <= perm[i] <= |peri|
  {
    OutLo(m, peri, perm[i]) + j - m.Lo(i)
  }

  ghost predicate InOut(m: Pattern, peri: seq<int>, c: int, s: int)
    requires 0 <= c < |peri|
  {
    OutLo(m, peri, c) <= s < OutLo(m, peri, c + 1)
  }

  lemma SlotInRange(m: Pattern, perm: seq<int>, peri: seq<int>, i: int, j: int)
    requires Ready(m, perm, peri) && 0 <= i < m.n && InCol(m, i, j)
    ensures InverseAt(perm, peri, i) && InOut(m, peri, perm[i], Slot(m, perm, peri, i, j))
    ensures 0 <= Slot(m, perm, peri, i, j) < m.Nnz()
  {
    assert InverseAt(perm, peri, i);
    assert ColOk(m, i);
    var c := perm[i];
    assert OutLo(m, peri, c + 1) == OutLo(m, peri, c) + Len(m, i);
    OutGrows(m, perm, peri, 0, c);
    OutGrows(m, perm, peri, c + 1, m.n);
    OutEnd(m, perm, peri);
  }

  /** The new column of a place. */
  lemma {:induction false} OutColumn(m: Pattern, perm: seq<int>, peri: seq<int>, s: int, d: int) returns (c: int)
    requires Ready(m, perm, peri) && 0 <= d <= m.n && 0 <= s < OutLo(m, peri, d)
    ensures 0 <= c < d && InOut(m, peri, c, s)
    decreases d
  {
    if s < OutLo(m, peri, d - 1) { c := OutColumn(m, perm, peri, s, d - 1); } else { c := d - 1; }
  }

  lemma OneOutColumn(m: Pattern, perm: seq<int>, peri: seq<int>, c: int, d: int, s: int)
    requires Ready(m, perm, peri) && 0 <= c < m.n && 0 <= d < m.n && InOut(m, peri, c, s) && InOut(m, peri, d, s)
    ensures c == d
  {
    if c < d { OutGrows(m, perm, peri, c + 1, d); } else if d < c { OutGrows(m, perm, peri, d + 1, c); }
  }

  /** Every place belongs to one entry. */
  lemma SlotOf(m: Pattern, perm: seq<int>, peri: seq<int>, s: int) returns (i: int, j: int)
    requires Ready(m, perm, peri) && 0 <= s < m.Nnz()
    ensures 0 <= i < m.n && InCol(m, i, j) && InverseAt(perm, peri, i) && Slot(m, perm, peri, i, j) == s
  {
    OutEnd(m, perm, peri);
    var c := OutColumn(m, perm, peri, s, m.n);
    i := peri[c];
    assert InverseAt(peri, perm, c) && InverseAt(perm, peri, i);
    j := m.Lo(i) + s - OutLo(m, peri, c);
    assert OutLo(m, peri, c + 1) == OutLo(m, peri, c) + Len(m, i);
  }

  lemma SlotsDiffer(m: Pattern, perm: seq<int>, peri: seq<int>, i: int, j: int, k: int, l: int)
    requires Ready(m, perm, peri) && 0 <= i < m.n && InCol(m, i, j) && 0 <= k < m.n && InCol(m, k, l) && j != l
    ensures InverseAt(perm, peri, i) && InverseAt(perm, peri, k)
    ensures Slot(m, perm, peri, i, j) != Slot(m, perm, peri, k, l)
  {
    SlotInRange(m, perm, peri, i, j);
    SlotInRange(m, perm, peri, k, l);
    if Slot(m, perm, peri, i, j) == Slot(m, perm, peri, k, l) {
      OneOutColumn(m, perm, peri, perm[i], perm[k], Slot(m, perm, peri, i, j));
    }
  }

  // ----- permute_z_Matrix -----

  /** Where entry j of column i is written: its place, or what the cached table says of it. */
  function Place(m: Pattern, perm: seq<int>, peri: seq<int>, sorttab: seq<int>, i: int, j: int): int
    requires 0 <= i < |m.colptr| - 1 && i < |perm| && 0 <= perm[i] <= |peri|
  {
    var s := Slot(m, perm, peri, i, j);
    if 0 <= s < |sorttab| then sorttab[s] else s
  }

  /** The row and value of entry j of column i are at its place. */
  ghost predicate Placed<T(!new)>(m: Pattern, perm: seq<int>, peri: seq<int>, sorttab: seq<int>, values: seq<T>,
                                  rows: seq<int>, vals: seq<T>, i: int, j: int)
    requires Ready(m, perm, peri) && |rows| == |vals| == |values| == m.Nnz() && 0 <= i < m.n && InCol(m, i, j)
  {
    assert ColOk(m, i) && RowOk(m, j);
    assert InverseAt(perm, peri, i) && InverseAt(perm, peri, m.Row(j));
    var t := Place(m, perm, peri, sorttab, i, j);
    0 <= t < m.Nnz() && rows[t] == perm[m.Row(j)] + 1 && vals[t] == values[j]
  }

  ghost predicate PlacedBefore<T(!new)>(m: Pattern, perm: seq<int>, peri: seq<int>, sorttab: seq<int>, values: seq<T>,
                                        rows: seq<int>, vals: seq<T>, e: int)
  {
    && Ready(m, perm, peri) && |rows| == |vals| == |values| == m.Nnz()
    && forall i, j :: 0 <= i < m.n && InCol(m, i, j) && j < e ==>
          Placed(m, perm, peri, sorttab, values, rows, vals, i, j)
  }

  /** No table (before the first sort), or a permutation of the places. */
  predicate TableOk(m: Pattern, sorttab: seq<int>) {
    sorttab == [] || (|sorttab| == m.Nnz() && IsPermutation(sorttab))
  }

  lemma PlacesDiffer(m: Pattern, perm: seq<int>, peri: seq<int>, sorttab: seq<int>, i: int, j: int, k: int, l: int)
    requires Ready(m, perm, peri) && TableOk(m, sorttab)
    requires 0 <= i < m.n && InCol(m, i, j) && 0 <= k < m.n && InCol(m, k, l) && j != l
    ensures InverseAt(perm, peri, i) && InverseAt(perm, peri, k)
    ensures 0 <= Place(m, perm, peri, sorttab, i, j) < m.Nnz()
    ensures Place(m, perm, peri, sorttab, i, j) != Place(m, perm, peri, sorttab, k, l)
  {
    SlotInRange(m, perm, peri, i, j);
    SlotInRange(m, perm, peri, k, l);
    SlotsDiffer(m, perm, peri, i, j, k, l);
  }

  predicate PointerAt(m: Pattern, peri: seq<int>, colptrOut: seq<int>, c: int)
    requires 0 <= c <= |peri| && c < |colptrOut|
  {
    colptrOut[c] == OutLo(m, peri, c) + 1
  }
  /** The first pointers, up to that of column k. */
  ghost predicate PointersOk(m: Pattern, peri: seq<int>, colptrOut: seq<int>, k: int) {
    |colptrOut| == |peri| + 1 && k <= |peri| && forall c :: 0 <= c <= k ==> PointerAt(m, peri, colptrOut, c)
  }

  lemma PointersNext(m: Pattern, peri: seq<int>, colptrOut: seq<int>, i: int)
    requires 0 <= i < |peri| && PointersOk(m, peri, colptrOut, i) && 0 <= peri[i] < |m.colptr| - 1
    ensures PointersOk(m, peri, colptrOut[i + 1 := colptrOut[i] + m.colptr[peri[i] + 1] - m.colptr[peri[i]]], i + 1)
  {
    var next := colptrOut[i + 1 := colptrOut[i] + m.colptr[peri[i] + 1] - m.colptr[peri[i]]];
    assert PointerAt(m, peri, colptrOut, i);
    forall c | 0 <= c <= i + 1 ensures PointerAt(m, peri, next, c) {
      if c <= i { assert PointerAt(m, peri, colptrOut, c); }
    }
  }

  /** Starts of the new columns. */
  method OutPointers(m: Pattern, perm: seq<int>, peri: seq<int>) returns (colptrOut: array<int>)
    requires Ready(m, perm, peri)
    ensures fresh(colptrOut) && colptrOut.Length == m.n + 1
    ensures PointersOk(m, peri, colptrOut[..], m.n)
  {
    colptrOut := new int[m.n + 1];
    colptrOut[0] := 1;
    var i := 0;
    while i < m.n
      invariant 0 <= i <= m.n && PointersOk(m, peri, colptrOut[..], i)
    {
      assert InverseAt(peri, perm, i) && PointerAt(m, peri, colptrOut[..], i);
      PointersNext(m, peri, colptrOut[..], i);
      colptrOut[i + 1] := colptrOut[i] + m.colptr[peri[i] + 1] - m.colptr[peri[i]];
      i := i + 1;
    }
  }

  method Permute<T(!new)>(m: Pattern, perm: seq<int>, peri: seq<int>, values: seq<T>, sorttab: seq<int>,
                          rows: array<int>, vals: array<T>)
    returns (colptrOut: array<int>)
    requires Ready(m, perm, peri) && TableOk(m, sorttab) && |values| == m.Nnz() == rows.Length == vals.Length
             && (rows as object) != vals
    modifies rows, vals
    ensures PlacedBefore(m, perm, peri, sorttab, values, rows[..], vals[..], m.Nnz())
    ensures fresh(colptrOut) && colptrOut.Length == m.n + 1 && PointersOk(m, peri, colptrOut[..], m.n)
  {
    colptrOut := OutPointers(m, perm, peri);
    NothingPlaced(m, perm, peri, sorttab, values, rows[..], vals[..]);
    var i := 0;
    while i < m.n
      invariant 0 <= i <= m.n && 0 <= m.Lo(i)
                && PlacedBefore(m, perm, peri, sorttab, values, rows[..], vals[..], m.Lo(i))
      invariant fresh(colptrOut) && PointersOk(m, peri, colptrOut[..], m.n)
    {
      PermuteColumn(m, perm, peri, values, sorttab, rows, vals, colptrOut, i);
      i := i + 1;
    }
  }

  lemma NothingPlaced<T(!new)>(m: Pattern, perm: seq<int>, peri: seq<int>, sorttab: seq<int>, values: seq<T>,
                               rows: seq<int>, vals: seq<T>)
    requires Ready(m, perm, peri) && |rows| == |vals| == |values| == m.Nnz()
    ensures PlacedBefore(m, perm, peri, sorttab, values, rows, vals, 0)
  {
    forall i, j | 0 <= i < m.n && InCol(m, i, j) ensures j >= 0 { assert ColOk(m, i); }
  }

  method PermuteColumn<T(!new)>(m: Pattern, perm: seq<int>, peri: seq<int>, values: seq<T>, sorttab: seq<int>,
                                rows: array<int>, vals: array<T>, colptrOut: array<int>, i: int)
    requires Ready(m, perm, peri) && TableOk(m, sorttab) && |values| == m.Nnz() == rows.Length == vals.Length
             && (rows as object) != vals
    requires rows != colptrOut && (colptrOut as object) != vals && colptrOut.Length == m.n + 1 && 0 <= i < m.n
    requires PointersOk(m, peri, colptrOut[..], m.n)
    requires 0 <= m.Lo(i) && PlacedBefore(m, perm, peri, sorttab, values, rows[..], vals[..], m.Lo(i))
    modifies rows, vals
    ensures 0 <= m.Lo(i + 1) && PlacedBefore(m, perm, peri, sorttab, values, rows[..], vals[..], m.Lo(i + 1))
  {
    assert ColOk(m, i) && InverseAt(perm, peri, i) && PointerAt(m, peri, colptrOut[..], perm[i]);
    var j := m.colptr[i] - 1;
    while j < m.colptr[i + 1] - 1
      invariant m.Lo(i) <= j <= m.Lo(i + 1) && PlacedBefore(m, perm, peri, sorttab, values, rows[..], vals[..], j)
    {
      var target := colptrOut[perm[i]] - 1 + j - m.colptr[i] + 1;
      SlotInRange(m, perm, peri, i, j);
      if sorttab != [] { target := sorttab[target]; }
      PlaceEntry(m, perm, peri, values, sorttab, rows, vals, i, j, target);
      j := j + 1;
    }
  }

  method PlaceEntry<T(!new)>(m: Pattern, perm: seq<int>, peri: seq<int>, values: seq<T>, ghost sorttab: seq<int>,
                             rows: array<int>, vals: array<T>, ghost i: int, j: int, target: int)
    requires Ready(m, perm, peri) && TableOk(m, sorttab) && |values| == m.Nnz() == rows.Length == vals.Length
             && (rows as object) != vals
    requires 0 <= i < m.n && InCol(m, i, j) && 0 <= j < m.Nnz() && 0 <= perm[i] <= |peri|
             && target == Place(m, perm, peri, sorttab, i, j)
    requires 0 <= target < m.Nnz() && PlacedBefore(m, perm, peri, sorttab, values, rows[..], vals[..], j)
    modifies rows, vals
    ensures PlacedBefore(m, perm, peri, sorttab, values, rows[..], vals[..], j + 1)
  {
    assert RowOk(m, j);
    assert InverseAt(perm, peri, m.Row(j));
    ghost var r, v := rows[..], vals[..];
    rows[target] := perm[m.rowptr[j] - 1] + 1;
    vals[target] := values[j];
    forall k, l | 0 <= k < m.n && InCol(m, k, l) && l < j + 1
      ensures Placed(m, perm, peri, sorttab, values, rows[..], vals[..], k, l) {
      if l < j {
        assert Placed(m, perm, peri, sorttab, values, r, v, k, l);
        PlacesDiffer(m, perm, peri, sorttab, k, l, i, j);
      } else {
        OneColumn(m, i, k, j);
      }
    }
  }

  // ----- bcsc_zsort -----

  /** A permutation of the places that keeps each new column and sorts its rows. */
  ghost predicate SortsRows(m: Pattern, perm: seq<int>, peri: seq<int>, rows: seq<int>, order: seq<int>) {
    && Ready(m, perm, peri) && |order| == |rows| == m.Nnz() && IsPermutation(order)
    && (forall c, s :: 0 <= c < m.n && InOut(m, peri, c, s) ==> StaysIn(m, peri, order, c, s))
    && (forall c, s, t :: 0 <= c < m.n && InOut(m, peri, c, s) && InOut(m, peri, c, t) && s < t ==>
        InOrder(rows, order, s, t))
  }

  ghost predicate StaysIn(m: Pattern, peri: seq<int>, order: seq<int>, c: int, s: int)
    requires 0 <= c < |peri|
  {
    0 <= s < |order| && InOut(m, peri, c, order[s])
  }

  predicate InOrder(rows: seq<int>, order: seq<int>, s: int, t: int) {
    0 <= s < |order| && 0 <= t < |order| && 0 <= order[s] < |rows| && 0 <= order[t] < |rows|
        && rows[order[s]] <= rows[order[t]]
  }

  /** The direct path with the table of the first call gives what permuting and sorting does,
      whatever the values. */
  lemma FastIsSlow<T(!new)>(m: Pattern, perm: seq<int>, peri: seq<int>, order: seq<int>, sorttab: seq<int>,
                            values: seq<T>, rows: seq<int>, vals: seq<T>, sortedRows: seq<int>, sortedVals: seq<T>,
                            fastRows: seq<int>, fastVals: seq<T>)
    requires PlacedBefore(m, perm, peri, [], values, rows, vals, m.Nnz())
    requires IsPermutation(order) && |order| == m.Nnz() == |sortedRows| == |sortedVals| && Inverse(order, sorttab)
    requires forall k :: 0 <= k < |order| ==> sortedRows[k] == rows[order[k]] && sortedVals[k] == vals[order[k]]
    requires PlacedBefore(m, perm, peri, sorttab, values, fastRows, fastVals, m.Nnz())
    ensures fastRows == sortedRows && fastVals == sortedVals
  {
    forall k | 0 <= k < m.Nnz() ensures fastRows[k] == sortedRows[k] && fastVals[k] == sortedVals[k] {
      var s := order[k];
      var i, j := SlotOf(m, perm, peri, s);
      assert ColOk(m, i) && InverseAt(order, sorttab, k);
      assert Placed(m, perm, peri, [], values, rows, vals, i, j);
      assert Placed(m, perm, peri, sorttab, values, fastRows, fastVals, i, j);
    }
  }

  // ----- Columns of the block structure -----

  /** Last row of the pointers of a block of columns: from the columns counted over the matrix. */
  method Globcol(m: Pattern, perm: seq<int>, ghost peri: seq<int>) returns (globcol: array<int>)
    requires Ready(m, perm, peri)
    ensures fresh(globcol) && globcol.Length == m.n + 1 && forall c :: 0 <= c <= m.n ==> globcol[c] == OutLo(m, peri, c)
  {
    globcol := CountColumns(m, perm, peri);
    var idx, c := 0, 0;
    ghost var counts := globcol[..];
    while c <= m.n
      invariant 0 <= c <= m.n + 1 && (c <= m.n ==> idx == OutLo(m, peri, c))
      invariant forall d :: 0 <= d <= m.n ==> globcol[d] == if d < c then OutLo(m, peri, d) else counts[d]
    {
      var tmp := globcol[c];
      if c < m.n { assert InverseAt(peri, perm, c); }
      globcol[c] := idx;
      idx := idx + tmp;
      c := c + 1;
    }
  }

  method CountColumns(m: Pattern, perm: seq<int>, ghost peri: seq<int>) returns (globcol: array<int>)
    requires Ready(m, perm, peri)
    ensures fresh(globcol) && globcol.Length == m.n + 1
    ensures forall c :: 0 <= c < m.n ==> InverseAt(peri, perm, c) && globcol[c] == Len(m, peri[c])
  {
    globcol := new int[m.n + 1](_ => 0);
    var itercol := 0;
    while itercol < m.n
      invariant 0 <= itercol <= m.n
      invariant forall c :: 0 <= c < m.n ==>
                  InverseAt(peri, perm, c) && globcol[c] == if peri[c] < itercol then Len(m, peri[c]) else 0
    {
      assert InverseAt(perm, peri, itercol) && ColOk(m, itercol);
      var frow, lrow := m.colptr[itercol] - 1, m.colptr[itercol + 1] - 1;
      assert lrow - frow >= 0;
      ghost var before := globcol[..];
      globcol[perm[itercol]] := globcol[perm[itercol]] + (lrow - frow);
      forall c | 0 <= c < m.n ensures InverseAt(peri, perm, c) && globcol[c] == if peri[c] < itercol + 1
          then Len(m, peri[c]) else 0 {
        assert InverseAt(peri, perm, c) && before[c] == if peri[c] < itercol then Len(m, peri[c]) else 0;
      }
      itercol := itercol + 1;
    }
  }
}

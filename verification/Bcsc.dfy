/** The tables that bcsc_init_centralized of bcsc/bcsc.c keeps from one call to the next, for a
    matrix factorized as LU: the first call sorts and predicts, later calls write directly, and
    every call stores the permuted matrix and its transpose. */
module Bcsc {
  import opened Csc
  import opened RowPermutation
  import opened PermuteCsc
  import opened Spmv
  import opened Coltab
  import opened SortRows

  // ----- The permuted pattern -----

  ghost predicate RowsDiffer(m: Pattern, i: int)
    requires ValidPattern(m) && 0 <= i < m.n
  {
    assert ColOk(m, i);
    forall j, k :: m.Lo(i) <= j < k < m.Lo(i + 1) ==> m.Row(j) != m.Row(k)
  }

  /** What the input satisfies: symmetric structure, rows in any order. */
  ghost predicate Symmetric(m: Pattern) {
    && ValidPattern(m) && (forall i :: 0 <= i < m.n ==> RowsDiffer(m, i))
    && (forall i, r :: 0 <= i < m.n && 0 <= r < m.n ==> Mirrored(m, i, r))
  }

  ghost predicate RowPlaced(m: Pattern, perm: seq<int>, peri: seq<int>, sorttab: seq<int>, rows: seq<int>, i: int,
                            j: int)
    requires Ready(m, perm, peri) && |rows| == m.Nnz() && 0 <= i < m.n && InCol(m, i, j)
  {
    assert ColOk(m, i) && RowOk(m, j);
    assert InverseAt(perm, peri, i) && InverseAt(perm, peri, m.Row(j));
    var t := Place(m, perm, peri, sorttab, i, j);
    0 <= t < m.Nnz() && rows[t] == perm[m.Row(j)] + 1
  }

  /** The rows alone, whatever the values. */
  ghost predicate RowsPlaced(m: Pattern, perm: seq<int>, peri: seq<int>, sorttab: seq<int>, rows: seq<int>) {
    && Ready(m, perm, peri) && |rows| == m.Nnz()
    && forall i, j :: 0 <= i < m.n && InCol(m, i, j) ==> RowPlaced(m, perm, peri, sorttab, rows, i, j)
  }

  /** The order sorts the rows as they are placed without a table, whatever the values. */
  ghost predicate Sorts(m: Pattern, perm: seq<int>, peri: seq<int>, order: seq<int>) {
    forall rows :: RowsPlaced(m, perm, peri, [], rows) ==> SortsRows(m, perm, peri, rows, order)
  }

  /** A matrix, its permutation, the order and table of its places, and the result. */
  datatype Conversion<T> = Conversion(m: Pattern, perm: seq<int>, peri: seq<int>, order: seq<int>, sorttab: seq<int>,
                                      values: seq<T>, out: Pattern, vals: seq<T>)

  ghost predicate Stored<T(!new)>(k: Conversion<T>) {
    && Ready(k.m, k.perm, k.peri) && Sorts(k.m, k.perm, k.peri, k.order)
    && |k.order| == k.m.Nnz() && Inverse(k.order, k.sorttab)
    && k.out.n == k.m.n && PointersOk(k.m, k.peri, k.out.colptr, k.m.n)
    && PlacedBefore(k.m, k.perm, k.peri, k.sorttab, k.values, k.out.rowptr, k.vals, k.m.Nnz())
  }

  /** Where entry j of column i is stored. */
  function At<T>(k: Conversion<T>, i: int, j: int): int
    requires 0 <= i < |k.m.colptr| - 1 && i < |k.perm| && 0 <= k.perm[i] <= |k.peri|
  {
    Place(k.m, k.perm, k.peri, k.sorttab, i, j)
  }

  lemma OnlyRows<T(!new)>(m: Pattern, perm: seq<int>, peri: seq<int>, sorttab: seq<int>, values: seq<T>, rows: seq<int>,
                          vals: seq<T>)
    requires PlacedBefore(m, perm, peri, sorttab, values, rows, vals, m.Nnz())
    ensures RowsPlaced(m, perm, peri, sorttab, rows)
  {
    forall i, j | 0 <= i < m.n && InCol(m, i, j) ensures RowPlaced(m, perm, peri, sorttab, rows, i, j) {
      assert ColOk(m, i);
      assert Placed(m, perm, peri, sorttab, values, rows, vals, i, j);
    }
  }

  /** The rows depend on the pattern only: they are the same in every call. */
  lemma RowsAgain(m: Pattern, perm: seq<int>, peri: seq<int>, order: seq<int>, sorttab: seq<int>, rows: seq<int>,
                  again: seq<int>)
    requires RowsPlaced(m, perm, peri, sorttab, rows) && RowsPlaced(m, perm, peri, sorttab, again)
    requires |order| == m.Nnz() && Inverse(order, sorttab)
    ensures rows == again
  {
    forall t | 0 <= t < m.Nnz() ensures rows[t] == again[t] {
      assert InverseAt(order, sorttab, t);
      var i, j := SlotOf(m, perm, peri, order[t]);
      assert RowPlaced(m, perm, peri, sorttab, rows, i, j) && RowPlaced(m, perm, peri, sorttab, again, i, j);
    }
  }

  lemma PointersAgain(m: Pattern, peri: seq<int>, p: seq<int>, q: seq<int>)
    requires PointersOk(m, peri, p, |peri|) && PointersOk(m, peri, q, |peri|)
    ensures p == q
  {
    forall c | 0 <= c <= |peri| ensures p[c] == q[c] { assert PointerAt(m, peri, p, c) && PointerAt(m, peri, q, c); }
  }

  /** The rows before they were sorted. */
  lemma Unsorted<T(!new)>(k: Conversion<T>) returns (r0: seq<int>)
    requires Stored(k)
    ensures SortsRows(k.m, k.perm, k.peri, r0, k.order)
    ensures forall t :: 0 <= t < k.m.Nnz() ==> WasAt(k, r0, t)
  {
    var n := k.m.Nnz();
    forall s | 0 <= s < n ensures 0 <= k.sorttab[s] < n { assert InverseAt(k.sorttab, k.order, s); }
    r0 := seq(n, s requires 0 <= s < n => k.out.rowptr[k.sorttab[s]]);
    UnsortedRows(k, r0);
    forall t | 0 <= t < n ensures WasAt(k, r0, t) { assert InverseAt(k.order, k.sorttab, t); }
  }

  predicate WasAt<T>(k: Conversion<T>, r0: seq<int>, t: int)
    requires 0 <= t < |k.order| && |k.out.rowptr| == |k.order| == |r0|
  {
    0 <= k.order[t] < |r0| && k.out.rowptr[t] == r0[k.order[t]]
  }

  lemma UnsortedRows<T(!new)>(k: Conversion<T>, r0: seq<int>)
    requires Stored(k) && |r0| == k.m.Nnz()
    requires forall s :: 0 <= s < |r0| ==> 0 <= k.sorttab[s] < |r0| && r0[s] == k.out.rowptr[k.sorttab[s]]
    ensures RowsPlaced(k.m, k.perm, k.peri, [], r0)
  {
    forall i, j | 0 <= i < k.m.n && InCol(k.m, i, j) ensures RowPlaced(k.m, k.perm, k.peri, [], r0, i, j) {
      SlotInRange(k.m, k.perm, k.peri, i, j);
      assert ColOk(k.m, i);
      assert Placed(k.m, k.perm, k.peri, k.sorttab, k.values, k.out.rowptr, k.vals, i, j);
    }
  }

  lemma StartOf(m: Pattern, peri: seq<int>, out: Pattern, c: int)
    requires |peri| == m.n && PointersOk(m, peri, out.colptr, m.n) && 0 <= c <= m.n
    ensures out.Lo(c) == OutLo(m, peri, c)
  {
    assert PointerAt(m, peri, out.colptr, c);
  }

  /** The entry of a place of the permuted matrix. */
  lemma EntryOf<T(!new)>(k: Conversion<T>, t: int) returns (i: int, j: int)
    requires Stored(k) && 0 <= t < k.m.Nnz()
    ensures 0 <= i < k.m.n && InverseAt(k.perm, k.peri, i) && t == At(k, i, j)
    ensures k.order[t] == Slot(k.m, k.perm, k.peri, i, j) && IsCopy(k, i, j, t)
  {
    assert InverseAt(k.order, k.sorttab, t);
    i, j := SlotOf(k.m, k.perm, k.peri, k.order[t]);
    assert ColOk(k.m, i);
    assert RowOk(k.m, j);
    assert InverseAt(k.perm, k.peri, k.m.Row(j));
    assert Placed(k.m, k.perm, k.peri, k.sorttab, k.values, k.out.rowptr, k.vals, i, j);
  }

  /** Place t of the result holds entry j of column i, in its new row. */
  ghost predicate IsCopy<T(!new)>(k: Conversion<T>, i: int, j: int, t: int)
    requires Stored(k) && 0 <= i < k.m.n
  {
    && InCol(k.m, i, j) && 0 <= j < k.m.Nnz() && RowOk(k.m, j) && InverseAt(k.perm, k.peri, k.m.Row(j))
    && 0 <= t < k.m.Nnz() && k.out.Row(t) == k.perm[k.m.Row(j)] && k.vals[t] == k.values[j]
  }

  lemma StoredIsValid<T(!new)>(k: Conversion<T>)
    requires Stored(k)
    ensures ValidPattern(k.out) && k.out.Nnz() == k.m.Nnz()
  {
    OutEnd(k.m, k.perm, k.peri);
    StartOf(k.m, k.peri, k.out, 0);
    StartOf(k.m, k.peri, k.out, k.m.n);
    forall c | 0 <= c < k.m.n ensures ColOk(k.out, c) { StoredCol(k, c, c + 1); }
    forall t | 0 <= t < k.out.Nnz() ensures RowOk(k.out, t) { var i, j := EntryOf(k, t); }
  }

  lemma StoredCol<T(!new)>(k: Conversion<T>, c: int, next: int)
    requires Stored(k) && 0 <= c < next == c + 1 <= k.m.n
    ensures ColOk(k.out, c)
  {
    OutEnd(k.m, k.perm, k.peri);
    StartOf(k.m, k.peri, k.out, c);
    StartOf(k.m, k.peri, k.out, next);
    OutGrows(k.m, k.perm, k.peri, 0, c);
    OutGrows(k.m, k.perm, k.peri, c, next);
    OutGrows(k.m, k.perm, k.peri, next, k.m.n);
  }

  /** Sorting keeps the columns and puts the rows of each in order. */
  lemma StaysInColumn<T(!new)>(k: Conversion<T>, c: int, t: int)
    requires Stored(k) && 0 <= c < k.m.n && InOut(k.m, k.peri, c, t)
    ensures StaysIn(k.m, k.peri, k.order, c, t)
  {
    var r0 := Unsorted(k);
  }

  lemma InRowOrder<T(!new)>(k: Conversion<T>, c: int, s: int, t: int)
    requires Stored(k) && 0 <= c < k.m.n && InOut(k.m, k.peri, c, s) && InOut(k.m, k.peri, c, t) && s < t
    ensures 0 <= s < t < k.m.Nnz() && k.out.rowptr[s] <= k.out.rowptr[t]
  {
    var r0 := Unsorted(k);
    assert InOrder(r0, k.order, s, t) && WasAt(k, r0, s) && WasAt(k, r0, t);
  }

  predicate InStored<T>(k: Conversion<T>, c: int, t: int)
    requires 0 <= c < |k.out.colptr| - 1
  {
    InCol(k.out, c, t)
  }

  lemma StoredColumn<T(!new)>(k: Conversion<T>, c: int, next: int, t: int)
    requires Stored(k) && 0 <= c < next == c + 1 <= k.m.n
    ensures InStored(k, c, t) <==> InOut(k.m, k.peri, c, t)
  {
    StartOf(k.m, k.peri, k.out, c);
    StartOf(k.m, k.peri, k.out, next);
  }

  /** An entry of column c of the permuted matrix comes from the column that moved to c. */
  lemma EntryOut<T(!new)>(k: Conversion<T>, c: int, t: int) returns (j: int)
    requires Stored(k) && 0 <= c < k.m.n && InStored(k, c, t)
    ensures InverseAt(k.peri, k.perm, c) && InverseAt(k.perm, k.peri, k.peri[c])
    ensures IsCopy(k, k.peri[c], j, t) && t == At(k, k.peri[c], j)
  {
    StoredColumn(k, c, c + 1, t);
    StaysInColumn(k, c, t);
    var i;
    i, j := EntryOf(k, t);
    SlotInRange(k.m, k.perm, k.peri, i, j);
    OneOutColumn(k.m, k.perm, k.peri, c, k.perm[i], k.order[t]);
    assert InverseAt(k.peri, k.perm, c);
  }

  lemma PlaceColumn<T(!new)>(k: Conversion<T>, i: int, j: int)
    requires Stored(k) && 0 <= i < k.m.n && InCol(k.m, i, j)
    ensures InverseAt(k.perm, k.peri, i) && InOut(k.m, k.peri, k.perm[i], At(k, i, j))
  {
    SlotInRange(k.m, k.perm, k.peri, i, j);
    var s, t := Slot(k.m, k.perm, k.peri, i, j), At(k, i, j);
    assert InverseAt(k.sorttab, k.order, s);
    OutEnd(k.m, k.perm, k.peri);
    var c := OutColumn(k.m, k.perm, k.peri, t, k.m.n);
    StaysInColumn(k, c, t);
    OneOutColumn(k.m, k.perm, k.peri, c, k.perm[i], s);
  }

  /** Entry j of column i is in column perm[i] of the permuted matrix. */
  lemma EntryIn<T(!new)>(k: Conversion<T>, i: int, j: int) returns (t: int)
    requires Stored(k) && 0 <= i < k.m.n && InCol(k.m, i, j)
    ensures InverseAt(k.perm, k.peri, i) && InStored(k, k.perm[i], t)
    ensures IsCopy(k, i, j, t) && t == At(k, i, j)
  {
    PlaceColumn(k, i, j);
    t := At(k, i, j);
    StoredColumn(k, k.perm[i], k.perm[i] + 1, t);
    assert ColOk(k.m, i) && RowOk(k.m, j) && InverseAt(k.perm, k.peri, k.m.Row(j));
    assert Placed(k.m, k.perm, k.peri, k.sorttab, k.values, k.out.rowptr, k.vals, i, j);
  }

  /** Two places of a column come from different rows, in order. */
  lemma StoredSorted<T(!new)>(k: Conversion<T>, c: int, s: int, t: int)
    requires Stored(k) && Symmetric(k.m) && 0 <= c < k.m.n && InStored(k, c, s) && InStored(k, c, t) && s < t
    ensures 0 <= s < t < k.out.Nnz() && k.out.Row(s) < k.out.Row(t)
  {
    StoredColumn(k, c, c + 1, s);
    StoredColumn(k, c, c + 1, t);
    InRowOrder(k, c, s, t);
    var j := EntryOut(k, c, s);
    var l := EntryOut(k, c, t);
    SameRow(k, k.peri[c], j, l, s, t);
  }

  lemma SameRow<T(!new)>(k: Conversion<T>, i: int, j: int, l: int, s: int, t: int)
    requires Stored(k) && Symmetric(k.m) && 0 <= i < k.m.n && IsCopy(k, i, j, s) && IsCopy(k, i, l, t) && j != l
    ensures k.out.Row(s) != k.out.Row(t)
  {
    assert RowsDiffer(k.m, i) && ColOk(k.m, i);
  }

  lemma StoredHas<T(!new)>(k: Conversion<T>, c: int, r: int)
    requires Stored(k) && ValidPattern(k.out) && Symmetric(k.m) && 0 <= c < k.m.n && 0 <= r < k.m.n && Has(k.out, c, r)
    ensures Has(k.out, r, c)
  {
    var t :| IsEntry(k.out, c, r, t);
    var j := EntryOut(k, c, t);
    var i, x := k.peri[c], k.m.Row(j);
    assert IsEntry(k.m, i, x, j) && Mirrored(k.m, i, x);
    var l :| IsEntry(k.m, x, i, l);
    var u := EntryIn(k, x, l);
    assert ColOk(k.out, r);
    assert IsEntry(k.out, r, c, u);
  }

  /** Permuting and sorting leaves a symmetric structure with sorted columns, as the transposition
      requires. */
  lemma StoredIsSymmetric<T(!new)>(k: Conversion<T>)
    requires Stored(k) && Symmetric(k.m)
    ensures SymmetricPattern(k.out) && k.out.Nnz() == k.m.Nnz()
  {
    StoredIsValid(k);
    forall c | 0 <= c < k.out.n ensures SortedCol(k.out, c) {
      assert ColOk(k.out, c);
      forall s, t | k.out.Lo(c) <= s < t < k.out.Lo(c + 1) ensures k.out.Row(s) < k.out.Row(t) {
        assert InStored(k, c, s) && InStored(k, c, t);
        StoredSorted(k, c, s, t);
      }
    }
    forall c, r | 0 <= c < k.out.n && 0 <= r < k.out.n ensures Mirrored(k.out, c, r) {
      if Has(k.out, c, r) { StoredHas(k, c, r); }
      if Has(k.out, r, c) { StoredHas(k, r, c); }
    }
  }

  // ----- The calls -----

  class Storage {
    var cscftab: bool
    var coltabs: seq<seq<int>>
    var colptrPERM: seq<int>
    var rowptrPERM: seq<int>
    var sorttab: array?<int>
    var rowPrediction: array?<int>
    var rowtab: seq<int>
    var lvalues: seq<real>
    var uvalues: seq<real>
    /** The order that the sort of the first call found. */
    ghost var order: seq<int>

    ghost function Tables(): set<object?>
      reads this
    {
      {sorttab as object?, rowPrediction as object?}
    }

    function Out(n: int): Pattern
      reads this
    {
      Pattern(n, colptrPERM, rowptrPERM)
    }

    /** What the tables of earlier calls are, for the pattern of the matrix. */
    ghost predicate Valid(m: Pattern, perm: seq<int>, peri: seq<int>, blocks: seq<Block>)
      reads this, Tables()
    {
      && Ready(m, perm, peri) && Tiling(blocks, m.n) && (sorttab == null <==> rowPrediction == null)
      && (cscftab ==> AllStarts(m, peri, blocks, coltabs)) && TablesOk(m, perm, peri)
    }

    ghost predicate TablesOk(m: Pattern, perm: seq<int>, peri: seq<int>)
      reads this, Tables()
    {
      && (sorttab != null ==> TableIsOrder(m, perm, peri, order, sorttab[..]))
      && (sorttab != null && rowPrediction != null ==>
            Repeats(m, perm, peri, sorttab[..], Out(m.n), rowPrediction[..]))
    }

    constructor (m: Pattern, perm: seq<int>, peri: seq<int>, blocks: seq<Block>)
      requires Ready(m, perm, peri) && Tiling(blocks, m.n)
      ensures Valid(m, perm, peri, blocks) && sorttab == null
    {
      cscftab, coltabs := false, [];
      colptrPERM, rowptrPERM, rowtab, lvalues, uvalues := [], [], [], [], [];
      sorttab, rowPrediction := null, null;
    }

    /** The result of the permutation, in the arrays of the call. */
    ghost function Call(m: Pattern, perm: seq<int>, peri: seq<int>, values: seq<real>, rows: array<int>,
                        buffer: array<real>): Conversion<real>
      requires sorttab != null
      reads this, sorttab, rows, buffer
    {
      Conversion(m, perm, peri, order, sorttab[..], values, Pattern(m.n, colptrPERM, rows[..]), buffer[..])
    }

    /** The call to permute_z_Matrix, and to bcsc_zsort when no table exists. */
    method PermuteRows(m: Pattern, perm: seq<int>, peri: seq<int>, blocks: seq<Block>, values: seq<real>,
                       rows: array<int>, buffer: array<real>)
      requires Ready(m, perm, peri) && Tiling(blocks, m.n) && AllStarts(m, peri, blocks, coltabs)
      requires sorttab != null ==> TableIsOrder(m, perm, peri, order, sorttab[..])
      requires |values| == m.Nnz() == rows.Length == buffer.Length && (rows as object) != buffer
      requires rows != sorttab && (buffer as object) !in Tables()
      modifies this`sorttab, this`order, this`colptrPERM, rows, buffer
      ensures sorttab != null && Stored(Call(m, perm, peri, values, rows, buffer))
      ensures if old(sorttab) == null then fresh(sorttab)
              else sorttab == old(sorttab) && order == old(order) && sorttab[..] == old(sorttab[..])
    {
      if sorttab == null {
        PermuteAndSort(m, perm, peri, blocks, values, rows, buffer);
      } else {
        PermuteAgain(m, perm, peri, values, rows, buffer);
      }
    }

    /** A later call writes to the places of the table. */
    method PermuteAgain(m: Pattern, perm: seq<int>, peri: seq<int>, values: seq<real>, rows: array<int>,
                        buffer: array<real>)
      requires Ready(m, perm, peri) && sorttab != null && TableIsOrder(m, perm, peri, order, sorttab[..])
      requires |values| == m.Nnz() == rows.Length == buffer.Length && (rows as object) != buffer
      requires rows != sorttab && (buffer as object) !in Tables()
      modifies this`colptrPERM, rows, buffer
      ensures Stored(Call(m, perm, peri, values, rows, buffer)) && sorttab[..] == old(sorttab[..])
    {
      InverseIsPermutation(order, sorttab[..]);
      var colptr := Permute(m, perm, peri, values, sorttab[..], rows, buffer);
      colptrPERM := colptr[..];
    }

    /** The first call sorts and makes the table. */
    method PermuteAndSort(m: Pattern, perm: seq<int>, peri: seq<int>, blocks: seq<Block>, values: seq<real>,
                          rows: array<int>, buffer: array<real>)
      requires Ready(m, perm, peri) && Tiling(blocks, m.n) && AllStarts(m, peri, blocks, coltabs)
      requires |values| == m.Nnz() == rows.Length == buffer.Length && (rows as object) != buffer
      modifies this`sorttab, this`order, this`colptrPERM, rows, buffer
      ensures sorttab != null && fresh(sorttab) && Stored(Call(m, perm, peri, values, rows, buffer))
    {
      var colptr := Permute(m, perm, peri, values, [], rows, buffer);
      colptrPERM := colptr[..];
      ghost var r0, v0 := rows[..], buffer[..];
      var table;
      table, order := Zsort(m, perm, peri, blocks, coltabs, rows, buffer);
      OrderSorts(m, perm, peri, order, values, r0, v0);
      SortedIsPlaced(m, perm, peri, order, table[..], values, r0, v0, rows[..], buffer[..]);
      sorttab := table;
    }

    /** One call, the first or a later one: the permuted matrix in lvalues, its transpose in
        uvalues. The values of the caller are overwritten. */
    method Init(m: Pattern, perm: seq<int>, peri: seq<int>, blocks: seq<Block>, values: array<real>)
      requires Valid(m, perm, peri, blocks) && Symmetric(m) && values.Length == m.Nnz()
               && (values as object) !in Tables()
      modifies this, values
      ensures Valid(m, perm, peri, blocks) && sorttab != null && rowPrediction != null
      ensures if old(sorttab) == null then fresh(Tables()) else Tables() == old(Tables())
      ensures cscftab && AllColumns(blocks, Out(m.n), coltabs)
      ensures Stored(Conversion(m, perm, peri, order, sorttab[..], old(values[..]), Out(m.n), lvalues))
      ensures IsTransposed(Out(m.n), lvalues, uvalues, m.Nnz()) && values[..] == uvalues
      ensures |rowtab| == m.Nnz() && forall t :: 0 <= t < m.Nnz() ==> rowtab[t] == rowptrPERM[t] - 1
    {
      if !cscftab {
        var valuesize;
        coltabs, valuesize := CentralizedColtab(m, perm, peri, blocks);
        cscftab := true;
      }
      Fill(m, perm, peri, blocks, values);
      StartsAgree(m, peri, blocks, coltabs, Out(m.n));
    }

    /** The rest of the call, once the blocks have their columns. */
    method Fill(m: Pattern, perm: seq<int>, peri: seq<int>, blocks: seq<Block>, values: array<real>)
      requires Ready(m, perm, peri) && Tiling(blocks, m.n) && AllStarts(m, peri, blocks, coltabs)
      requires TablesOk(m, perm, peri) && (sorttab == null <==> rowPrediction == null)
      requires Symmetric(m) && values.Length == m.Nnz() && (values as object) !in Tables()
      modifies this`sorttab, this`order, this`colptrPERM, this`rowptrPERM, this`rowPrediction, this`rowtab,
               this`lvalues, this`uvalues, values
      ensures TablesOk(m, perm, peri) && sorttab != null && rowPrediction != null
      ensures if old(sorttab) == null then fresh(Tables()) else Tables() == old(Tables())
      ensures Stored(Conversion(m, perm, peri, order, sorttab[..], old(values[..]), Out(m.n), lvalues))
      ensures IsTransposed(Out(m.n), lvalues, uvalues, m.Nnz()) && values[..] == uvalues
      ensures |rowtab| == m.Nnz() && forall t :: 0 <= t < m.Nnz() ==> rowtab[t] == rowptrPERM[t] - 1
    {
      StoreRows(m, perm, peri, blocks, values[..]);
      ghost var k := Conversion(m, perm, peri, order, sorttab[..], values[..], Out(m.n), lvalues);
      StoredIsSymmetric(k);
      rowPrediction := Transpose(Out(m.n), rowPrediction, lvalues, values);
      StoredRepeats(k, rowPrediction[..]);
      uvalues := values[..];
      rowtab := seq(m.Nnz(), t requires 0 <= t < m.Nnz() == |rowptrPERM| reads this => rowptrPERM[t] - 1);
    }

    /** Stores the permuted matrix; the rows are those of earlier calls, if any. */
    method StoreRows(m: Pattern, perm: seq<int>, peri: seq<int>, blocks: seq<Block>, values: seq<real>)
      requires Ready(m, perm, peri) && Tiling(blocks, m.n) && AllStarts(m, peri, blocks, coltabs)
      requires TablesOk(m, perm, peri) && (sorttab == null <==> rowPrediction == null) && |values| == m.Nnz()
      modifies this`sorttab, this`order, this`colptrPERM, this`rowptrPERM, this`lvalues
      ensures sorttab != null && (if old(sorttab) == null then fresh(sorttab) else sorttab == old(sorttab))
      ensures Stored(Conversion(m, perm, peri, order, sorttab[..], values, Out(m.n), lvalues))
      ensures rowPrediction != null ==> Predicted(Out(m.n), rowPrediction[..], m.Nnz())
    {
      var rows := new int[m.Nnz()];
      var buffer := new real[m.Nnz()];
      ghost var before := Out(m.n);
      PermuteRows(m, perm, peri, blocks, values, rows, buffer);
      ghost var k := Call(m, perm, peri, values, rows, buffer);
      rowptrPERM := rows[..];
      lvalues := buffer[..];
      assert k == Conversion(m, perm, peri, order, sorttab[..], values, Out(m.n), lvalues);
      if rowPrediction != null { SameOut(k, before, rowPrediction[..]); }
    }
  }

  /** The table is the inverse of an order that sorts the rows. */
  ghost predicate TableIsOrder(m: Pattern, perm: seq<int>, peri: seq<int>, order: seq<int>, sorttab: seq<int>) {
    Ready(m, perm, peri) && Sorts(m, perm, peri, order) && |order| == m.Nnz() && Inverse(order, sorttab)
  }

  /** The pointers, rows and prediction of an earlier call, which a later one finds again. */
  ghost predicate Repeats(m: Pattern, perm: seq<int>, peri: seq<int>, sorttab: seq<int>, out: Pattern, pred: seq<int>) {
    && Ready(m, perm, peri) && out.n == m.n && PointersOk(m, peri, out.colptr, m.n)
    && RowsPlaced(m, perm, peri, sorttab, out.rowptr) && Predicted(out, pred, m.Nnz())
  }

  lemma StoredRepeats<T(!new)>(k: Conversion<T>, pred: seq<int>)
    requires Stored(k) && Predicted(k.out, pred, k.m.Nnz())
    ensures TableIsOrder(k.m, k.perm, k.peri, k.order, k.sorttab)
    ensures Repeats(k.m, k.perm, k.peri, k.sorttab, k.out, pred)
  {
    OnlyRows(k.m, k.perm, k.peri, k.sorttab, k.values, k.out.rowptr, k.vals);
  }

  /** A later call on the pattern stores the same pointers and rows. */
  lemma SameOut<T(!new)>(k: Conversion<T>, before: Pattern, pred: seq<int>)
    requires Stored(k) && Repeats(k.m, k.perm, k.peri, k.sorttab, before, pred)
    ensures k.out == before && Predicted(k.out, pred, k.m.Nnz())
  {
    OnlyRows(k.m, k.perm, k.peri, k.sorttab, k.values, k.out.rowptr, k.vals);
    RowsAgain(k.m, k.perm, k.peri, k.order, k.sorttab, before.rowptr, k.out.rowptr);
    PointersAgain(k.m, k.peri, before.colptr, k.out.colptr);
  }

  /** Without a table every place is that of an entry: the rows are determined. */
  lemma UnsortedAgain(m: Pattern, perm: seq<int>, peri: seq<int>, rows: seq<int>, again: seq<int>)
    requires RowsPlaced(m, perm, peri, [], rows) && RowsPlaced(m, perm, peri, [], again)
    ensures rows == again
  {
    forall t | 0 <= t < m.Nnz() ensures rows[t] == again[t] {
      var i, j := SlotOf(m, perm, peri, t);
      assert RowPlaced(m, perm, peri, [], rows, i, j) && RowPlaced(m, perm, peri, [], again, i, j);
    }
  }

  /** The order found for the rows of one call is right for every call. */
  lemma OrderSorts<T(!new)>(m: Pattern, perm: seq<int>, peri: seq<int>, order: seq<int>, values: seq<T>,
                            rows: seq<int>, vals: seq<T>)
    requires SortsRows(m, perm, peri, rows, order) && PlacedBefore(m, perm, peri, [], values, rows, vals, m.Nnz())
    ensures Sorts(m, perm, peri, order)
  {
    OnlyRows(m, perm, peri, [], values, rows, vals);
    forall again | RowsPlaced(m, perm, peri, [], again) ensures SortsRows(m, perm, peri, again, order) {
      UnsortedAgain(m, perm, peri, rows, again);
    }
  }

  lemma InverseIsPermutation(p: seq<int>, q: seq<int>)
    requires Inverse(p, q)
    ensures IsPermutation(q)
  {
    forall x | 0 <= x < |q| ensures 0 <= q[x] < |q| { assert InverseAt(q, p, x); }
    forall x, y | 0 <= x < |q| && 0 <= y < |q| && x != y ensures q[x] != q[y] {
      assert InverseAt(q, p, x) && InverseAt(q, p, y);
    }
  }

  /** Gathering in the order of the sort puts every entry where its table says. */
  lemma SortedIsPlaced<T(!new)>(m: Pattern, perm: seq<int>, peri: seq<int>, order: seq<int>, sorttab: seq<int>,
                                values: seq<T>, r0: seq<int>, v0: seq<T>, rows: seq<int>, vals: seq<T>)
    requires PlacedBefore(m, perm, peri, [], values, r0, v0, m.Nnz()) && Inverse(order, sorttab)
    requires Gathered(r0, rows, order) && Gathered(v0, vals, order)
    ensures PlacedBefore(m, perm, peri, sorttab, values, rows, vals, m.Nnz())
  {
    forall i, j | 0 <= i < m.n && InCol(m, i, j) && j < m.Nnz()
      ensures Placed(m, perm, peri, sorttab, values, rows, vals, i, j) {
      SlotInRange(m, perm, peri, i, j);
      assert InverseAt(sorttab, order, Slot(m, perm, peri, i, j));
      assert ColOk(m, i);
      assert Placed(m, perm, peri, [], values, r0, v0, i, j);
    }
  }
}

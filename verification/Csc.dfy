/** Compressed columns as the analysis of bcsc/bcsc_zinit.c receives them, numbered from 1, and
    transpose_z_Matrix: on a structurally symmetric pattern with sorted columns, the values of
    the transposed matrix are a permutation of the values. */
module Csc {

  /** Column i holds entries colptr[i] - 1 .. colptr[i + 1] - 2; rowptr gives their rows. */
  datatype Pattern = Pattern(n: int, colptr: seq<int>, rowptr: seq<int>) {
    function Lo(i: int): int requires 0 <= i < |colptr| { colptr[i] - 1 }
    function Nnz(): int { |rowptr| }
    function Row(j: int): int requires 0 <= j < |rowptr| { rowptr[j] - 1 }
  }

  predicate ColOk(m: Pattern, i: int)
    requires 0 <= i < |m.colptr| - 1
  {
    0 <= m.Lo(i) <= m.Lo(i + 1) <= m.Nnz()
  }

  predicate RowOk(m: Pattern, j: int)
    requires 0 <= j < m.Nnz()
  {
    0 <= m.Row(j) < m.n
  }

  ghost predicate ValidPattern(m: Pattern) {
    && 0 <= m.n && |m.colptr| == m.n + 1 && m.colptr[0] == 1 && m.Lo(m.n) == m.Nnz()
    && (forall i :: 0 <= i < m.n ==> ColOk(m, i)) && (forall j :: 0 <= j < m.Nnz() ==> RowOk(m, j))
  }

  /** Entry j is in column i. */
  predicate InCol(m: Pattern, i: int, j: int)
    requires 0 <= i < |m.colptr| - 1
  {
    m.Lo(i) <= j < m.Lo(i + 1)
  }

  ghost predicate SortedCol(m: Pattern, i: int)
    requires ValidPattern(m) && 0 <= i < m.n
  {
    assert ColOk(m, i);
    forall j, k :: m.Lo(i) <= j < k < m.Lo(i + 1) ==> m.Row(j) < m.Row(k)
  }

  ghost predicate IsEntry(m: Pattern, i: int, r: int, j: int)
    requires ValidPattern(m) && 0 <= i < m.n
  {
    assert ColOk(m, i);
    InCol(m, i, j) && m.Row(j) == r
  }

  ghost predicate Has(m: Pattern, i: int, r: int)
    requires ValidPattern(m) && 0 <= i < m.n
  {
    exists j :: IsEntry(m, i, r, j)
  }

  ghost predicate Mirrored(m: Pattern, i: int, r: int)
    requires ValidPattern(m) && 0 <= i < m.n && 0 <= r < m.n
  {
    Has(m, i, r) <==> Has(m, r, i)
  }

  /** Sorted columns, and an entry (r, i) for each entry (i, r). */
  ghost predicate SymmetricPattern(m: Pattern) {
    && ValidPattern(m) && (forall i :: 0 <= i < m.n ==> SortedCol(m, i))
    && (forall i, r :: 0 <= i < m.n && 0 <= r < m.n ==> Mirrored(m, i, r))
  }

  lemma {:induction false} ColumnsFollow(m: Pattern, i: int, k: int)
    requires ValidPattern(m) && 0 <= i <= k <= m.n
    ensures 0 <= m.Lo(i) <= m.Lo(k) <= m.Nnz()
    decreases k
  {
    if i < k {
      assert ColOk(m, k - 1);
      ColumnsFollow(m, i, k - 1);
    } else if i < m.n {
      assert ColOk(m, i);
    }
  }

  /** The column of an entry. */
  lemma {:induction false} ColumnOf(m: Pattern, j: int, k: int) returns (i: int)
    requires ValidPattern(m) && 0 <= k <= m.n && 0 <= j < m.Lo(k)
    ensures 0 <= i < k && InCol(m, i, j) && j < m.Nnz()
    decreases k
  {
    assert ColOk(m, k - 1);
    if j < m.Lo(k - 1) { i := ColumnOf(m, j, k - 1); } else { i := k - 1; }
  }

  /** An entry is in one column only. */
  lemma OneColumn(m: Pattern, i: int, k: int, j: int)
    requires ValidPattern(m) && 0 <= i < m.n && 0 <= k < m.n && InCol(m, i, j) && InCol(m, k, j)
    ensures i == k
  {
    if i < k { ColumnsFollow(m, i + 1, k); } else if k < i { ColumnsFollow(m, k + 1, i); }
  }

  // ----- Ranks -----

  /** Entries of row r before j: what temp counts. */
  function CountRow(m: Pattern, r: int, j: int): (c: int)
    requires 0 <= j <= m.Nnz()
    ensures 0 <= c <= j
    decreases j
  {
    if j == 0 then 0 else CountRow(m, r, j - 1) + if m.Row(j - 1) == r then 1 else 0
  }

  /** Columns before i that have row r. */
  ghost function CountCols(m: Pattern, r: int, i: int): int
    requires ValidPattern(m) && 0 <= i <= m.n
    decreases i
  {
    if i == 0 then 0 else CountCols(m, r, i - 1) + if Has(m, i - 1, r) then 1 else 0
  }

  /** Entries of column r before k whose row is before i. */
  function Below(m: Pattern, r: int, i: int, k: int): int
    requires 0 <= r < |m.colptr| - 1 && 0 <= m.Lo(r) <= k <= m.Nnz()
    decreases k - m.Lo(r)
  {
    if k == m.Lo(r) then 0 else Below(m, r, i, k - 1) + if m.Row(k - 1) < i then 1 else 0
  }

  lemma {:induction false} CountRowInCol(m: Pattern, r: int, i: int, j: int)
    requires ValidPattern(m) && 0 <= i < m.n && SortedCol(m, i) && ColOk(m, i) && m.Lo(i) <= j <= m.Lo(i + 1)
    requires forall x :: m.Lo(i) <= x < j ==> m.Row(x) != r
    ensures CountRow(m, r, j) == CountRow(m, r, m.Lo(i))
    decreases j
  {
    if j > m.Lo(i) { CountRowInCol(m, r, i, j - 1); }
  }

  lemma {:induction false} CountRowAfter(m: Pattern, r: int, i: int, j: int, k: int)
    requires ValidPattern(m) && 0 <= i < m.n && ColOk(m, i) && m.Lo(i) <= j <= k <= m.Lo(i + 1)
    requires forall x :: j <= x < k ==> m.Row(x) != r
    ensures CountRow(m, r, k) == CountRow(m, r, j)
    decreases k
  {
    if j < k { CountRowAfter(m, r, i, j, k - 1); }
  }

  /** A whole column counts once for each of its rows. */
  lemma CountColumn(m: Pattern, r: int, i: int)
    requires ValidPattern(m) && 0 <= i < m.n && SortedCol(m, i)
    ensures ColOk(m, i)
    ensures CountRow(m, r, m.Lo(i + 1)) == CountRow(m, r, m.Lo(i)) + if Has(m, i, r) then 1 else 0
  {
    assert ColOk(m, i);
    if Has(m, i, r) {
      var j :| IsEntry(m, i, r, j);
      CountRowInCol(m, r, i, j);
      CountRowAfter(m, r, i, j + 1, m.Lo(i + 1));
    } else {
      forall x | m.Lo(i) <= x < m.Lo(i + 1) ensures m.Row(x) != r { assert !IsEntry(m, i, r, x); }
      CountRowInCol(m, r, i, m.Lo(i + 1));
    }
  }

  lemma {:induction false} CountRowIsCols(m: Pattern, r: int, i: int)
    requires SymmetricPattern(m) && 0 <= i <= m.n
    ensures 0 <= m.Lo(i) <= m.Nnz() && CountRow(m, r, m.Lo(i)) == CountCols(m, r, i)
    decreases i
  {
    ColumnsFollow(m, i, m.n);
    if i > 0 {
      assert SortedCol(m, i - 1);
      CountRowIsCols(m, r, i - 1);
      CountColumn(m, r, i - 1);
    }
  }

  /** In a sorted column the rows before that of position k are the ones before k. */
  lemma {:induction false} BelowAt(m: Pattern, r: int, k: int, e: int)
    requires ValidPattern(m) && 0 <= r < m.n && SortedCol(m, r) && ColOk(m, r) && InCol(m, r, k)
             && m.Lo(r) <= e <= m.Lo(r + 1)
    ensures Below(m, r, m.Row(k), e) == if e <= k then e - m.Lo(r) else k - m.Lo(r)
    decreases e
  {
    if e > m.Lo(r) { BelowAt(m, r, k, e - 1); }
  }

  /** One more row adds one exactly when the column has it. */
  lemma {:induction false} BelowNext(m: Pattern, r: int, i: int, e: int)
    requires ValidPattern(m) && 0 <= r < m.n && SortedCol(m, r) && ColOk(m, r) && m.Lo(r) <= e <= m.Lo(r + 1)
    ensures Below(m, r, i + 1, e) == Below(m, r, i, e) + if exists k :: IsEntry(m, r, i, k) && k < e then 1 else 0
    decreases e
  {
    if e > m.Lo(r) {
      BelowNext(m, r, i, e - 1);
      if m.Row(e - 1) == i {
        assert IsEntry(m, r, i, e - 1);
        assert !(exists k :: IsEntry(m, r, i, k) && k < e - 1);
      }
    }
  }

  lemma {:induction false} BelowNone(m: Pattern, r: int, e: int)
    requires ValidPattern(m) && 0 <= r < m.n && ColOk(m, r) && m.Lo(r) <= e <= m.Lo(r + 1)
    ensures Below(m, r, 0, e) == 0
    decreases e
  {
    if e > m.Lo(r) {
      assert RowOk(m, e - 1);
      BelowNone(m, r, e - 1);
    }
  }

  lemma {:induction false} ColsAreBelow(m: Pattern, r: int, i: int)
    requires SymmetricPattern(m) && 0 <= r < m.n && 0 <= i <= m.n
    ensures ColOk(m, r) && CountCols(m, r, i) == Below(m, r, i, m.Lo(r + 1))
    decreases i
  {
    assert ColOk(m, r) && SortedCol(m, r);
    if i == 0 {
      BelowNone(m, r, m.Lo(r + 1));
    } else {
      ColsAreBelow(m, r, i - 1);
      BelowNext(m, r, i - 1, m.Lo(r + 1));
      assert Mirrored(m, i - 1, r);
    }
  }

  /** Where the value of entry j goes. */
  function Target(m: Pattern, j: int): int
    requires 0 <= j < m.Nnz() && 0 <= m.Row(j) < |m.colptr|
  {
    m.Lo(m.Row(j)) + CountRow(m, m.Row(j), j)
  }

  /** The value of (r, i) goes to the slot of (i, r). */
  lemma TargetSlot(m: Pattern, i: int, j: int)
    requires SymmetricPattern(m) && 0 <= i < m.n && InCol(m, i, j)
    ensures 0 <= j < m.Nnz() && RowOk(m, j) && IsEntry(m, m.Row(j), i, Target(m, j))
  {
    assert ColOk(m, i) && SortedCol(m, i) && RowOk(m, j);
    var r := m.Row(j);
    CountRowInCol(m, r, i, j);
    CountRowIsCols(m, r, i);
    ColsAreBelow(m, r, i);
    assert IsEntry(m, i, r, j) && Mirrored(m, i, r);
    var k :| IsEntry(m, r, i, k);
    assert SortedCol(m, r);
    BelowAt(m, r, k, m.Lo(r + 1));
  }

  /** The targets are an involution of the entries, so that no two of them collide. */
  lemma TargetTwice(m: Pattern, j: int)
    requires SymmetricPattern(m) && 0 <= j < m.Nnz()
    ensures RowOk(m, j) && 0 <= Target(m, j) < m.Nnz() && RowOk(m, Target(m, j)) && Target(m, Target(m, j)) == j
  {
    var i := ColumnOf(m, j, m.n);
    TargetSlot(m, i, j);
    var r, k := m.Row(j), Target(m, j);
    assert ColOk(m, r);
    TargetSlot(m, r, k);
    assert IsEntry(m, i, r, Target(m, k)) && IsEntry(m, i, r, j) && SortedCol(m, i);
  }

  // ----- transpose_z_Matrix -----

  /** The prediction of an entry is its rank among those of its row. */
  ghost predicate Predicted(m: Pattern, pred: seq<int>, j: int) {
    0 <= j <= m.Nnz() && |pred| == m.Nnz() && forall x :: 0 <= x < j ==> pred[x] == CountRow(m, m.Row(x), x)
  }

  /** temp counts the entries of each row before j. */
  ghost predicate Tallied(m: Pattern, temp: seq<int>, j: int) {
    0 <= j <= m.Nnz() && |temp| == m.n && forall r :: 0 <= r < m.n ==> temp[r] == CountRow(m, r, j)
  }

  method RowPrediction(m: Pattern) returns (pred: array<int>)
    requires ValidPattern(m)
    ensures fresh(pred) && Predicted(m, pred[..], m.Nnz())
  {
    var temp := new int[m.n](_ => 0);
    pred := new int[m.Nnz()];
    var i := 0;
    while i < m.n
      invariant 0 <= i <= m.n && fresh(temp) && fresh(pred) && temp != pred
      invariant 0 <= m.Lo(i) && Predicted(m, pred[..], m.Lo(i)) && Tallied(m, temp[..], m.Lo(i))
    {
      PredictColumn(m, temp, pred, i);
      i := i + 1;
    }
  }

  method PredictColumn(m: Pattern, temp: array<int>, pred: array<int>, i: int)
    requires ValidPattern(m) && temp != pred && 0 <= i < m.n && 0 <= m.Lo(i)
    requires Predicted(m, pred[..], m.Lo(i)) && Tallied(m, temp[..], m.Lo(i))
    modifies temp, pred
    ensures 0 <= m.Lo(i + 1) && Predicted(m, pred[..], m.Lo(i + 1)) && Tallied(m, temp[..], m.Lo(i + 1))
  {
    assert ColOk(m, i);
    var j := m.colptr[i] - 1;
    while j < m.colptr[i + 1] - 1
      invariant m.Lo(i) <= j <= m.Lo(i + 1)
      invariant Predicted(m, pred[..], j) && Tallied(m, temp[..], j)
    {
      PredictEntry(m, temp, pred, j);
      j := j + 1;
    }
  }

  method PredictEntry(m: Pattern, temp: array<int>, pred: array<int>, j: int)
    requires ValidPattern(m) && temp != pred && 0 <= j < m.Nnz() && Predicted(m, pred[..], j) && Tallied(m, temp[..], j)
    modifies temp, pred
    ensures Predicted(m, pred[..], j + 1) && Tallied(m, temp[..], j + 1)
  {
    assert RowOk(m, j);
    ghost var next := j + 1;
    pred[j] := temp[m.rowptr[j] - 1];
    temp[m.rowptr[j] - 1] := temp[m.rowptr[j] - 1] + 1;
    forall r | 0 <= r < m.n ensures temp[r] == CountRow(m, r, next) { }
  }

  /** The values of the transposed matrix, entry by entry. */
  ghost predicate IsTransposed<T(!new)>(m: Pattern, valuesIn: seq<T>, valuesOut: seq<T>, j: int) {
    && 0 <= j <= m.Nnz() == |valuesIn| == |valuesOut|
    && forall x :: 0 <= x < j ==> MovedTo(m, valuesIn, valuesOut, x)
  }

  ghost predicate MovedTo<T(!new)>(m: Pattern, valuesIn: seq<T>, valuesOut: seq<T>, x: int)
    requires 0 <= x < m.Nnz() == |valuesIn| == |valuesOut|
  {
    RowOk(m, x) && 0 <= m.Row(x) < |m.colptr| && 0 <= Target(m, x) < m.Nnz() && valuesOut[Target(m, x)] == valuesIn[x]
  }

  /** transpose_z_Matrix, with the prediction of an earlier call on the same pattern or a new
      one. The writes of the loop, which the source makes in parallel, go to different places. */
  method Transpose<T(!new)>(m: Pattern, cached: array?<int>, valuesIn: seq<T>, valuesOut: array<T>)
    returns (pred: array<int>)
    requires SymmetricPattern(m) && |valuesIn| == m.Nnz() == valuesOut.Length
    requires cached != null ==> Predicted(m, cached[..], m.Nnz()) && (cached as object) != valuesOut
    modifies valuesOut
    ensures Predicted(m, pred[..], m.Nnz()) && if cached == null then fresh(pred) else pred == cached
    ensures IsTransposed(m, valuesIn, valuesOut[..], m.Nnz())
  {
    if cached == null { pred := RowPrediction(m); } else { pred := cached; }
    var i := 0;
    while i < m.n
      invariant 0 <= i <= m.n && 0 <= m.Lo(i) <= m.Nnz() && IsTransposed(m, valuesIn, valuesOut[..], m.Lo(i))
      invariant Predicted(m, pred[..], m.Nnz())
    {
      assert ColOk(m, i);
      var j := m.colptr[i] - 1;
      while j < m.colptr[i + 1] - 1
        invariant m.Lo(i) <= j <= m.Lo(i + 1) && IsTransposed(m, valuesIn, valuesOut[..], j)
        invariant Predicted(m, pred[..], m.Nnz())
      {
        MoveValue(m, pred, valuesIn, valuesOut, i, j);
        j := j + 1;
      }
      i := i + 1;
    }
  }

  method MoveValue<T(!new)>(m: Pattern, pred: array<int>, valuesIn: seq<T>, valuesOut: array<T>, ghost i: int, j: int)
    requires SymmetricPattern(m) && 0 <= i < m.n && InCol(m, i, j) && 0 <= j < m.Nnz()
    requires (pred as object) != valuesOut && Predicted(m, pred[..], m.Nnz())
             && IsTransposed(m, valuesIn, valuesOut[..], j)
    modifies valuesOut
    ensures IsTransposed(m, valuesIn, valuesOut[..], j + 1)
  {
    TargetTwice(m, j);
    ghost var before := valuesOut[..];
    assert pred[..][j] == CountRow(m, m.Row(j), j);
    var target := m.colptr[m.rowptr[j] - 1] - 1 + pred[j];
    assert target == Target(m, j);
    valuesOut[target] := valuesIn[j];
    forall x | 0 <= x < j + 1 ensures MovedTo(m, valuesIn, valuesOut[..], x) {
      if x < j {
        assert MovedTo(m, valuesIn, before, x);
        TargetTwice(m, x);
      }
    }
  }

  /** Transposing twice gives the values back. */
  lemma TransposedTwice<T(!new)>(m: Pattern, a: seq<T>, b: seq<T>, c: seq<T>)
    requires SymmetricPattern(m) && IsTransposed(m, a, b, m.Nnz()) && IsTransposed(m, b, c, m.Nnz())
    ensures c == a
  {
    forall j | 0 <= j < |a| ensures c[j] == a[j] {
      TargetTwice(m, j);
      assert MovedTo(m, a, b, j) && MovedTo(m, b, c, Target(m, j));
    }
  }
}

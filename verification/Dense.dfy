/** The matrix that is stored by columns as a table of coefficients, and its product by a vector. */
module Dense {
  import opened Csc
  import opened Spmv

  /** Coefficient of row r and column c, from the entries before j. */
  ghost function Coef(m: Pattern, a: seq<real>, r: int, c: int, j: int): real
    requires ValidPattern(m) && |a| == m.Nnz() && 0 <= j <= m.Nnz()
    decreases j
  {
    if j == 0 then 0.0
    else Coef(m, a, r, c, j - 1) + if m.Row(j - 1) == r && Col(m, j - 1) == c then a[j - 1] else 0.0
  }

  /** Sum over the columns before n of coefficient times component. */
  ghost function DenseDot(m: Pattern, a: seq<real>, x: seq<real>, r: int, j: int, n: int): real
    requires ValidPattern(m) && |a| == m.Nnz() && |x| == m.n && 0 <= j <= m.Nnz() && 0 <= n <= m.n
    decreases n
  {
    if n == 0 then 0.0 else DenseDot(m, a, x, r, j, n - 1) + Coef(m, a, r, n - 1, j) * x[n - 1]
  }

  /** y is alpha A x + beta y0, in coefficients. */
  ghost predicate IsDenseProduct(m: Pattern, alpha: real, a: seq<real>, x: seq<real>, beta: real, y0: seq<real>,
                                 y: seq<real>)
    requires ValidPattern(m) && |a| == m.Nnz() && |x| == m.n == |y0|
  {
    |y| == m.n && forall r :: 0 <= r < m.n ==> y[r] == alpha * DenseDot(m, a, x, r, m.Nnz(), m.n) + beta * y0[r]
  }

  lemma {:induction false} DenseNone(m: Pattern, a: seq<real>, x: seq<real>, r: int, n: int)
    requires ValidPattern(m) && |a| == m.Nnz() && |x| == m.n && 0 <= n <= m.n
    ensures DenseDot(m, a, x, r, 0, n) == 0.0
    decreases n
  {
    if n > 0 { DenseNone(m, a, x, r, n - 1); }
  }

  /** Entry k adds its value times the component of its column. */
  lemma {:induction false} DenseNext(m: Pattern, a: seq<real>, x: seq<real>, r: int, k: int, j: int, n: int)
    requires ValidPattern(m) && |a| == m.Nnz() && |x| == m.n && 0 <= k < j == k + 1 <= m.Nnz() && 0 <= n <= m.n
    ensures DenseDot(m, a, x, r, j, n)
            == DenseDot(m, a, x, r, k, n) + if m.Row(k) == r && Col(m, k) < n then a[k] * x[Col(m, k)] else 0.0
    decreases n
  {
    if n > 0 {
      DenseNext(m, a, x, r, k, j, n - 1);
      Spread(Coef(m, a, r, n - 1, k), a[k], x[n - 1]);
    }
  }

  lemma Spread(a: real, b: real, x: real)
    ensures (a + b) * x == a * x + b * x
  {
  }

  /** What entry k adds to row r. */
  ghost function AddedBy(m: Pattern, a: seq<real>, x: seq<real>, r: int, k: int): real
    requires ValidPattern(m) && |a| == m.Nnz() && |x| == m.n && 0 <= k < m.Nnz()
  {
    if m.Row(k) == r then a[k] * x[Col(m, k)] else 0.0
  }

  lemma ScaleStep(alpha: real, row: real, next: real, dense: real, more: real, t: real)
    requires row == alpha * dense && next == row + alpha * t && more == dense + t
    ensures next == alpha * more
  {
    assert alpha * (dense + t) == alpha * dense + alpha * t;
  }

  lemma ScaleTerm(alpha: real, a: real, x: real)
    ensures alpha * (a * x) == alpha * a * x
  {
  }

  lemma RowNext(m: Pattern, alpha: real, a: seq<real>, x: seq<real>, r: int, k: int, j: int)
    requires ValidPattern(m) && |a| == m.Nnz() && |x| == m.n && 0 <= k < j == k + 1 <= m.Nnz()
    ensures RowDot(m, alpha, a, x, r, j) == RowDot(m, alpha, a, x, r, k) + alpha * AddedBy(m, a, x, r, k)
  {
    ScaleTerm(alpha, a[k], x[Col(m, k)]);
  }

  lemma DenseAll(m: Pattern, a: seq<real>, x: seq<real>, r: int, k: int, j: int)
    requires ValidPattern(m) && |a| == m.Nnz() && |x| == m.n && 0 <= k < j == k + 1 <= m.Nnz()
    ensures DenseDot(m, a, x, r, j, m.n) == DenseDot(m, a, x, r, k, m.n) + AddedBy(m, a, x, r, k)
  {
    DenseNext(m, a, x, r, k, j, m.n);
  }

  /** Sums that grow by alpha times the same terms. */
  predicate Grows(alpha: real, rows: seq<real>, dense: seq<real>, terms: seq<real>, k: int)
    requires 0 <= k < |terms| && |rows| == |dense| == |terms| + 1
  {
    rows[k + 1] == rows[k] + alpha * terms[k] && dense[k + 1] == dense[k] + terms[k]
  }

  lemma {:induction false} GrowTogether(alpha: real, rows: seq<real>, dense: seq<real>, terms: seq<real>, n: int)
    requires |rows| == |dense| == |terms| + 1 && 0 <= n <= |terms| && rows[0] == 0.0 == dense[0]
    requires forall k :: 0 <= k < |terms| ==> Grows(alpha, rows, dense, terms, k)
    ensures rows[n] == alpha * dense[n]
    decreases n
  {
    if n > 0 {
      GrowTogether(alpha, rows, dense, terms, n - 1);
      assert Grows(alpha, rows, dense, terms, n - 1);
      ScaleStep(alpha, rows[n - 1], rows[n], dense[n - 1], dense[n], terms[n - 1]);
    }
  }

  lemma GrowsAt(m: Pattern, alpha: real, a: seq<real>, x: seq<real>, r: int, rows: seq<real>, dense: seq<real>,
                terms: seq<real>, k: int, next: int)
    requires ValidPattern(m) && |a| == m.Nnz() && |x| == m.n && 0 <= k < next == k + 1 <= m.Nnz() == |terms|
    requires |rows| == |dense| == m.Nnz() + 1 && terms[k] == AddedBy(m, a, x, r, k)
    requires rows[k] == RowDot(m, alpha, a, x, r, k) && rows[next] == RowDot(m, alpha, a, x, r, next)
    requires dense[k] == DenseDot(m, a, x, r, k, m.n) && dense[next] == DenseDot(m, a, x, r, next, m.n)
    ensures Grows(alpha, rows, dense, terms, k)
  {
    RowNext(m, alpha, a, x, r, k, next);
    DenseAll(m, a, x, r, k, next);
  }

  /** The sum over the entries of a row is alpha times the sum over the columns. */
  lemma RowIsDense(m: Pattern, alpha: real, a: seq<real>, x: seq<real>, r: int)
    requires ValidPattern(m) && |a| == m.Nnz() && |x| == m.n
    ensures RowDot(m, alpha, a, x, r, m.Nnz()) == alpha * DenseDot(m, a, x, r, m.Nnz(), m.n)
  {
    var n := m.Nnz();
    var rows := seq(n + 1, j requires 0 <= j <= n => RowDot(m, alpha, a, x, r, j));
    var dense := seq(n + 1, j requires 0 <= j <= n => DenseDot(m, a, x, r, j, m.n));
    var terms := seq(n, k requires 0 <= k < n => AddedBy(m, a, x, r, k));
    DenseNone(m, a, x, r, m.n);
    forall k | 0 <= k < n ensures Grows(alpha, rows, dense, terms, k) {
      GrowsAt(m, alpha, a, x, r, rows, dense, terms, k, k + 1);
    }
    GrowTogether(alpha, rows, dense, terms, n);
  }

  lemma ProductIsDense(m: Pattern, alpha: real, a: seq<real>, x: seq<real>, beta: real, y0: seq<real>, y: seq<real>)
    requires ValidPattern(m) && |a| == m.Nnz() && |x| == m.n == |y0| && IsProduct(m, alpha, a, x, beta, y0, y)
    ensures IsDenseProduct(m, alpha, a, x, beta, y0, y)
  {
    forall r | 0 <= r < m.n ensures y[r] == alpha * DenseDot(m, a, x, r, m.Nnz(), m.n) + beta * y0[r] {
      RowIsDense(m, alpha, a, x, r);
    }
  }
}

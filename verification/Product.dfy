/** The product with the stored matrix, in its new numbering, is the product with the matrix of
    the caller: bcsc/bcsc.c, bcsc/bcsc_zspmv.c and bcsc/bvec_zcompute.c together. */
module Product {
  import opened Csc
  import opened RowPermutation
  import opened PermuteCsc
  import opened Bcsc
  import Dense
  import opened Spmv
  import Shares

  // ----- Sums in another order -----

  lemma {:induction false} SumChanged(f: seq<real>, i: int, v: real)
    requires 0 <= i < |f|
    ensures Shares.Sum(f[i := v]) == Shares.Sum(f) - f[i] + v
  {
    var last := |f| - 1;
    if i < last {
      SumChanged(f[..last], i, v);
      assert f[i := v][..last] == f[..last][i := v];
    } else {
      assert f[i := v][..last] == f[..last];
    }
  }

  /** Term j of a is term p[j] of b. */
  ghost predicate Moved(p: seq<int>, a: seq<real>, b: seq<real>) {
    |a| == |b| == |p| && IsPermutation(p) && forall j :: 0 <= j < |p| ==> b[p[j]] == a[j]
  }

  function Exchange<T>(s: seq<T>, y: int, l: int): (e: seq<T>)
    requires 0 <= y < |s| && 0 <= l < |s|
    ensures |e| == |s| && e[y] == s[l] && e[l] == s[y] && forall x :: 0 <= x < |s| && x != y && x != l ==> e[x] == s[x]
  {
    s[y := s[l]][l := s[y]]
  }

  lemma SumExchanged(a: seq<real>, y: int, l: int)
    requires 0 <= y < |a| && 0 <= l < |a|
    ensures Shares.Sum(Exchange(a, y, l)) == Shares.Sum(a)
  {
    SumChanged(a, y, a[l]);
    SumChanged(a[y := a[l]], l, a[y]);
  }

  lemma MovedExchanged(p: seq<int>, a: seq<real>, b: seq<real>, y: int, l: int)
    requires Moved(p, a, b) && 0 <= y < |p| && 0 <= l < |p|
    ensures Moved(Exchange(p, y, l), Exchange(a, y, l), b)
  {
    var q := Exchange(p, y, l);
    forall i, j | 0 <= i < |q| && 0 <= j < |q| && i != j ensures q[i] != q[j] {
      var u, v := if i == y then l else if i == l then y else i, if j == y then l else if j == l then y else j;
      assert q[i] == p[u] && q[j] == p[v] && u != v;
    }
  }

  lemma {:induction false} SumMoved(p: seq<int>, a: seq<real>, b: seq<real>)
    requires Moved(p, a, b)
    ensures Shares.Sum(a) == Shares.Sum(b)
    decreases |p|
  {
    if |p| > 0 {
      var last := |p| - 1;
      var y := Reached(p, |p|, last);
      var q, c := Exchange(p, y, last), Exchange(a, y, last);
      SumExchanged(a, y, last);
      MovedExchanged(p, a, b, y, last);
      MovedPrefix(q, c, b, last);
      SumMoved(q[..last], c[..last], b[..last]);
    }
  }

  lemma MovedPrefix(q: seq<int>, c: seq<real>, b: seq<real>, last: int)
    requires Moved(q, c, b) && 0 <= last == |q| - 1 && q[last] == last
    ensures Moved(q[..last], c[..last], b[..last])
  {
    forall x | 0 <= x < last ensures 0 <= q[x] < last {
      assert 0 <= q[x] < |q| && q[x] != q[last];
    }
    forall j | 0 <= j < last ensures b[..last][q[..last][j]] == c[..last][j] { assert b[q[j]] == c[j]; }
  }

  // ----- Rows of the product -----

  ghost function RowTerm(m: Pattern, alpha: real, a: seq<real>, x: seq<real>, r: int, j: int): real
    requires ValidPattern(m) && |a| == m.Nnz() && |x| == m.n && 0 <= j < m.Nnz()
  {
    if m.Row(j) == r then Term(alpha, a, x, j, Col(m, j)) else 0.0
  }

  ghost function RowTerms(m: Pattern, alpha: real, a: seq<real>, x: seq<real>, r: int, k: int): (f: seq<real>)
    requires ValidPattern(m) && |a| == m.Nnz() && |x| == m.n && 0 <= k <= m.Nnz()
    ensures |f| == k && forall j :: 0 <= j < k ==> f[j] == RowTerm(m, alpha, a, x, r, j)
  {
    seq(k, j requires 0 <= j < k => RowTerm(m, alpha, a, x, r, j))
  }

  lemma {:induction false} RowDotIsSum(m: Pattern, alpha: real, a: seq<real>, x: seq<real>, r: int, k: int)
    requires ValidPattern(m) && |a| == m.Nnz() && |x| == m.n && 0 <= k <= m.Nnz()
    ensures RowDot(m, alpha, a, x, r, k) == Shares.Sum(RowTerms(m, alpha, a, x, r, k))
    decreases k
  {
    if k > 0 {
      RowDotIsSum(m, alpha, a, x, r, k - 1);
      assert RowTerms(m, alpha, a, x, r, k)[..k - 1] == RowTerms(m, alpha, a, x, r, k - 1);
    }
  }

  /** Where the entries of the matrix are stored. */
  ghost function Places(k: Conversion<real>): (p: seq<int>)
    requires Stored(k)
    ensures |p| == k.m.Nnz()
    ensures forall j :: 0 <= j < k.m.Nnz() ==>
              InverseAt(k.perm, k.peri, Col(k.m, j)) && p[j] == At(k, Col(k.m, j), j)
  {
    seq(k.m.Nnz(),
        j requires 0 <= j < k.m.Nnz() => assert InverseAt(k.perm, k.peri, Col(k.m, j)); At(k, Col(k.m, j), j))
  }

  lemma PlacesPermute(k: Conversion<real>)
    requires Stored(k)
    ensures IsPermutation(Places(k))
  {
    InverseIsPermutation(k.order, k.sorttab);
    var p := Places(k);
    forall j | 0 <= j < |p| ensures 0 <= p[j] < |p| { var t := EntryIn(k, Col(k.m, j), j); }
    forall j, l | 0 <= j < |p| && 0 <= l < |p| && j != l ensures p[j] != p[l] {
      PlacesDiffer(k.m, k.perm, k.peri, k.sorttab, Col(k.m, j), j, Col(k.m, l), l);
    }
  }

  lemma TermMoves(k: Conversion<real>, alpha: real, x: seq<real>, y: seq<real>, r: int, j: int)
    requires Stored(k) && ValidPattern(k.out) && k.out.Nnz() == k.m.Nnz() && RowPermutation.MovedTo(k.perm, x, y)
    requires 0 <= r < k.m.n && 0 <= j < k.m.Nnz()
    ensures 0 <= Places(k)[j] < k.m.Nnz()
    ensures RowTerm(k.out, alpha, k.vals, y, k.perm[r], Places(k)[j]) == RowTerm(k.m, alpha, k.values, x, r, j)
  {
    var c := Col(k.m, j);
    var t := EntryIn(k, c, j);
    assert InverseAt(k.perm, k.peri, c) && InverseAt(k.perm, k.peri, r);
    OneColumn(k.out, k.perm[c], Col(k.out, t), t);
  }

  /** Row perm[r] of the stored matrix times the moved vector is row r of the matrix times the
      vector. */
  lemma RowMoves(k: Conversion<real>, alpha: real, x: seq<real>, y: seq<real>, r: int)
    requires Stored(k) && ValidPattern(k.out) && k.out.Nnz() == k.m.Nnz() && RowPermutation.MovedTo(k.perm, x, y)
             && 0 <= r < k.m.n
    ensures RowDot(k.out, alpha, k.vals, y, k.perm[r], k.m.Nnz()) == RowDot(k.m, alpha, k.values, x, r, k.m.Nnz())
  {
    var nnz := k.m.Nnz();
    var a, b := RowTerms(k.m, alpha, k.values, x, r, nnz), RowTerms(k.out, alpha, k.vals, y, k.perm[r], nnz);
    RowDotIsSum(k.m, alpha, k.values, x, r, nnz);
    RowDotIsSum(k.out, alpha, k.vals, y, k.perm[r], nnz);
    PlacesPermute(k);
    var p := Places(k);
    forall j | 0 <= j < nnz ensures b[p[j]] == a[j] { TermMoves(k, alpha, x, y, r, j); }
    SumMoved(p, a, b);
  }

  /** The product in the new numbering, moved back, is the product with the matrix of the caller. */
  lemma ProductMoves(k: Conversion<real>, alpha: real, beta: real, x: seq<real>, px: seq<real>, y0: seq<real>,
                     py0: seq<real>, py: seq<real>, y: seq<real>)
    requires Stored(k) && ValidPattern(k.out) && k.out.Nnz() == k.m.Nnz()
    requires RowPermutation.MovedTo(k.perm, x, px) && RowPermutation.MovedTo(k.perm, y0, py0)
             && TakenFrom(k.perm, py, y)
    requires IsProduct(k.out, alpha, k.vals, px, beta, py0, py)
    ensures IsProduct(k.m, alpha, k.values, x, beta, y0, y)
  {
    forall r | 0 <= r < k.m.n ensures y[r] == beta * y0[r] + RowDot(k.m, alpha, k.values, x, r, k.m.Nnz()) {
      RowMoves(k, alpha, x, px, r);
    }
  }

  /** Forward by the inverse moves as the permutation says, and backward brings it back. */
  lemma ByInverse(perm: seq<int>, peri: seq<int>, a: seq<real>, b: seq<real>)
    requires Inverse(perm, peri)
    ensures TakenFrom(peri, a, b) ==> RowPermutation.MovedTo(perm, a, b)
    ensures RowPermutation.MovedTo(peri, a, b) ==> TakenFrom(perm, a, b)
  {
    forall x | 0 <= x < |perm| ensures 0 <= perm[x] < |perm| && peri[perm[x]] == x { assert InverseAt(perm, peri, x); }
    forall x | 0 <= x < |perm| ensures 0 <= peri[x] < |perm| && perm[peri[x]] == x { assert InverseAt(peri, perm, x); }
  }

  /** The vectors move forward, the threads multiply by their tasks, the result moves backward. */
  method MultiplyStored(ghost k: Conversion<real>, out: Pattern, uvalues: seq<real>, peritab: array<int>,
                        blocks: seq<Block>, ranks: seq<seq<int>>, alpha: real, x: array<real>, beta: real,
                        y: array<real>)
    requires Stored(k) && k.out == out && SymmetricPattern(out) && out.Nnz() == k.m.Nnz() && peritab[..] == k.peri
    requires IsTransposed(out, k.vals, uvalues, out.Nnz())
    requires Tiling(blocks, out.n) && Shared(ranks, blocks) && x.Length == y.Length == out.n
    requires x != y && (peritab as object) != x && (peritab as object) != y
    modifies peritab, x, y
    ensures peritab[..] == k.peri
    ensures IsProduct(k.m, alpha, k.values, old(x[..]), beta, old(y[..]), y[..])
  {
    ghost var x0, y0 := x[..], y[..];
    InverseIsPermutation(k.perm, k.peri);
    var a1 := Lapmr(true, false, x, peritab);
    ByInverse(k.perm, k.peri, x0, x[..]);
    var a2 := Lapmr(true, false, y, peritab);
    ByInverse(k.perm, k.peri, y0, y[..]);
    ghost var py0 := y[..];
    var g := Args(out, alpha, uvalues, x[..], beta);
    AllRanks(g, blocks, y, ranks);
    ghost var py := y[..];
    ComputedIsProduct(g, k.vals, blocks, py0, py);
    var a3 := Lapmr(true, true, y, peritab);
    ByInverse(k.perm, k.peri, py, y[..]);
    ProductMoves(k, alpha, beta, x0, g.x, y0, py0, py, y[..]);
  }

  /** The calls of a caller, for any matrix of symmetric structure, any numbering of its columns
      and any first or later call: the matrix is stored, then multiplied. */
  method StoreAndMultiply(s: Storage, m: Pattern, perm: seq<int>, peritab: array<int>, values: array<real>,
                          blocks: seq<Block>, ranks: seq<seq<int>>, alpha: real, x: array<real>,
                          beta: real, y: array<real>)
    requires s.Valid(m, perm, peritab[..], blocks) && Symmetric(m) && values.Length == m.Nnz()
    requires Shared(ranks, blocks) && x.Length == y.Length == m.n
    requires {peritab as object, x, y, values} !! s.Tables() && x != y && x != values && y != values
    requires (peritab as object) != x && (peritab as object) != y && (peritab as object) != values
    modifies s, values, peritab, x, y
    ensures peritab[..] == old(peritab[..]) && s.Valid(m, perm, peritab[..], blocks)
    ensures IsProduct(m, alpha, old(values[..]), old(x[..]), beta, old(y[..]), y[..])
    ensures Dense.IsDenseProduct(m, alpha, old(values[..]), old(x[..]), beta, old(y[..]), y[..])
  {
    ghost var v, x0, y0 := values[..], x[..], y[..];
    s.Init(m, perm, peritab[..], blocks, values);
    ghost var k := Conversion(m, perm, peritab[..], s.order, s.sorttab[..], v, s.Out(m.n), s.lvalues);
    StoredIsSymmetric(k);
    MultiplyStored(k, s.Out(m.n), s.uvalues, peritab, blocks, ranks, alpha, x, beta, y);
    Dense.ProductIsDense(m, alpha, v, x0, beta, y0, y[..]);
  }
}

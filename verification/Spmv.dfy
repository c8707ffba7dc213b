/** The matrix-vector products of bcsc/bcsc_zspmv.c for a general matrix that is not transposed:
    through the values of the transposed matrix, column block by column block or task by task,
    and by scattering the values of the matrix itself. All of them compute the same vector. */
module Spmv {
  import opened Csc

  /** The column of entry j. */
  ghost function ColFrom(m: Pattern, j: int, k: int): (i: int)
    requires ValidPattern(m) && 0 <= k <= m.n && 0 <= j < m.Lo(k)
    ensures 0 <= i < k && InCol(m, i, j)
    decreases k
  {
    assert ColOk(m, k - 1);
    if j < m.Lo(k - 1) then ColFrom(m, j, k - 1) else k - 1
  }

  ghost function Col(m: Pattern, j: int): (i: int)
    requires ValidPattern(m) && 0 <= j < m.Nnz()
    ensures 0 <= i < m.n && InCol(m, i, j)
  {
    ColFrom(m, j, m.n)
  }

  /** What entry j adds to a sum, against component c of x. */
  function Term(alpha: real, a: seq<real>, x: seq<real>, j: int, c: int): real
    requires 0 <= j < |a| && 0 <= c < |x|
  {
    alpha * a[j] * x[c]
  }

  /** Sum of alpha a x over the entries of column c before k. */
  ghost function ColDot(m: Pattern, alpha: real, a: seq<real>, x: seq<real>, c: int, k: int): real
    requires ValidPattern(m) && |a| == m.Nnz() && |x| == m.n && 0 <= c < m.n && ColOk(m, c)
             && m.Lo(c) <= k <= m.Lo(c + 1)
    decreases k
  {
    if k == m.Lo(c) then 0.0
    else assert RowOk(m, k - 1); ColDot(m, alpha, a, x, c, k - 1) + Term(alpha, a, x, k - 1, m.Row(k - 1))
  }

  /** Sum of alpha a x over the entries of row r before j: row r of the product. */
  ghost function RowDot(m: Pattern, alpha: real, a: seq<real>, x: seq<real>, r: int, j: int): real
    requires ValidPattern(m) && |a| == m.Nnz() && |x| == m.n && 0 <= j <= m.Nnz()
    decreases j
  {
    if j == 0 then 0.0
    else RowDot(m, alpha, a, x, r, j - 1) + if m.Row(j - 1) == r then Term(alpha, a, x, j - 1, Col(m, j - 1)) else 0.0
  }

  // ----- The transposed values give the rows -----

  lemma {:induction false} BelowAll(m: Pattern, r: int, e: int)
    requires ValidPattern(m) && 0 <= r < m.n && ColOk(m, r) && m.Lo(r) <= e <= m.Lo(r + 1)
    ensures Below(m, r, m.n, e) == e - m.Lo(r)
    decreases e
  {
    if e > m.Lo(r) {
      assert RowOk(m, e - 1);
      BelowAll(m, r, e - 1);
    }
  }

  /** A row has as many entries as the column of the same number. */
  lemma RowAsLong(m: Pattern, r: int)
    requires SymmetricPattern(m) && 0 <= r < m.n
    ensures ColOk(m, r) && CountRow(m, r, m.Nnz()) == m.Lo(r + 1) - m.Lo(r)
  {
    CountRowIsCols(m, r, m.n);
    ColsAreBelow(m, r, m.n);
    BelowAll(m, r, m.Lo(r + 1));
  }

  lemma {:induction false} CountRowGrows(m: Pattern, r: int, j: int, k: int)
    requires 0 <= j <= k <= m.Nnz()
    ensures CountRow(m, r, j) <= CountRow(m, r, k)
    decreases k
  {
    if j < k { CountRowGrows(m, r, j, k - 1); }
  }

  /** Entries of row r come in the order of the entries of column r. */
  lemma {:induction false} RowIsColumn(m: Pattern, alpha: real, l: seq<real>, u: seq<real>, x: seq<real>, r: int,
                                       j: int)
    requires SymmetricPattern(m) && IsTransposed(m, l, u, m.Nnz()) && |x| == m.n && 0 <= r < m.n && 0 <= j <= m.Nnz()
    ensures ColOk(m, r) && m.Lo(r) + CountRow(m, r, j) <= m.Lo(r + 1)
    ensures RowDot(m, alpha, l, x, r, j) == ColDot(m, alpha, u, x, r, m.Lo(r) + CountRow(m, r, j))
    decreases j
  {
    RowAsLong(m, r);
    CountRowGrows(m, r, j, m.Nnz());
    if j > 0 {
      RowIsColumn(m, alpha, l, u, x, r, j - 1);
      if m.Row(j - 1) == r {
        TargetSlot(m, Col(m, j - 1), j - 1);
        assert MovedTo(m, l, u, j - 1);
      }
    }
  }

  /** Through the transposed values or by rows, the sums are the same. */
  lemma ColumnIsRow(m: Pattern, alpha: real, l: seq<real>, u: seq<real>, x: seq<real>, r: int)
    requires SymmetricPattern(m) && IsTransposed(m, l, u, m.Nnz()) && |x| == m.n && 0 <= r < m.n
    ensures ColOk(m, r) && ColDot(m, alpha, u, x, r, m.Lo(r + 1)) == RowDot(m, alpha, l, x, r, m.Nnz())
  {
    RowIsColumn(m, alpha, l, u, x, r, m.Nnz());
    RowAsLong(m, r);
  }

  // ----- Columns of blocks -----

  datatype Block = Block(fcolnum: int, lcolnum: int)

  predicate BlockOk(blocks: seq<Block>, n: int, b: int)
    requires 0 <= b < |blocks|
  {
    && 0 <= blocks[b].fcolnum <= blocks[b].lcolnum < n
    && blocks[b].fcolnum == (if b == 0 then 0 else blocks[b - 1].lcolnum + 1)
  }

  /** The blocks follow one another over all the columns. */
  ghost predicate Tiling(blocks: seq<Block>, n: int) {
    && (forall b :: 0 <= b < |blocks| ==> BlockOk(blocks, n, b))
    && n == if blocks == [] then 0 else blocks[|blocks| - 1].lcolnum + 1
  }

  lemma {:induction false} BlocksIncrease(blocks: seq<Block>, n: int, b: int, d: int)
    requires Tiling(blocks, n) && 0 <= b < d < |blocks|
    ensures blocks[b].lcolnum < blocks[d].fcolnum
    decreases d
  {
    assert BlockOk(blocks, n, d) && BlockOk(blocks, n, d - 1);
    if b < d - 1 { BlocksIncrease(blocks, n, b, d - 1); }
  }

  lemma {:induction false} BlockOf(blocks: seq<Block>, n: int, c: int, k: int) returns (b: int)
    requires Tiling(blocks, n) && 0 <= c && 0 <= k < |blocks| && c <= blocks[k].lcolnum
    ensures 0 <= b <= k && blocks[b].fcolnum <= c <= blocks[b].lcolnum
    decreases k
  {
    assert BlockOk(blocks, n, k);
    if c >= blocks[k].fcolnum { b := k; } else { b := BlockOf(blocks, n, c, k - 1); }
  }

  /** Everything that a product is given. */
  datatype Args = Args(m: Pattern, alpha: real, a: seq<real>, x: seq<real>, beta: real)

  ghost predicate ArgsOk(g: Args) {
    ValidPattern(g.m) && |g.a| == g.m.Nnz() && |g.x| == g.m.n
  }

  /** Entry c of the result, from column c of the values. */
  ghost function Entry(g: Args, y0: seq<real>, c: int): real
    requires ArgsOk(g) && 0 <= c < g.m.n == |y0|
  {
    assert ColOk(g.m, c);
    g.beta * y0[c] + ColDot(g.m, g.alpha, g.a, g.x, c, g.m.Lo(c + 1))
  }

  /** The columns of the blocks in done are computed, and the others are as they were. */
  ghost predicate Computed(g: Args, blocks: seq<Block>, y0: seq<real>, y: seq<real>, done: set<int>)
    requires ArgsOk(g) && |y0| == g.m.n
  {
    |y| == g.m.n && forall b, c :: 0 <= b < |blocks| && 0 <= c < g.m.n && InBlock(blocks, b, c) ==>
          ColumnDone(g, y0, y, done, b, c)
  }
  predicate InBlock(blocks: seq<Block>, b: int, c: int) requires 0 <= b < |blocks| {
    blocks[b].fcolnum <= c <= blocks[b].lcolnum
  }
  ghost predicate ColumnDone(g: Args, y0: seq<real>, y: seq<real>, done: set<int>, b: int, c: int)
    requires ArgsOk(g) && 0 <= c < g.m.n == |y0| == |y|
  {
    y[c] == if b in done then Entry(g, y0, c) else y0[c]
  }

  // ----- The loops -----

  /** __bcsc_zspmv_by, on columns f..l. */
  method By(beta: real, y: array<real>, f: int, l: int)
    requires 0 <= f <= l + 1 <= y.Length
    modifies y
    ensures forall c :: 0 <= c < y.Length ==> y[c] == if f <= c <= l then beta * old(y[c]) else old(y[c])
  {
    var j := f;
    while j <= l
      invariant f <= j <= l + 1
      invariant forall c :: 0 <= c < y.Length ==> y[c] == if f <= c < j then beta * old(y[c]) else old(y[c])
    {
      if beta != 0.0 { y[j] := y[j] * beta; } else { y[j] := 0.0; }
      j := j + 1;
    }
  }

  /** One column: *y += alpha * A[i] * x[row]. */
  method AddColumn(g: Args, y: array<real>, c: int)
    requires ArgsOk(g) && 0 <= c < g.m.n == y.Length && ColOk(g.m, c)
    modifies y
    ensures forall d :: 0 <= d < y.Length ==>
              y[d] == old(y[d]) + if d == c then ColDot(g.m, g.alpha, g.a, g.x, c, g.m.Lo(c + 1)) else 0.0
  {
    var i := g.m.colptr[c] - 1;
    assert ColDot(g.m, g.alpha, g.a, g.x, c, g.m.Lo(c)) == 0.0;
    while i < g.m.colptr[c + 1] - 1
      invariant g.m.Lo(c) <= i <= g.m.Lo(c + 1)
      invariant forall d :: 0 <= d < y.Length ==>
                  y[d] == old(y[d]) + if d == c then ColDot(g.m, g.alpha, g.a, g.x, c, i) else 0.0
    {
      assert RowOk(g.m, i);
      y[c] := y[c] + Term(g.alpha, g.a, g.x, i, g.m.rowptr[i] - 1);
      i := i + 1;
    }
  }

  /** __bcsc_zspmv_Ax, on one block. */
  method Ax(g: Args, y: array<real>, f: int, l: int)
    requires ArgsOk(g) && 0 <= f <= l < g.m.n == y.Length
    modifies y
    ensures forall c :: 0 <= c < y.Length ==> y[c] == if f <= c <= l then Entry(g, old(y[..]), c) else old(y[c])
  {
    ghost var y0 := y[..];
    By(g.beta, y, f, l);
    ghost var y1 := y[..];
    var j := f;
    while j <= l
      invariant f <= j <= l + 1
      invariant forall c :: 0 <= c < y.Length ==> y[c] == if f <= c < j then Entry(g, y0, c) else y1[c]
    {
      assert ColOk(g.m, j);
      ghost var y2 := y[..];
      AddColumn(g, y, j);
      forall c | 0 <= c < y.Length ensures y[c] == if f <= c < j + 1 then Entry(g, y0, c) else y1[c] {
        assert y2[c] == if f <= c < j then Entry(g, y0, c) else y1[c];
      }
      j := j + 1;
    }
  }

  /** One more block is computed. */
  lemma BlockDone(g: Args, blocks: seq<Block>, y0: seq<real>, y: seq<real>, after: seq<real>, done: set<int>, b: int)
    requires ArgsOk(g) && |y0| == g.m.n && Tiling(blocks, g.m.n) && Computed(g, blocks, y0, y, done)
             && 0 <= b < |blocks| && b !in done
    requires |after| == g.m.n && forall c :: 0 <= c < g.m.n ==> after[c] == if InBlock(blocks, b, c) then Entry(g, y, c)
             else y[c]
    ensures Computed(g, blocks, y0, after, done + {b})
  {
    forall d, c | 0 <= d < |blocks| && 0 <= c < g.m.n && InBlock(blocks, d, c)
      ensures ColumnDone(g, y0, after, done + {b}, d, c) {
      assert ColumnDone(g, y0, y, done, d, c);
      if InBlock(blocks, b, c) && d != b {
        if d < b { BlocksIncrease(blocks, g.m.n, d, b); } else { BlocksIncrease(blocks, g.m.n, b, d); }
      }
    }
  }

  method AxBlock(g: Args, blocks: seq<Block>, y: array<real>, b: int, ghost y0: seq<real>, ghost done: set<int>)
    requires ArgsOk(g) && |y0| == g.m.n == y.Length && Tiling(blocks, g.m.n) && Computed(g, blocks, y0, y[..], done)
    requires 0 <= b < |blocks| && b !in done
    modifies y
    ensures Computed(g, blocks, y0, y[..], done + {b})
  {
    assert BlockOk(blocks, g.m.n, b);
    ghost var before := y[..];
    Ax(g, y, blocks[b].fcolnum, blocks[b].lcolnum);
    BlockDone(g, blocks, y0, before, y[..], done, b);
  }

  ghost function Range(f: int, l: int): (s: set<int>)
    ensures forall b :: b in s <==> f <= b < l
    decreases l - f
  {
    if l <= f then {} else Range(f, l - 1) + {l - 1}
  }

  /** __bcsc_zspmv_loop: the blocks begin..end - 1, one after the other. */
  method Loop(g: Args, blocks: seq<Block>, y: array<real>, begin: int, end: int, ghost y0: seq<real>,
              ghost done: set<int>)
    requires ArgsOk(g) && |y0| == g.m.n == y.Length && Tiling(blocks, g.m.n) && Computed(g, blocks, y0, y[..], done)
    requires 0 <= begin <= end <= |blocks| && done !! Range(begin, end)
    modifies y
    ensures Computed(g, blocks, y0, y[..], done + Range(begin, end))
  {
    var bloc := begin;
    assert done + Range(begin, begin) == done;
    while bloc < end
      invariant begin <= bloc <= end && Computed(g, blocks, y0, y[..], done + Range(begin, bloc))
    {
      AxBlock(g, blocks, y, bloc, y0, done + Range(begin, bloc));
      assert done + Range(begin, bloc) + {bloc} == done + Range(begin, bloc + 1);
      bloc := bloc + 1;
    }
  }

  function Items(s: seq<int>): (r: set<int>)
    ensures forall b :: b in r <==> b in s
  {
    if s == [] then {} else Items(s[..|s| - 1]) + {s[|s| - 1]}
  }

  predicate Distinct(s: seq<int>) { forall i, j :: 0 <= i < j < |s| ==> s[i] != s[j] }

  /** pthread_bcsc_zspmv_tasktab: the tasks of one thread. */
  method Tasktab(g: Args, blocks: seq<Block>, y: array<real>, tasks: seq<int>, ghost y0: seq<real>,
                 ghost done: set<int>)
    requires ArgsOk(g) && |y0| == g.m.n == y.Length && Tiling(blocks, g.m.n) && Computed(g, blocks, y0, y[..], done)
    requires Distinct(tasks) && (forall t :: t in tasks ==> 0 <= t < |blocks|) && done !! Items(tasks)
    modifies y
    ensures Computed(g, blocks, y0, y[..], done + Items(tasks))
  {
    var ii := 0;
    assert done + Items(tasks[..0]) == done;
    while ii < |tasks|
      invariant 0 <= ii <= |tasks| && Computed(g, blocks, y0, y[..], done + Items(tasks[..ii]))
    {
      assert tasks[ii] in tasks && tasks[ii] !in tasks[..ii];
      AxBlock(g, blocks, y, tasks[ii], y0, done + Items(tasks[..ii]));
      assert tasks[..ii + 1][..ii] == tasks[..ii];
      assert done + Items(tasks[..ii]) + {tasks[ii]} == done + Items(tasks[..ii + 1]);
      ii := ii + 1;
    }
    assert tasks[..|tasks|] == tasks;
  }

  /** Blocks of the tasks of the threads before k. */
  ghost function TasksOf(ranks: seq<seq<int>>, k: int): set<int>
    requires 0 <= k <= |ranks|
    decreases k
  {
    if k == 0 then {} else TasksOf(ranks, k - 1) + Items(ranks[k - 1])
  }

  ghost predicate RankOk(ranks: seq<seq<int>>, blocks: seq<Block>, k: int)
    requires 0 <= k < |ranks|
  {
    Distinct(ranks[k]) && (forall t :: t in ranks[k] ==> 0 <= t < |blocks|) && TasksOf(ranks, k) !! Items(ranks[k])
  }

  /** The threads have each block once, all together. */
  ghost predicate Shared(ranks: seq<seq<int>>, blocks: seq<Block>) {
    (forall k :: 0 <= k < |ranks| ==> RankOk(ranks, blocks, k)) && TasksOf(ranks, |ranks|) == Range(0, |blocks|)
  }

  /** All the threads, in any order: they write to different parts of y. */
  method AllRanks(g: Args, blocks: seq<Block>, y: array<real>, ranks: seq<seq<int>>)
    requires ArgsOk(g) && g.m.n == y.Length && Tiling(blocks, g.m.n) && Shared(ranks, blocks)
    modifies y
    ensures Computed(g, blocks, old(y[..]), y[..], Range(0, |blocks|))
  {
    ghost var y0 := y[..];
    var k := 0;
    while k < |ranks|
      invariant 0 <= k <= |ranks| && Computed(g, blocks, y0, y[..], TasksOf(ranks, k))
    {
      assert RankOk(ranks, blocks, k);
      Tasktab(g, blocks, y, ranks[k], y0, TasksOf(ranks, k));
      k := k + 1;
    }
  }

  ghost predicate Scattered(g: Args, y0: seq<real>, y: seq<real>, j: int)
    requires ArgsOk(g) && |y0| == g.m.n
  {
    |y| == g.m.n && 0 <= j <= g.m.Nnz() && forall r :: 0 <= r < |y| ==> ScatteredAt(g, y0, y, j, r)
  }
  ghost predicate ScatteredAt(g: Args, y0: seq<real>, y: seq<real>, j: int, r: int)
    requires ArgsOk(g) && 0 <= r < |y0| == |y| && 0 <= j <= g.m.Nnz()
  {
    y[r] == g.beta * y0[r] + RowDot(g.m, g.alpha, g.a, g.x, r, j)
  }

  method Scatter(g: Args, y: array<real>, c: int, ghost y0: seq<real>)
    requires ArgsOk(g) && g.m.n == y.Length == |y0| && 0 <= c < g.m.n && 0 <= g.m.Lo(c)
             && Scattered(g, y0, y[..], g.m.Lo(c))
    modifies y
    ensures 0 <= g.m.Lo(c + 1) <= g.m.Nnz() && Scattered(g, y0, y[..], g.m.Lo(c + 1))
  {
    assert ColOk(g.m, c);
    var i := g.m.colptr[c] - 1;
    while i < g.m.colptr[c + 1] - 1
      invariant g.m.Lo(c) <= i <= g.m.Lo(c + 1) && Scattered(g, y0, y[..], i)
    {
      assert RowOk(g.m, i);
      OneColumn(g.m, c, Col(g.m, i), i);
      ghost var before := y[..];
      var r := g.m.rowptr[i] - 1;
      y[r] := y[r] + Term(g.alpha, g.a, g.x, i, c);
      ScatterNext(g, y0, before, y[..], i, i + 1, c);
      i := i + 1;
    }
  }

  lemma ScatterNext(g: Args, y0: seq<real>, y: seq<real>, after: seq<real>, j: int, next: int, c: int)
    requires ArgsOk(g) && |y0| == g.m.n && Scattered(g, y0, y, j) && j < g.m.Nnz() && RowOk(g.m, j) && c == Col(g.m, j)
             && next == j + 1
    requires after == y[g.m.Row(j) := y[g.m.Row(j)] + Term(g.alpha, g.a, g.x, j, c)]
    ensures Scattered(g, y0, after, next)
  {
    forall r | 0 <= r < |after| ensures ScatteredAt(g, y0, after, next, r) { assert ScatteredAt(g, y0, y, j, r); }
  }

  /** __bcsc_zspmv_Ax_ind: the values of the matrix itself, scattered along the rows. */
  method AxInd(g: Args, y: array<real>)
    requires ArgsOk(g) && g.m.n == y.Length
    modifies y
    ensures Scattered(g, old(y[..]), y[..], g.m.Nnz())
  {
    ghost var y0 := y[..];
    By(g.beta, y, 0, g.m.n - 1);
    NothingScattered(g, y0, y[..]);
    var c := 0;
    while c < g.m.n
      invariant 0 <= c <= g.m.n && 0 <= g.m.Lo(c) <= g.m.Nnz() && Scattered(g, y0, y[..], g.m.Lo(c))
    {
      Scatter(g, y, c, y0);
      c := c + 1;
    }
  }

  lemma NothingScattered(g: Args, y0: seq<real>, y: seq<real>)
    requires ArgsOk(g) && g.m.n == |y0| == |y| && forall c :: 0 <= c < |y| ==> y[c] == g.beta * y0[c]
    ensures Scattered(g, y0, y, 0)
  {
    forall r | 0 <= r < |y| ensures ScatteredAt(g, y0, y, 0, r) { assert y[r] == g.beta * y0[r]; }
  }

  // ----- Agreement -----

  /** y is beta y0 plus alpha times the matrix of values l times x. */
  ghost predicate IsProduct(m: Pattern, alpha: real, l: seq<real>, x: seq<real>, beta: real, y0: seq<real>,
                            y: seq<real>)
    requires ValidPattern(m) && |l| == m.Nnz() && |x| == m.n == |y0|
  {
    |y| == m.n && forall r :: 0 <= r < m.n ==> y[r] == beta * y0[r] + RowDot(m, alpha, l, x, r, m.Nnz())
  }

  /** Once all the blocks are computed through the transposed values, y is the product. */
  lemma ComputedIsProduct(g: Args, l: seq<real>, blocks: seq<Block>, y0: seq<real>, y: seq<real>)
    requires ArgsOk(g) && SymmetricPattern(g.m) && IsTransposed(g.m, l, g.a, g.m.Nnz()) && |y0| == g.m.n
             && Tiling(blocks, g.m.n)
    requires Computed(g, blocks, y0, y, Range(0, |blocks|))
    ensures IsProduct(g.m, g.alpha, l, g.x, g.beta, y0, y)
  {
    forall r | 0 <= r < g.m.n ensures y[r] == g.beta * y0[r] + RowDot(g.m, g.alpha, l, g.x, r, g.m.Nnz()) {
      var b := BlockOf(blocks, g.m.n, r, |blocks| - 1);
      assert InBlock(blocks, b, r) && ColumnDone(g, y0, y, Range(0, |blocks|), b, r);
      ColumnIsRow(g.m, g.alpha, l, g.a, g.x, r);
    }
  }

  /** Three ways to the same product: u holds the values of l transposed. */
  method Products(m: Pattern, alpha: real, l: seq<real>, u: seq<real>, x: seq<real>, beta: real, blocks: seq<Block>,
                  ranks: seq<seq<int>>, y1: array<real>, y2: array<real>, y3: array<real>)
    requires SymmetricPattern(m) && IsTransposed(m, l, u, m.Nnz()) && |x| == m.n && Tiling(blocks, m.n)
             && Shared(ranks, blocks)
    requires y1.Length == y2.Length == y3.Length == m.n && y1 != y2 && y1 != y3 && y2 != y3
    modifies y1, y2, y3
    ensures IsProduct(m, alpha, l, x, beta, old(y1[..]), y1[..])
    ensures IsProduct(m, alpha, l, x, beta, old(y2[..]), y2[..])
    ensures IsProduct(m, alpha, l, x, beta, old(y3[..]), y3[..])
  {
    var g := Args(m, alpha, u, x, beta);
    ghost var a1, a2 := y1[..], y2[..];
    NothingComputed(g, blocks, a1);
    Loop(g, blocks, y1, 0, |blocks|, a1, {});
    assert {} + Range(0, |blocks|) == Range(0, |blocks|);
    ComputedIsProduct(g, l, blocks, a1, y1[..]);
    AllRanks(g, blocks, y2, ranks);
    ComputedIsProduct(g, l, blocks, a2, y2[..]);
    ghost var a3 := y3[..];
    AxInd(Args(m, alpha, l, x, beta), y3);
    ScatteredIsProduct(Args(m, alpha, l, x, beta), a3, y3[..]);
  }

  lemma ScatteredIsProduct(g: Args, y0: seq<real>, y: seq<real>)
    requires ArgsOk(g) && |y0| == g.m.n && Scattered(g, y0, y, g.m.Nnz())
    ensures IsProduct(g.m, g.alpha, g.a, g.x, g.beta, y0, y)
  {
    forall r | 0 <= r < g.m.n ensures y[r] == g.beta * y0[r] + RowDot(g.m, g.alpha, g.a, g.x, r, g.m.Nnz()) {
      assert ScatteredAt(g, y0, y, g.m.Nnz(), r);
    }
  }

  lemma NothingComputed(g: Args, blocks: seq<Block>, y0: seq<real>)
    requires ArgsOk(g) && |y0| == g.m.n
    ensures Computed(g, blocks, y0, y0, {})
  {
    forall b, c | 0 <= b < |blocks| && 0 <= c < g.m.n && InBlock(blocks, b, c)
      ensures ColumnDone(g, y0, y0, {}, b, c) { }
  }
}

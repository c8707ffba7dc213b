/** bcsc_init_coltab and bcsc_init_centralized_coltab of bcsc/bcsc.c: where the columns of each
    block of columns start. */
module Coltab {
  import opened Csc
  import opened PermuteCsc
  import opened Spmv

  /** coltab of one block: where each of its columns starts, and where the last one ends. */
  ghost predicate ColtabOk(b: Block, globcol: seq<int>, coltab: seq<int>) {
    && 0 <= b.fcolnum <= b.lcolnum < |globcol| - 1 && |coltab| == b.lcolnum - b.fcolnum + 2
    && forall it :: 0 <= it < |coltab| ==> coltab[it] == globcol[b.fcolnum + it]
  }

  /** One block of bcsc_init_coltab. */
  method BlockColtab(b: Block, globcol: seq<int>, idxcol: int) returns (coltab: array<int>)
    requires 0 <= b.fcolnum <= b.lcolnum < |globcol| - 1 && idxcol == globcol[b.fcolnum]
    ensures fresh(coltab) && ColtabOk(b, globcol, coltab[..])
  {
    var colnbr := b.lcolnum - b.fcolnum + 1;
    coltab := new int[colnbr + 1];
    coltab[0] := idxcol;
    var iter := 0;
    while iter < colnbr
      invariant 0 <= iter <= colnbr && forall it :: 0 <= it <= iter ==> coltab[it] == globcol[b.fcolnum + it]
    {
      var nodeidx := b.fcolnum + iter;
      coltab[iter + 1] := coltab[iter] + (globcol[nodeidx + 1] - globcol[nodeidx]);
      iter := iter + 1;
    }
  }

  /** bcsc_init_coltab, with one degree of freedom: the blocks share the entries among them. */
  method InitColtab(blocks: seq<Block>, globcol: seq<int>) returns (coltabs: seq<seq<int>>, idxcol: int)
    requires |globcol| > 0 && globcol[0] == 0 && Tiling(blocks, |globcol| - 1)
    ensures |coltabs| == |blocks| && forall b :: 0 <= b < |blocks| ==> ColtabOk(blocks[b], globcol, coltabs[b])
    ensures idxcol == globcol[|globcol| - 1]
  {
    coltabs, idxcol := [], 0;
    var index := 0;
    while index < |blocks|
      invariant 0 <= index <= |blocks| == |blocks| && |coltabs| == index
      invariant 0 <= NextColumn(blocks, index) < |globcol| && idxcol == globcol[NextColumn(blocks, index)]
      invariant forall b :: 0 <= b < index ==> ColtabOk(blocks[b], globcol, coltabs[b])
    {
      assert BlockOk(blocks, |globcol| - 1, index);
      var coltab := BlockColtab(blocks[index], globcol, idxcol);
      coltabs := coltabs + [coltab[..]];
      idxcol := coltab[coltab.Length - 1];
      index := index + 1;
    }
  }

  /** First column of block b, or the number of columns after the last one. */
  function NextColumn(blocks: seq<Block>, b: int): int
    requires 0 <= b <= |blocks|
  {
    if b == 0 then 0 else blocks[b - 1].lcolnum + 1
  }

  /** coltab of one block, for the columns of the permuted matrix. */
  ghost predicate StartsAt(m: Pattern, peri: seq<int>, b: Block, coltab: seq<int>) {
    && 0 <= b.fcolnum <= b.lcolnum < |peri| && |coltab| == b.lcolnum - b.fcolnum + 2
    && forall it :: 0 <= it < |coltab| ==> coltab[it] == OutLo(m, peri, b.fcolnum + it)
  }
  ghost predicate AllStarts(m: Pattern, peri: seq<int>, blocks: seq<Block>, coltabs: seq<seq<int>>) {
    |coltabs| == |blocks| && forall b :: 0 <= b < |blocks| ==> StartsAt(m, peri, blocks[b], coltabs[b])
  }

  /** The columns counted over the matrix are those of the permuted matrix, block by block, as
      bcsc_init_centralized_coltab leaves them. */
  method CentralizedColtab(m: Pattern, perm: seq<int>, ghost peri: seq<int>, blocks: seq<Block>)
    returns (coltabs: seq<seq<int>>, valuesize: int)
    requires Ready(m, perm, peri) && Tiling(blocks, m.n)
    ensures valuesize == m.Nnz() && AllStarts(m, peri, blocks, coltabs)
  {
    var globcol := Globcol(m, perm, peri);
    coltabs, valuesize := InitColtab(blocks, globcol[..]);
    OutEnd(m, perm, peri);
    forall b | 0 <= b < |blocks| ensures StartsAt(m, peri, blocks[b], coltabs[b]) {
      assert ColtabOk(blocks[b], globcol[..], coltabs[b]);
    }
  }

  /** A coltab gives the bounds of the columns of a matrix. */
  ghost predicate ColumnsAt(b: Block, out: Pattern, coltab: seq<int>) {
    && 0 <= b.fcolnum <= b.lcolnum < |out.colptr| - 1 && |coltab| == b.lcolnum - b.fcolnum + 2
    && forall it :: 0 <= it < |coltab| ==> coltab[it] == out.Lo(b.fcolnum + it)
  }
  ghost predicate AllColumns(blocks: seq<Block>, out: Pattern, coltabs: seq<seq<int>>) {
    |coltabs| == |blocks| && forall b :: 0 <= b < |blocks| ==> ColumnsAt(blocks[b], out, coltabs[b])
  }

  /** The starts of the blocks are those of the pointers that permute_z_Matrix computes. */
  lemma StartsAgree(m: Pattern, peri: seq<int>, blocks: seq<Block>, coltabs: seq<seq<int>>, out: Pattern)
    requires AllStarts(m, peri, blocks, coltabs) && PointersOk(m, peri, out.colptr, |peri|)
    ensures AllColumns(blocks, out, coltabs)
  {
    forall b | 0 <= b < |blocks| ensures ColumnsAt(blocks[b], out, coltabs[b]) {
      assert StartsAt(m, peri, blocks[b], coltabs[b]);
      forall it | 0 <= it < |coltabs[b]| ensures coltabs[b][it] == out.Lo(blocks[b].fcolnum + it) {
        assert PointerAt(m, peri, out.colptr, blocks[b].fcolnum + it);
      }
    }
  }
}

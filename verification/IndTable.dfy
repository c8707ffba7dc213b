/** The table of contributions of blend/solver_matrix_gen.c: for every task, in order, and for
    every pair of its off-diagonal blocks, the task that receives the update. A first loop counts
    the entries and places the tasks; the second one fills the table. */
module IndTable {
  import opened SymbolMatrix

  /** Pairs of n blocks, each one with itself and those after it. */
  function Pairs(n: int): int
    decreases n
  {
    if n <= 0 then 0 else Pairs(n - 1) + n
  }

  lemma {:induction false} PairsIs(n: int)
    requires 0 <= n
    ensures Pairs(n) == n * (n + 1) / 2
    decreases n
  {
    if n > 0 {
      PairsIs(n - 1);
      assert n * (n + 1) == (n - 1) * n + 2 * n;
    }
  }

  /** Entries of the tasks before i. */
  function IndNum(s: Symbol, i: int): int
    requires 0 <= i < |s.cblktab|
    decreases i
  {
    if i == 0 then 0 else IndNum(s, i - 1) + Pairs(s.Last(i - 1) - s.First(i - 1) - 1)
  }

  /** What the table says of the pair (j, k): minus the number of the task that receives the
      update, or one more than the number of fan-in targets, which is none. */
  function Entry(s: Symbol, j: int, k: int): int
    requires Valid(s) && 0 <= j < |s.bloktab| && 0 <= k < |s.bloktab| && 0 <= s.bloktab[j].fcblknm < s.CblkNbr()
  {
    if Facing(s, j, k) >= 0 then -s.bloktab[j].fcblknm else 1
  }

  /** Entries of the pairs (j, j), ..., (j, k - 1). */
  ghost function RowEntries(s: Symbol, i: int, j: int, k: int): (r: seq<int>)
    requires Valid(s) && 0 <= i < s.CblkNbr() && s.First(i) < j <= k <= s.Last(i)
    ensures |r| == k - j
    decreases k - j
  {
    if k == j then []
    else
      PairInRange(s, i, j, k - 1);
      RowEntries(s, i, j, k - 1) + [Entry(s, j, k - 1)]
  }

  /** Entries of the off-diagonal blocks before j of column block i. */
  ghost function BlokEntries(s: Symbol, i: int, j: int): (r: seq<int>)
    requires Valid(s) && 0 <= i < s.CblkNbr() && s.First(i) < j <= s.Last(i)
    decreases j - s.First(i)
  {
    if j == s.First(i) + 1 then [] else BlokEntries(s, i, j - 1) + RowEntries(s, i, j - 1, s.Last(i))
  }

  /** Entries of the column blocks before i. */
  ghost function Entries(s: Symbol, i: int): (r: seq<int>)
    requires Valid(s) && 0 <= i <= s.CblkNbr()
    decreases i
  {
    if i == 0 then []
    else
      assert CblkOk(s, i - 1);
      Entries(s, i - 1) + BlokEntries(s, i - 1, s.Last(i - 1))
  }

  // ----- The count -----

  /** m blocks are left: the pairs of the first ones. */
  lemma {:induction false} BlokCount(s: Symbol, i: int, j: int, n: int, m: int)
    requires Valid(s) && 0 <= i < s.CblkNbr() && s.First(i) < j <= s.Last(i)
    requires n == s.Last(i) - s.First(i) - 1 && m == s.Last(i) - j
    ensures |BlokEntries(s, i, j)| == Pairs(n) - Pairs(m)
    decreases j - s.First(i)
  {
    if j > s.First(i) + 1 {
      BlokCount(s, i, j - 1, n, m + 1);
    }
  }

  lemma CblkCount(s: Symbol, k: int, i: int)
    requires Valid(s) && 0 <= k < i == k + 1 <= s.CblkNbr()
    ensures |Entries(s, i)| == |Entries(s, k)| + Pairs(s.Last(k) - s.First(k) - 1)
  {
    assert CblkOk(s, k);
    BlokCount(s, k, s.Last(k), s.Last(k) - s.First(k) - 1, 0);
  }

  ghost predicate Counted(s: Symbol, i: int)
    requires Valid(s) && 0 <= i <= s.CblkNbr()
  {
    |Entries(s, i)| == IndNum(s, i)
  }

  lemma CountedNext(s: Symbol, k: int, i: int)
    requires Valid(s) && 0 <= k < i == k + 1 <= s.CblkNbr() && Counted(s, k)
    ensures Counted(s, i)
  {
    CblkCount(s, k, i);
  }

  /** The triangles that the first loop adds up are the entries that the second one writes. */
  lemma {:induction false} CountIsFill(s: Symbol, i: int)
    requires Valid(s) && 0 <= i <= s.CblkNbr()
    ensures Counted(s, i)
    decreases i
  {
    if i > 0 {
      CountIsFill(s, i - 1);
      CountedNext(s, i - 1, i);
    }
  }

  // ----- Reading the table -----

  /** Where the entry of the pair (j, k) of column block i is. */
  function Position(s: Symbol, i: int, j: int, k: int): int
    requires 0 <= i < s.CblkNbr()
  {
    var n := s.Last(i) - s.First(i) - 1;
    IndNum(s, i) + Pairs(n) - Pairs(s.Last(i) - j) + k - j
  }

  predicate At(v: seq<int>, at: int, x: int) { 0 <= at < |v| && v[at] == x }

  lemma AtLeft(v: seq<int>, w: seq<int>, at: int, x: int)
    requires At(v, at, x)
    ensures At(v + w, at, x)
  {
  }

  lemma AtRight(v: seq<int>, w: seq<int>, at: int, x: int)
    requires At(w, at, x)
    ensures At(v + w, |v| + at, x)
  {
  }

  lemma {:induction false} RowEntryAt(s: Symbol, i: int, j: int, k: int, e: int)
    requires UpdatePair(s, i, j, k) && k < e <= s.Last(i)
    ensures 0 <= j <= k < |s.bloktab| && 0 <= s.bloktab[j].fcblknm < s.CblkNbr()
    ensures At(RowEntries(s, i, j, e), k - j, Entry(s, j, k))
    decreases e
  {
    PairInRange(s, i, j, k);
    PairInRange(s, i, j, e - 1);
    if k < e - 1 {
      RowEntryAt(s, i, j, k, e - 1);
      AtLeft(RowEntries(s, i, j, e - 1), [Entry(s, j, e - 1)], k - j, Entry(s, j, k));
    } else {
      AtRight(RowEntries(s, i, j, k), [Entry(s, j, k)], 0, Entry(s, j, k));
    }
  }

  lemma BlokEntriesNext(s: Symbol, i: int, d: int, e: int)
    requires Valid(s) && 0 <= i < s.CblkNbr() && s.First(i) < d < e == d + 1 <= s.Last(i)
    ensures BlokEntries(s, i, e) == BlokEntries(s, i, d) + RowEntries(s, i, d, s.Last(i))
  {
  }

  lemma {:induction false} BlokEntryAt(s: Symbol, i: int, j: int, e: int, at: int, x: int, to: int)
    requires Valid(s) && 0 <= i < s.CblkNbr() && s.First(i) < j < e <= s.Last(i)
    requires At(RowEntries(s, i, j, s.Last(i)), at, x) && to == |BlokEntries(s, i, j)| + at
    ensures At(BlokEntries(s, i, e), to, x)
    decreases e - j
  {
    if j < e - 1 {
      BlokEntryAt(s, i, j, e - 1, at, x, to);
      BlokEntryStays(s, i, e - 1, e, to, x);
    } else {
      BlokEntryNew(s, i, j, e, at, x, to);
    }
  }

  lemma BlokEntryNew(s: Symbol, i: int, d: int, e: int, at: int, x: int, to: int)
    requires Valid(s) && 0 <= i < s.CblkNbr() && s.First(i) < d < e == d + 1 <= s.Last(i)
    requires At(RowEntries(s, i, d, s.Last(i)), at, x) && to == |BlokEntries(s, i, d)| + at
    ensures At(BlokEntries(s, i, e), to, x)
  {
    BlokEntriesNext(s, i, d, e);
    AtRight(BlokEntries(s, i, d), RowEntries(s, i, d, s.Last(i)), at, x);
  }

  lemma BlokEntryStays(s: Symbol, i: int, d: int, e: int, at: int, x: int)
    requires Valid(s) && 0 <= i < s.CblkNbr() && s.First(i) < d < e == d + 1 <= s.Last(i)
    requires At(BlokEntries(s, i, d), at, x)
    ensures At(BlokEntries(s, i, e), at, x)
  {
    BlokEntriesNext(s, i, d, e);
    AtLeft(BlokEntries(s, i, d), RowEntries(s, i, d, s.Last(i)), at, x);
  }

  lemma EntriesNext(s: Symbol, d: int, e: int)
    requires Valid(s) && 0 <= d < e == d + 1 <= s.CblkNbr()
    ensures CblkOk(s, d) && Entries(s, e) == Entries(s, d) + BlokEntries(s, d, s.Last(d))
  {
    assert CblkOk(s, d);
  }

  lemma {:induction false} EntriesKept(s: Symbol, i: int, e: int, at: int, x: int)
    requires Valid(s) && 0 <= i <= e <= s.CblkNbr() && At(Entries(s, i), at, x)
    ensures At(Entries(s, e), at, x)
    decreases e
  {
    if i < e {
      var d := e - 1;
      EntriesNext(s, d, e);
      EntriesKept(s, i, d, at, x);
      AtLeft(Entries(s, d), BlokEntries(s, d, s.Last(d)), at, x);
    }
  }

  /** Where the entries of the pairs of block j start. */
  lemma RowStart(s: Symbol, i: int, j: int)
    requires UpdatePair(s, i, j, j)
    ensures Position(s, i, j, j) == IndNum(s, i) + |BlokEntries(s, i, j)|
  {
    BlokCount(s, i, j, s.Last(i) - s.First(i) - 1, s.Last(i) - j);
  }

  lemma EntryOfBlok(s: Symbol, i: int, j: int, k: int, x: int)
    requires UpdatePair(s, i, j, k) && At(RowEntries(s, i, j, s.Last(i)), k - j, x)
    ensures At(BlokEntries(s, i, s.Last(i)), Position(s, i, j, k) - IndNum(s, i), x)
  {
    RowStart(s, i, j);
    BlokEntryAt(s, i, j, s.Last(i), k - j, x, |BlokEntries(s, i, j)| + k - j);
  }

  lemma EntryOfCblk(s: Symbol, i: int, next: int, at: int, x: int)
    requires Valid(s) && 0 <= i < next == i + 1 <= s.CblkNbr() && CblkOk(s, i)
    requires At(BlokEntries(s, i, s.Last(i)), at, x)
    ensures At(Entries(s, next), IndNum(s, i) + at, x) && IndNum(s, i) <= IndNum(s, i) + at < IndNum(s, next)
  {
    CountIsFill(s, i);
    CountIsFill(s, next);
    EntriesNext(s, i, next);
    AtRight(Entries(s, i), BlokEntries(s, i, s.Last(i)), at, x);
  }

  /** The place of a pair, which the solver computes from the number of the blocks, holds the
      entry of the pair: a column block later than i, or the mark that no block faces it. */
  lemma EntryAt(s: Symbol, i: int, j: int, k: int)
    requires UpdatePair(s, i, j, k)
    ensures 0 <= j <= k < |s.bloktab| && i < s.bloktab[j].fcblknm < s.CblkNbr()
    ensures IndNum(s, i) <= Position(s, i, j, k) < IndNum(s, i + 1)
    ensures At(Entries(s, s.CblkNbr()), Position(s, i, j, k), Entry(s, j, k))
  {
    PairInRange(s, i, j, k);
    var next, at, x := i + 1, Position(s, i, j, k), Entry(s, j, k);
    RowEntryAt(s, i, j, k, s.Last(i));
    EntryOfBlok(s, i, j, k, x);
    EntryOfCblk(s, i, next, at - IndNum(s, i), x);
    EntriesKept(s, next, s.CblkNbr(), at, x);
  }

  /** The block that starts the column block faced by j, and those that follow it there. */
  predicate Receives(s: Symbol, j: int, k: int, x: int) {
    && 0 <= j < |s.bloktab| && 0 <= k < |s.bloktab| && 0 <= x < |s.bloktab|
    && s.bloktab[x].lcblknm == s.bloktab[j].fcblknm && Overlaps(s.bloktab[x], s.bloktab[k])
  }

  /** Entry at of the table is about the pair (j, k): when a block of the column block that j faces
      shares a row with k, it is minus the number of that column block, and else 1. */
  ghost predicate EntryRight(s: Symbol, indnum: seq<int>, indtab: seq<int>, i: int, j: int, k: int) {
    && 0 <= i < |indnum| && i < s.CblkNbr() && 0 <= j <= k
    && var n := s.Last(i) - s.First(i) - 1;
       var m := s.Last(i) - j;
       var at := indnum[i] + n * (n + 1) / 2 - m * (m + 1) / 2 + k - j;
       && 0 <= at < |indtab|
       && (forall x :: Receives(s, j, k, x) ==> indtab[at] == -s.bloktab[x].lcblknm < 0)
       && ((forall x :: !Receives(s, j, k, x)) ==> indtab[at] == 1)
  }

  /** The facing block is one of those that can receive the update. */
  lemma FacingReceives(s: Symbol, i: int, j: int, k: int, x: int)
    requires UpdatePair(s, i, j, k)
    ensures 0 <= j <= k < |s.bloktab| && i < s.bloktab[j].fcblknm < s.CblkNbr()
    ensures Facing(s, j, k) >= 0 ==> Receives(s, j, k, Facing(s, j, k))
    ensures Receives(s, j, k, x) ==> Facing(s, j, k) >= 0
  {
    PairInRange(s, i, j, k);
    var c := s.bloktab[j].fcblknm;
    assert ValidColumn(s, c);
    if Facing(s, j, k) >= 0 { assert ValidBlok(s, c, Facing(s, j, k)); }
    if Receives(s, j, k, x) {
      var o := OwnerOf(s, x, s.CblkNbr());
      assert s.First(c) <= x < s.Last(c);
    }
  }

  lemma EntryIsRight(s: Symbol, indnum: seq<int>, indtab: seq<int>, i: int, j: int, k: int)
    requires UpdatePair(s, i, j, k) && |indnum| == s.CblkNbr() && indnum[i] == IndNum(s, i)
    requires indtab == Entries(s, s.CblkNbr())
    ensures EntryRight(s, indnum, indtab, i, j, k)
  {
    EntryAt(s, i, j, k);
    CblkOf(s, i);
    PairsIs(s.Last(i) - s.First(i) - 1);
    PairsIs(s.Last(i) - j);
    var at := Position(s, i, j, k);
    assert At(indtab, at, Entry(s, j, k));
    forall x | Receives(s, j, k, x) ensures indtab[at] == -s.bloktab[x].lcblknm < 0 { FacingReceives(s, i, j, k, x); }
    if forall x :: !Receives(s, j, k, x) {
      FacingReceives(s, i, j, k, 0);
      var none := Receives(s, j, k, Facing(s, j, k));
    }
  }

  lemma CblkOf(s: Symbol, i: int)
    requires Valid(s) && 0 <= i < s.CblkNbr()
    ensures CblkOk(s, i)
  {
  }

  // ----- The loops -----

  /** The first loop: where the entries of each task start, and how many there are. */
  method CountEntries(s: Symbol) returns (indnum: seq<int>, indnbr: int)
    requires Valid(s)
    ensures |indnum| == s.CblkNbr() && forall i :: 0 <= i < |indnum| ==> indnum[i] == IndNum(s, i)
    ensures indnbr == IndNum(s, s.CblkNbr())
  {
    indnum, indnbr := [], 0;
    var i := 0;
    while i < s.CblkNbr()
      invariant 0 <= i <= s.CblkNbr() && |indnum| == i && indnbr == IndNum(s, i)
      invariant forall k :: 0 <= k < i ==> indnum[k] == IndNum(s, k)
    {
      indnum := indnum + [indnbr];
      var odb_nbr := s.cblktab[i + 1].bloknum - s.cblktab[i].bloknum - 1;
      assert CblkOk(s, i);
      PairsIs(odb_nbr);
      indnbr := indnbr + odb_nbr * (odb_nbr + 1) / 2;
      i := i + 1;
    }
  }

  /** The pairs of block j. */
  method FillRow(s: Symbol, i: int, j: int, ricar: bool, indtab0: seq<int>) returns (indtab: seq<int>)
    requires UpdatePair(s, i, j, j) && (!ricar ==> Closed(s))
    ensures indtab == indtab0 + RowEntries(s, i, j, s.Last(i))
  {
    PairInRange(s, i, j, j);
    indtab := indtab0;
    var firstbloknum, k := 0, j;
    while k < s.Last(i)
      invariant j <= k <= s.Last(i) && indtab == indtab0 + RowEntries(s, i, j, k)
      invariant k < s.Last(i) ==> HintOk(s, j, k, firstbloknum)
    {
      indtab, firstbloknum := FillPair(s, i, j, k, ricar, indtab, firstbloknum);
      assert indtab == indtab0 + (RowEntries(s, i, j, k) + [Entry(s, j, k)]);
      k := k + 1;
    }
  }

  /** One pair; the facing block is where the next search starts. */
  method FillPair(s: Symbol, i: int, j: int, k: int, ricar: bool, indtab0: seq<int>, hint: int)
    returns (indtab: seq<int>, next: int)
    requires UpdatePair(s, i, j, k) && HintOk(s, j, k, hint) && (!ricar ==> Closed(s))
    ensures 0 <= j <= k < |s.bloktab| && indtab == indtab0 + [Entry(s, j, k)]
    ensures k + 1 < s.Last(i) ==> HintOk(s, j, k + 1, next)
  {
    PairInRange(s, i, j, k);
    var ftgtnbr := 0;
    var facebloknum := GetFacingBloknum(s, i, j, k, hint, ricar);
    if facebloknum >= 0 {
      next := facebloknum;
      var c := s.bloktab[j].fcblknm;
      assert ValidColumn(s, c) && ValidBlok(s, c, facebloknum);
      assert s.bloktab[facebloknum].lcblknm < s.CblkNbr();
      indtab := indtab0 + [-s.bloktab[facebloknum].lcblknm];
    } else {
      next := hint;
      indtab := indtab0 + [ftgtnbr + 1];
    }
    if k + 1 < s.Last(i) { HintStays(s, i, j, k, hint); }
  }

  method FillBloks(s: Symbol, i: int, ricar: bool, indtab0: seq<int>) returns (indtab: seq<int>)
    requires Valid(s) && 0 <= i < s.CblkNbr() && CblkOk(s, i) && (!ricar ==> Closed(s))
    ensures indtab == indtab0 + BlokEntries(s, i, s.Last(i))
  {
    indtab := indtab0;
    var bloknum := s.cblktab[i].bloknum + 1;
    while bloknum < s.cblktab[i + 1].bloknum
      invariant s.First(i) < bloknum <= s.Last(i) && indtab == indtab0 + BlokEntries(s, i, bloknum)
    {
      indtab := FillRow(s, i, bloknum, ricar, indtab);
      assert indtab == indtab0 + (BlokEntries(s, i, bloknum) + RowEntries(s, i, bloknum, s.Last(i)));
      bloknum := bloknum + 1;
    }
  }

  /** Both loops, with the assertions of the second one on the places of the first one. */
  method FillIndtab(s: Symbol, ricar: bool) returns (indnum: seq<int>, indtab: seq<int>)
    requires Valid(s) && (!ricar ==> Closed(s))
    ensures |indnum| == s.CblkNbr() && forall i :: 0 <= i < |indnum| ==> indnum[i] == IndNum(s, i)
    ensures indtab == Entries(s, s.CblkNbr()) && |indtab| == IndNum(s, s.CblkNbr())
  {
    var indnbr;
    indnum, indnbr := CountEntries(s);
    indtab := [];
    var i := 0;
    while i < s.CblkNbr()
      invariant 0 <= i <= s.CblkNbr() && indtab == Entries(s, i)
    {
      CountIsFill(s, i);
      assert |indtab| == indnum[i];
      assert CblkOk(s, i);
      indtab := FillBloks(s, i, ricar, indtab);
      i := i + 1;
    }
    CountIsFill(s, i);
    assert |indtab| == indnbr;
  }
}

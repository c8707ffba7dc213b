/** A run of the simulation in which simu_pushToReadyHeap moves a task whose date is not yet
    passed: two processors, four column blocks of one column. Column block 0 is costly and
    contributes to 2, column block 1 is cheap and contributes to 3; processor 0 is the only
    candidate of 0, and processor 1 the only one of the others. */
module LateMove {
  import opened Queue
  import opened SymbolMatrix
  import opened Contributions
  import opened Schedule
  import opened Makespan
  import opened Turns

  function Symb(): Symbol {
    Symbol([Cblk(0, 0, 0), Cblk(1, 1, 2), Cblk(2, 2, 4), Cblk(3, 3, 5), Cblk(4, 4, 6)],
           [Blok(0, 0, 0, 0), Blok(2, 2, 0, 2), Blok(1, 1, 1, 1), Blok(3, 3, 1, 3), Blok(2, 2, 2, 2), Blok(3, 3, 3, 3)])
  }

  function OneCand(p: int): Cand { Candidates.Cand(p, p, -1, 0.0) }

  function Pb(): Problem {
    Problem(Symb(), [OneCand(0), OneCand(1), OneCand(1), OneCand(1)], [10.0, 0.0, 1.0, 0.0, 1.0, 1.0], 2, false)
  }

  lemma CblksAreValid()
    ensures ValidCblks(Symb()) && Symb().CblkNbr() == 4
  {
    var s := Symb();
    assert CblkOk(s, 0) && CblkOk(s, 1) && CblkOk(s, 2) && CblkOk(s, 3);
  }

  lemma ColumnIsValid(c: int)
    requires ValidCblks(Symb()) && 0 <= c < 4
    ensures ValidColumn(Symb(), c)
  {
    var s := Symb();
    assert CblkOk(s, c);
    var b := s.First(c);
    assert ValidBlok(s, c, b);
    if c < 2 { assert ValidBlok(s, c, b + 1); }
  }

  lemma SymbIsValid()
    ensures Valid(Symb()) && Symb().CblkNbr() == 4
  {
    CblksAreValid();
    forall c | 0 <= c < 4 ensures ValidColumn(Symb(), c) { ColumnIsValid(c); }
  }

  lemma PbIsValid()
    ensures ValidProblem(Pb())
  {
    SymbIsValid();
    var s := Symb();
    forall i, j, k | 0 <= i < s.CblkNbr() && s.First(i) < j <= k < s.Last(i) ensures ClosedPair(s, i, j, k) {
      FacesLater(s, i, j);
      var c := s.bloktab[j].fcblknm;
      assert j == k && (c == 2 || c == 3);
      assert Covers(s.bloktab[s.First(c)], s.bloktab[k]);
    }
  }

  /** The tables after column blocks 1, 0 and 3 ran, in that order. */
  function Owners(): seq<int> { [0, 1, -1, 1] }
  function Timer(): seq<real> { [10.0, 2.0] }
  function Time(): seq<real> { [0.0, 0.0, 10.0, 1.0] }

  lemma NoEdge(c: int, done: seq<bool>)
    requires Valid(Symb()) && 0 <= c < 4 == |done| && (c == 3 ==> done[1]) && (c == 2 ==> done[0])
    ensures forall i, j :: Edge(Symb(), i, j, c) ==> done[i]
  {
  }

  /** Dates raised by column blocks 0 and 1. */
  lemma Raised(time: seq<real>, c: int, st: real)
    requires ValidProblem(Pb()) && |time| == 4 && (c == 0 || c == 1)
    ensures RaisedTimes(Pb(), time, c, st, Symb().Last(c)) == Raise(time, c + 2, st + if c == 0 then 10.0 else 1.0)
    ensures TaskCost(Pb(), c) == if c == 0 then 10.0 else 1.0
  {
    var pb, b := Pb(), Symb().First(c);
    assert SumCost(pb.blokcost, b, b + 1) == SumCost(pb.blokcost, b, b) + pb.blokcost[b];
    assert SumCost(pb.blokcost, b, b + 2) == SumCost(pb.blokcost, b, b + 1) + pb.blokcost[b + 1];
    assert RaisedTimes(pb, time, c, st, b + 1) == time;
    assert Delay(pb, c, b + 1) == SumCost(pb.blokcost, b, b + 2);
  }

  lemma RaisedNone(time: seq<real>, st: real)
    requires ValidProblem(Pb()) && |time| == 4
    ensures RaisedTimes(Pb(), time, 3, st, Symb().Last(3)) == time && TaskCost(Pb(), 3) == 1.0
  {
    assert SumCost(Pb().blokcost, 5, 6) == SumCost(Pb().blokcost, 5, 5) + Pb().blokcost[5];
  }

  /** What the main loop keeps. */
  ghost predicate Keeps(pb: Problem, s: State) {
    && Whole(pb, s) && HistoryHolds(pb, s.t)
    && CountsOk(pb.symb, Done(s.t.ownetab), s.blokctrb) && SumsOk(pb.symb, s.blokctrb, s.cblkctrb)
    && QueuesOk(pb.cand, s.cblkctrb, Done(s.t.ownetab), s.view, pb.nbcores) && KeysOk(pb, s.t.time, s.view)
  }

  // ----- The run -----

  function Tables0(): Tables {
    Tables([-1, -1, -1, -1], [-1, -1, -1, -1], 0, [[], []], [0.0, 0.0, 0.0, 0.0], [0.0, 0.0, 0.0, 0.0], [0.0, 0.0])
  }
  function Tables1(): Tables {
    Tables([-1, 1, -1, -1], [-1, 0, -1, -1], 1, [[], [1]], [0.0, 0.0, 0.0, 1.0], [0.0, 0.0, 0.0, 0.0], [0.0, 1.0])
  }
  function Tables2(): Tables {
    Tables([0, 1, -1, -1], [1, 0, -1, -1], 2, [[0], [1]], Time(), [0.0, 0.0, 0.0, 0.0], [10.0, 1.0])
  }
  function Tables3(): Tables {
    Tables(Owners(), [1, 0, -1, 2], 3, [[0], [1, 3]], Time(), [0.0, 0.0, 0.0, 1.0], Timer())
  }

  function Late(): Item { Item(10.0, -1.0, 2) }
  function Waiting(t: int): Item requires 0 <= t < 4 { ReadyItem(Pb(), t) }

  /** At the start 0 and 1 are ready. Each turn empties one heap; 3 is put in a ready heap after
      1, and 2 in the future heap of processor 1 after 0. */
  function State0(): State { State(Tables0(), [0, 0, 0, 0, 1, 1], [0, 0, 1, 1], [[Waiting(0)], [Waiting(1)], [], []]) }
  function State1(): State { State(Tables1(), [0, 0, 0, 0, 1, 0], [0, 0, 1, 0], [[Waiting(0)], [Waiting(3)], [], []]) }
  function State2(): State { State(Tables2(), [0, 0, 0, 0, 0, 0], [0, 0, 0, 0], [[], [Waiting(3)], [], [Late()]]) }
  function State3(): State { State(Tables3(), [0, 0, 0, 0, 0, 0], [0, 0, 0, 0], [[], [], [], [Late()]]) }

  lemma Start()
    requires ValidProblem(Pb())
    ensures HistoryHolds(Pb(), Tables0()) && Sized(Pb(), Tables0())
  {
    HistoryStart(Pb());
    NoTablesAre();
  }

  lemma FirstTimes()
    requires ValidProblem(Pb())
    ensures RaisedTimes(Pb(), Tables0().time, 1, 0.0, 4) == Tables1().time && TaskCost(Pb(), 1) == 1.0
  {
    Raised(Tables0().time, 1, 0.0);
    assert Raise(Tables0().time, 3, 1.0) == Tables1().time;
  }

  lemma FirstRuns()
    requires ValidProblem(Pb())
    ensures CblkOk(Symb(), 1) && Runs(Pb(), Tables0(), Tables1(), 1, 1, 0.0)
  {
    CblksAreValid();
    assert Tables0().tasktab[1] + [1] == [1];
    FirstTimes();
  }

  lemma SecondTimes()
    requires ValidProblem(Pb())
    ensures RaisedTimes(Pb(), Tables1().time, 0, 0.0, 2) == Time() && TaskCost(Pb(), 0) == 10.0
  {
    Raised(Tables1().time, 0, 0.0);
    assert Raise(Tables1().time, 2, 10.0) == Time();
  }

  lemma SecondRuns()
    requires ValidProblem(Pb())
    ensures CblkOk(Symb(), 0) && Runs(Pb(), Tables1(), Tables2(), 0, 0, 0.0)
  {
    CblksAreValid();
    assert Tables1().tasktab[0] + [0] == [0];
    SecondTimes();
  }

  lemma ThirdRuns()
    requires ValidProblem(Pb())
    ensures CblkOk(Symb(), 3) && Runs(Pb(), Tables2(), Tables3(), 3, 1, 1.0)
  {
    CblksAreValid();
    assert Tables2().tasktab[1] + [3] == [1, 3];
    RaisedNone(Time(), 1.0);
  }

  /** The tables along the run. */
  lemma TablesSoFar()
    ensures ValidProblem(Pb()) && HistoryHolds(Pb(), Tables3())
  {
    PbIsValid();
    Start();
    FirstRuns();
    NoEdge(1, Done(Tables0().ownetab));
    OneStep(Pb(), Tables0(), Tables1(), 1, 1, 0.0);
    SecondRuns();
    NoEdge(0, Done(Tables1().ownetab));
    OneStep(Pb(), Tables1(), Tables2(), 0, 0, 0.0);
    ThirdRuns();
    NoEdge(3, Done(Tables2().ownetab));
    OneStep(Pb(), Tables2(), Tables3(), 3, 1, 1.0);
  }

  // ----- Counters -----

  /** A column block with one off-diagonal block has one update, with none it has none. */
  lemma UpdatesOfOne(s: Symbol, i: int, j: int, b: int)
    requires UpdatePair(s, i, j, j) && j == s.First(i) + 1 == s.Last(i) - 1
    ensures 0 <= j < |s.bloktab| && 0 <= s.bloktab[j].fcblknm < s.CblkNbr()
    ensures Updates(s, i, b) == if Facing(s, j, j) == b then 1 else 0
  {
    PairInRange(s, i, j, j);
    assert RowUpdates(s, i, j, j + 1, b) == 0;
    assert UpdatesFrom(s, i, j + 1, b) == 0;
  }

  lemma UpdatesOfNone(s: Symbol, i: int, b: int)
    requires Valid(s) && 0 <= i < s.CblkNbr() && s.Last(i) == s.First(i) + 1
    ensures Updates(s, i, b) == 0
  {
  }

  /** Column blocks 0 and 1 have one update each, of the diagonal blocks 4 and 5. */
  lemma UpdatesAre(i: int, b: int)
    requires Valid(Symb()) && 0 <= i < 4 && 0 <= b < 6
    ensures Updates(Symb(), i, b) == Update(i, b)
  {
    if i < 2 {
      FacingIs(i);
      UpdatesOfOne(Symb(), i, 2 * i + 1, b);
    } else {
      UpdatesOfNone(Symb(), i, b);
    }
  }

  lemma FacingIs(i: int)
    requires Valid(Symb()) && 0 <= i < 2
    ensures UpdatePair(Symb(), i, 2 * i + 1, 2 * i + 1) && Facing(Symb(), 2 * i + 1, 2 * i + 1) == i + 4
  {
  }

  function Update(i: int, b: int): int { if (i == 0 && b == 4) || (i == 1 && b == 5) then 1 else 0 }

  lemma {:induction false} PendingIs(s: Symbol, done: seq<bool>, k: int, b: int)
    requires Valid(s) && |done| == s.CblkNbr() == 4 && 0 <= k <= 4
    requires forall i :: 0 <= i < 4 ==> Updates(s, i, b) == Update(i, b)
    ensures Pending(s, done, k, b) == if (b == 4 && k == 0 && !done[0]) || (b == 5 && k <= 1 && !done[1]) then 1 else 0
    decreases 4 - k
  {
    if k < 4 { PendingIs(s, done, k + 1, b); }
  }

  lemma CountIs(done: seq<bool>, blokctrb: seq<int>, b: int)
    requires Valid(Symb()) && |done| == 4 && 0 <= b < 6
    requires blokctrb == [0, 0, 0, 0, if done[0] then 0 else 1, if done[1] then 0 else 1]
    ensures CountOk(Symb(), done, blokctrb, b)
  {
    forall i | 0 <= i < 4 ensures Updates(Symb(), i, b) == Update(i, b) { UpdatesAre(i, b); }
    PendingIs(Symb(), done, 0, b);
  }

  lemma CountersAre(done: seq<bool>, blokctrb: seq<int>, cblkctrb: seq<int>)
    requires Valid(Symb()) && |done| == 4
    requires blokctrb == [0, 0, 0, 0, if done[0] then 0 else 1, if done[1] then 0 else 1]
    requires cblkctrb == [0, 0, blokctrb[4], blokctrb[5]]
    ensures CountsOk(Symb(), done, blokctrb) && SumsOk(Symb(), blokctrb, cblkctrb)
  {
    var s := Symb();
    forall b | 0 <= b < 6 ensures CountOk(s, done, blokctrb, b) { CountIs(done, blokctrb, b); }
    forall c | 0 <= c < 4 ensures SumOk(s, blokctrb, cblkctrb, c) {
      assert ValidColumn(s, c);
      var f, l := s.First(c), s.Last(c);
      assert SumRange(blokctrb, f, f) == 0;
      assert SumRange(blokctrb, f, f + 1) == blokctrb[f];
      if c < 2 { assert SumRange(blokctrb, f, f + 2) == blokctrb[f] + blokctrb[f + 1]; }
    }
  }

  // ----- Heaps -----

  lemma OnlyItem(x: Item)
    ensures Pushed([], x) == [x] && Popped([x]) == []
  {
  }

  /** A task with the only candidate p enters one heap of p. */
  lemma PutIs(m: Marks, t: int, p: int)
    requires Fits(Pb(), m) && 0 <= t < 4 && p == (if t == 0 then 0 else 1)
    ensures Put(Pb(), m, t).view == PutIn(Pb(), m.timer, m.time, m.view, t, p)
    ensures Put(Pb(), m, t) == m.(view := Put(Pb(), m, t).view)
  {
    assert PutUpTo(Pb(), m.timer, m.time, m.view, t, p, p) == m.view;
  }

  lemma NoTablesAre()
    requires ValidProblem(Pb())
    ensures NoTables(Pb()) == Tables0()
  {
    var r := Tables0();
    assert r.ownetab == seq(4, _ => -1);
    assert r.time == seq(4, _ => 0.0);
    assert r.tasktab == seq(2, _ => []);
    assert r.timer == seq(2, _ => 0.0);
  }

  /** The heaps of the start. */
  lemma StartsHere()
    ensures Starts(Pb(), State0())
  {
    PbIsValid();
    var s := State0();
    var m := Ended(s).(view := [[], [], [], []]);
    assert seq(4, _ => []) == m.view;
    NoTablesAre();
    CountersAre(Done(s.t.ownetab), s.blokctrb, s.cblkctrb);
    OnlyItem(Waiting(0));
    OnlyItem(Waiting(1));
    PutIs(m, 0, 0);
    var n := ReadyPushed(Pb(), m, 1);
    assert n == m.(view := [[Waiting(0)], [], [], []]);
    PutIs(n, 1, 1);
    assert ReadyPushed(Pb(), m, 2) == m.(view := s.view);
    assert ReadyPushed(Pb(), m, 3) == m.(view := s.view);
  }

  /** The counters and dates after the only update of column block i < 2. */
  function Counted(m: Marks, i: int, clock: real): Marks
    requires 0 <= i < 2 && |m.blokctrb| == 6 && |m.cblkctrb| == |m.time| == 4
  {
    m.(blokctrb := m.blokctrb[i + 4 := m.blokctrb[i + 4] - 1],
       cblkctrb := m.cblkctrb[i + 2 := m.cblkctrb[i + 2] - 1], time := Raise(m.time, i + 2, clock))
  }

  lemma PairOfTwo(m: Marks, i: int, pr: int, j: int)
    requires Fits(Pb(), m) && 0 <= i < 2 && 0 <= pr < 2 && j == 2 * i + 1
    ensures UpdatePair(Symb(), i, j, j)
    ensures var n := Counted(m, i, m.timer[pr]);
            Fits(Pb(), n) && Pair(Pb(), m, i, pr, j, j) == if n.cblkctrb[i + 2] == 0 then Put(Pb(), n, i + 2) else n
  {
    FacingIs(i);
  }

  /** A column block with one off-diagonal block has one pair. */
  lemma RowsOfOne(pb: Problem, m: Marks, i: int, pr: int, j: int, clock: real)
    requires Fits(pb, m) && 0 <= pr < pb.nbcores && UpdatePair(pb.symb, i, j, j)
    requires j == pb.symb.First(i) + 1 == pb.symb.Last(i) - 1 && 0 < j < |pb.blokcost|
    requires clock == m.timer[pr] + pb.blokcost[j - 1] + pb.blokcost[j]
    ensures Rows(pb, m, i, pr, j + 1) == Pair(pb, m.(timer := m.timer[pr := clock]), i, pr, j, j)
  {
    var after := m.(timer := m.timer[pr := clock]);
    assert m.timer[pr := m.timer[pr] + pb.blokcost[j - 1]][pr := clock] == after.timer;
    assert Costs(pb, Costs(pb, m, pr, j - 1), pr, j) == after;
    assert Row(pb, after, i, pr, j, j) == after;
    assert Row(pb, after, i, pr, j, j + 1) == Pair(pb, after, i, pr, j, j);
  }

  /** Column block i < 2 on processor pr, which has one off-diagonal block. */
  lemma RowsOfTwo(m: Marks, i: int, pr: int, clock: real)
    requires Fits(Pb(), m) && 0 <= i < 2 && 0 <= pr < 2
    requires clock == m.timer[pr] + if i == 0 then 10.0 else 1.0
    ensures var n := Counted(m.(timer := m.timer[pr := clock]), i, clock);
            Fits(Pb(), n) && Rows(Pb(), m, i, pr, 2 * i + 2)
                             == if n.cblkctrb[i + 2] == 0 then Put(Pb(), n, i + 2) else n
  {
    FacingIs(i);
    RowsOfOne(Pb(), m, i, pr, 2 * i + 1, clock);
    PairOfTwo(m.(timer := m.timer[pr := clock]), i, pr, 2 * i + 1);
  }

  lemma AllWhole()
    requires ValidProblem(Pb())
    ensures Whole(Pb(), State0()) && Whole(Pb(), State1()) && Whole(Pb(), State2()) && Whole(Pb(), State3())
  {
  }

  /** No head is mapped in the three states where a task is chosen. */
  lemma NothingToClean(s: State)
    requires s == State0() || s == State1() || s == State2()
    ensures CleanedView(s.t.ownetab, s.view, 2) == s.view
  {
    var v := CleanedView(s.t.ownetab, s.view, 2);
    assert CleanAt(s.t.ownetab, s.view, 2, 0) == s.view[0] && CleanAt(s.t.ownetab, s.view, 2, 1) == s.view[1];
    assert CleanAt(s.t.ownetab, s.view, 2, 2) == s.view[2] && CleanAt(s.t.ownetab, s.view, 2, 3) == s.view[3];
    assert forall q :: 0 <= q < 4 ==> v[q] == CleanAt(s.t.ownetab, s.view, 2, q);
    assert v == s.view;
  }

  lemma SearchOfTwo(view: seq<seq<Item>>, timer: seq<real>, time: seq<real>)
    requires |view| == 4 && |timer| == 2
    ensures Search(view, timer, time, 2)
            == SearchNext(view, timer, time, 1, SearchNext(view, timer, time, 0, Choice(-1, -1, 0.0, 0.0, false)))
  {
    assert Search(view, timer, time, 1) == SearchNext(view, timer, time, 0, Search(view, timer, time, 0));
  }

  lemma AllChosen()
    requires ValidProblem(Pb()) && Whole(Pb(), State0()) && Whole(Pb(), State1()) && Whole(Pb(), State2())
    ensures Chosen(Pb(), State0().view, Tables0(), 1, 1) && Chosen(Pb(), State1().view, Tables1(), 0, 0)
    ensures Chosen(Pb(), State2().view, Tables2(), 3, 1)
  {
    SearchOfTwo(State0().view, Tables0().timer, Tables0().time);
    SearchOfTwo(State1().view, Tables1().timer, Tables1().time);
    SearchOfTwo(State2().view, Tables2().timer, Tables2().time);
  }

  lemma FirstPut(m: Marks)
    requires ValidProblem(Pb())
    requires m == Marks([0, 0, 0, 0, 1, 0], [0, 0, 1, 0], Tables1().time, [0.0, 1.0], [[Waiting(0)], [], [], []])
    ensures Fits(Pb(), m) && Put(Pb(), m, 3) == Ended(State1())
  {
    PutIs(m, 3, 1);
    OnlyItem(Waiting(3));
  }

  /** Processor pr has a task once the heads are cleaned. */
  ghost predicate Startable(s: State, pr: int) {
    && 0 <= pr < |s.t.timer| && |s.view| == 2 * |s.t.timer|
    && HeadTask(CleanedView(s.t.ownetab, s.view, |s.t.timer|), |s.t.timer|, pr) != -1
  }

  lemma FirstBegun()
    ensures Startable(State0(), 1)
    ensures Begun(State0(), 1, 0.0, true)
            == Marks([0, 0, 0, 0, 1, 1], [0, 0, 1, 1], Tables0().time, [0.0, 0.0], [[Waiting(0)], [], [], []])
  {
    NothingToClean(State0());
    OnlyItem(Waiting(1));
  }

  lemma FirstCounted(m: Marks)
    requires m == Marks([0, 0, 0, 0, 1, 1], [0, 0, 1, 1], Tables0().time, [0.0, 0.0], [[Waiting(0)], [], [], []])
    ensures Counted(m.(timer := m.timer[1 := 1.0]), 1, 1.0)
            == Marks([0, 0, 0, 0, 1, 0], [0, 0, 1, 0], Tables1().time, [0.0, 1.0], [[Waiting(0)], [], [], []])
  {
  }

  lemma FirstRows(m: Marks)
    requires ValidProblem(Pb())
    requires m == Marks([0, 0, 0, 0, 1, 1], [0, 0, 1, 1], Tables0().time, [0.0, 0.0], [[Waiting(0)], [], [], []])
    ensures Fits(Pb(), m) && Rows(Pb(), m, 1, 1, 4) == Ended(State1())
  {
    RowsOfTwo(m, 1, 1, 1.0);
    FirstCounted(m);
    FirstPut(Counted(m.(timer := m.timer[1 := 1.0]), 1, 1.0));
  }

  lemma FirstComputes()
    requires ValidProblem(Pb())
    ensures Startable(State0(), 1) && Fits(Pb(), Begun(State0(), 1, 0.0, true))
    ensures Rows(Pb(), Begun(State0(), 1, 0.0, true), 1, 1, 4) == Ended(State1())
  {
    FirstBegun();
    FirstRows(Begun(State0(), 1, 0.0, true));
  }

  lemma SecondPut(m: Marks)
    requires ValidProblem(Pb())
    requires m == Marks([0, 0, 0, 0, 0, 0], [0, 0, 0, 0], Time(), [10.0, 1.0], [[], [Waiting(3)], [], []])
    ensures Fits(Pb(), m) && Put(Pb(), m, 2) == Ended(State2())
  {
    PutIs(m, 2, 1);
    OnlyItem(Late());
  }

  lemma SecondBegun()
    ensures Startable(State1(), 0)
    ensures Begun(State1(), 0, 0.0, true)
            == Marks([0, 0, 0, 0, 1, 0], [0, 0, 1, 0], Tables1().time, [0.0, 1.0], [[], [Waiting(3)], [], []])
  {
    NothingToClean(State1());
    OnlyItem(Waiting(0));
  }

  lemma SecondCounted(m: Marks)
    requires m == Marks([0, 0, 0, 0, 1, 0], [0, 0, 1, 0], Tables1().time, [0.0, 1.0], [[], [Waiting(3)], [], []])
    ensures Counted(m.(timer := m.timer[0 := 10.0]), 0, 10.0)
            == Marks([0, 0, 0, 0, 0, 0], [0, 0, 0, 0], Time(), [10.0, 1.0], [[], [Waiting(3)], [], []])
  {
  }

  lemma SecondRows(m: Marks)
    requires ValidProblem(Pb())
    requires m == Marks([0, 0, 0, 0, 1, 0], [0, 0, 1, 0], Tables1().time, [0.0, 1.0], [[], [Waiting(3)], [], []])
    ensures Fits(Pb(), m) && Rows(Pb(), m, 0, 0, 2) == Ended(State2())
  {
    RowsOfTwo(m, 0, 0, 10.0);
    SecondCounted(m);
    SecondPut(Counted(m.(timer := m.timer[0 := 10.0]), 0, 10.0));
  }

  lemma SecondComputes()
    requires ValidProblem(Pb())
    ensures Startable(State1(), 0) && Fits(Pb(), Begun(State1(), 0, 0.0, true))
    ensures Rows(Pb(), Begun(State1(), 0, 0.0, true), 0, 0, 2) == Ended(State2())
  {
    SecondBegun();
    SecondRows(Begun(State1(), 0, 0.0, true));
  }

  lemma ThirdComputes()
    requires ValidProblem(Pb())
    ensures Startable(State2(), 1) && Fits(Pb(), Begun(State2(), 1, 1.0, true))
    ensures Rows(Pb(), Begun(State2(), 1, 1.0, true), 3, 1, 6) == Ended(State3())
  {
    NothingToClean(State2());
    var m := Begun(State2(), 1, 1.0, true);
    OnlyItem(Waiting(3));
    assert m == Marks([0, 0, 0, 0, 0, 0], [0, 0, 0, 0], Time(), [10.0, 1.0], [[], [], [], [Late()]]);
    assert Rows(Pb(), m, 3, 1, 6) == m.(timer := [10.0, 2.0]);
  }

  lemma AllExecute()
    requires ValidProblem(Pb())
    ensures Executes(Pb(), true, State0(), State1(), 1, 1) && Executes(Pb(), true, State1(), State2(), 0, 0)
    ensures Executes(Pb(), true, State2(), State3(), 3, 1)
  {
    AllWhole();
    AllChosen();
    NothingToClean(State0());
    NothingToClean(State1());
    NothingToClean(State2());
    FirstRuns();
    FirstComputes();
    SecondRuns();
    SecondComputes();
    ThirdRuns();
    ThirdComputes();
  }

  lemma NothingMoves()
    ensures MoveAll(Pb(), State1().view, 1) == State1().view && MoveAll(Pb(), State2().view, 0) == State2().view
  {
  }

  /** The first three turns of a run: 1, 0 and 3 execute, the future heap of their processor being
      empty after the first two. */
  lemma RunSoFar()
    ensures ValidProblem(Pb()) && Starts(Pb(), State0())
    ensures TurnOk(Pb(), true, State0(), Turn(1, 1, State1()), State1())
    ensures TurnOk(Pb(), true, State1(), Turn(0, 0, State2()), State2())
    ensures TurnOk(Pb(), true, State2(), Turn(3, 1, State3()), Viewing(State3(), MoveAll(Pb(), State3().view, 1)))
  {
    PbIsValid();
    StartsHere();
    AllExecute();
    NothingMoves();
  }

  lemma LateHeld()
    ensures Elts([Late()]) == multiset{2} && Elts([]) == multiset{}
  {
    assert EltSeq([Late()]) == [2] && EltSeq([]) == [];
  }

  lemma LateQueues()
    ensures QueuesOk(Pb().cand, State3().cblkctrb, Done(Owners()), State3().view, 2)
  {
    var s := State3();
    LateHeld();
    forall p, t | 0 <= p < 2 ensures HeldOk(Pb().cand, s.cblkctrb, Done(Owners()), Held(s.view, 2, p), p, t) {
      assert Held(s.view, 2, p) == if p == 1 then multiset{2} else multiset{};
    }
  }

  lemma LateKeys()
    ensures KeysOk(Pb(), Time(), State3().view)
  {
    forall q | 0 <= q < 4 ensures HeapKeys(Pb(), Time(), State3().view[q], q >= 2) { }
  }

  /** In the last state of the run everything that the main loop keeps holds. */
  lemma LateKeeps()
    ensures Keeps(Pb(), State3())
  {
    TablesSoFar();
    CountersAre(Done(Owners()), State3().blokctrb, State3().cblkctrb);
    LateQueues();
    LateKeys();
  }

  lemma MovesTwo()
    ensures MoveAll(Pb(), State3().view, 1) == [[], [Waiting(2)], [], []]
  {
    var view := State3().view;
    OnlyItem(Late());
    OnlyItem(Waiting(2));
    assert MoveOne(Pb(), view, 1) == [[], [Waiting(2)], [], []];
  }

  /** The call of simu_pushToReadyHeap after 3 has run: 2 moves to the ready heap at clock 2,
      although its date is 10. */
  lemma LateTaskMoves()
    ensures Starts(Pb(), State0()) && TurnOk(Pb(), true, State0(), Turn(1, 1, State1()), State1())
    ensures TurnOk(Pb(), true, State1(), Turn(0, 0, State2()), State2())
    ensures TurnOk(Pb(), true, State2(), Turn(3, 1, State3()), Viewing(State3(), [[], [Waiting(2)], [], []]))
    ensures Keeps(Pb(), State3())
    ensures State3().t.time[2] > State3().t.timer[1]
    ensures !MovesDueOnly(Pb(), State3().t.time, State3().t.timer, State3().view, 1)
  {
    RunSoFar();
    LateKeeps();
    MovesTwo();
    var s := State3();
    MovesDueOnlyWhen(Pb(), s.t.time, s.t.timer, s.view, 1);
    assert s.view[3][0].key1 > s.t.timer[1];
  }
}

/** The main loop of blend/simu_run.c as a run of turns: the state of the simulation, what one
    turn makes of it, and what a whole run is. */
module Turns {
  import opened Queue
  import opened SymbolMatrix
  import opened Contributions
  import opened Schedule
  import opened Makespan

  /** The tables of the schedule. */
  datatype Tables = Tables(ownetab: seq<int>, prionum: seq<int>, next: int, tasktab: seq<seq<int>>,
                           time: seq<real>, start: seq<real>, timer: seq<real>)

  /** The whole state: tables, counters and heaps. */
  datatype State = State(t: Tables, blokctrb: seq<int>, cblkctrb: seq<int>, view: seq<seq<Item>>)

  ghost predicate Sized(pb: Problem, r: Tables) {
    |r.ownetab| == |r.prionum| == |r.time| == |r.start| == |pb.cand| && |r.tasktab| == |r.timer| == pb.nbcores
  }

  /** What the main loop keeps of the tables. */
  ghost predicate HistoryHolds(pb: Problem, r: Tables) {
    HistoryOk(pb, r.ownetab, r.prionum, r.next, r.tasktab, r.time, r.start, r.timer)
  }

  /** Task c runs on processor pr from date st. */
  ghost predicate Runs(pb: Problem, r: Tables, u: Tables, c: int, pr: int, st: real)
    requires ValidProblem(pb) && Sized(pb, r) && 0 <= c < |pb.cand| && 0 <= pr < pb.nbcores && CblkOk(pb.symb, c)
  {
    && r.ownetab[c] == -1 && st == MaxReal(r.timer[pr], r.time[c])
    && u.ownetab == r.ownetab[c := pr] && u.prionum == r.prionum[c := r.next] && u.next == r.next + 1
    && u.tasktab == r.tasktab[pr := r.tasktab[pr] + [c]] && u.time == RaisedTimes(pb, r.time, c, st, pb.symb.Last(c))
    && u.start == r.start[c := st] && u.timer == r.timer[pr := st + TaskCost(pb, c)]
  }

  // ----- One task -----

  /** What simu_computeTask changes. */
  datatype Marks = Marks(blokctrb: seq<int>, cblkctrb: seq<int>, time: seq<real>, timer: seq<real>,
                         view: seq<seq<Item>>)

  ghost predicate Fits(pb: Problem, m: Marks) {
    && ValidProblem(pb) && |m.blokctrb| == |pb.symb.bloktab| && |m.cblkctrb| == |m.time| == |pb.cand|
    && |m.timer| == pb.nbcores && |m.view| == 2 * pb.nbcores
  }

  ghost function Put(pb: Problem, m: Marks, t: int): (n: Marks)
    requires Fits(pb, m) && 0 <= t < |pb.cand|
    ensures Fits(pb, n)
  {
    m.(view := PutUpTo(pb, m.timer, m.time, m.view, t, pb.cand[t].fcandnum, pb.cand[t].lcandnum + 1))
  }

  ghost function PutWhenReady(pb: Problem, m: Marks, t: int): (n: Marks)
    requires Fits(pb, m) && 0 <= t < |pb.cand|
    ensures Fits(pb, n)
  {
    if m.cblkctrb[t] == 0 then Put(pb, m, t) else m
  }

  /** One update of block f of column block d, at the given date. */
  ghost function Updated(pb: Problem, m: Marks, d: int, f: int, date: real): (n: Marks)
    requires Fits(pb, m) && 0 <= d < |pb.cand| && 0 <= f < |pb.symb.bloktab|
    ensures Fits(pb, n)
  {
    PutWhenReady(pb, m.(blokctrb := m.blokctrb[f := m.blokctrb[f] - 1], cblkctrb := m.cblkctrb[d := m.cblkctrb[d] - 1],
                      time := Raise(m.time, d, date)), d)
  }

  /** The update of the pair (j, k) of column block i, which pr computes. */
  ghost function Pair(pb: Problem, m: Marks, i: int, pr: int, j: int, k: int): (n: Marks)
    requires Fits(pb, m) && 0 <= pr < pb.nbcores && UpdatePair(pb.symb, i, j, k)
    ensures Fits(pb, n)
  {
    PairInRange(pb.symb, i, j, k);
    var f := Facing(pb.symb, j, k);
    if f < 0 then m else Updated(pb, m, pb.symb.bloktab[j].fcblknm, f, m.timer[pr])
  }

  /** The pairs (j, j), ..., (j, k - 1). */
  ghost function Row(pb: Problem, m: Marks, i: int, pr: int, j: int, k: int): (n: Marks)
    requires Fits(pb, m) && 0 <= pr < pb.nbcores && 0 <= i < pb.symb.CblkNbr()
    requires pb.symb.First(i) < j <= k <= pb.symb.Last(i)
    ensures Fits(pb, n)
    decreases k - j
  {
    if k == j then m else Pair(pb, Row(pb, m, i, pr, j, k - 1), i, pr, j, k - 1)
  }

  /** The cost of block b passes on processor pr. */
  ghost function Costs(pb: Problem, m: Marks, pr: int, b: int): (n: Marks)
    requires Fits(pb, m) && 0 <= pr < pb.nbcores && 0 <= b < |pb.symb.bloktab|
    ensures Fits(pb, n)
  {
    m.(timer := m.timer[pr := m.timer[pr] + pb.blokcost[b]])
  }

  /** The diagonal block and the off-diagonal blocks before j, each after its cost. */
  ghost function Rows(pb: Problem, m: Marks, i: int, pr: int, j: int): (n: Marks)
    requires Fits(pb, m) && 0 <= pr < pb.nbcores && 0 <= i < pb.symb.CblkNbr()
    requires pb.symb.First(i) < j <= pb.symb.Last(i)
    ensures Fits(pb, n)
    decreases j
  {
    assert ValidColumn(pb.symb, i);
    if j == pb.symb.First(i) + 1 then Costs(pb, m, pr, j - 1)
    else Row(pb, Costs(pb, Rows(pb, m, i, pr, j - 1), pr, j - 1), i, pr, j - 1, pb.symb.Last(i))
  }

  /** The marks m are those after the pairs of block j before (j, k), or after the blocks before b. */
  ghost predicate RowDone(pb: Problem, m0: Marks, m: Marks, i: int, pr: int, j: int, k: int) {
    && Fits(pb, m0) && Fits(pb, m) && 0 <= pr < pb.nbcores && 0 <= i < pb.symb.CblkNbr()
    && pb.symb.First(i) < j <= k <= pb.symb.Last(i) && m == Row(pb, m0, i, pr, j, k)
  }
  ghost predicate RowsDone(pb: Problem, m0: Marks, m: Marks, i: int, pr: int, b: int) {
    && Fits(pb, m0) && Fits(pb, m) && 0 <= pr < pb.nbcores && 0 <= i < pb.symb.CblkNbr()
    && pb.symb.First(i) < b <= pb.symb.Last(i) && m == Rows(pb, m0, i, pr, b)
  }

  lemma RowGoesOn(pb: Problem, m0: Marks, m: Marks, n: Marks, i: int, pr: int, j: int, k: int, next: int)
    requires RowDone(pb, m0, m, i, pr, j, k) && k < next == k + 1 <= pb.symb.Last(i) && n == Pair(pb, m, i, pr, j, k)
    ensures RowDone(pb, m0, n, i, pr, j, next)
  {
  }

  lemma RowsGoOn(pb: Problem, m0: Marks, m: Marks, n: Marks, i: int, pr: int, b: int, next: int)
    requires RowsDone(pb, m0, m, i, pr, b) && b < next == b + 1 <= pb.symb.Last(i)
    requires 0 <= b < |pb.symb.bloktab| && n == Row(pb, Costs(pb, m, pr, b), i, pr, b, pb.symb.Last(i))
    ensures RowsDone(pb, m0, n, i, pr, next)
  {
  }

  ghost function Ended(s: State): Marks { Marks(s.blokctrb, s.cblkctrb, s.t.time, s.t.timer, s.view) }

  ghost predicate Whole(pb: Problem, s: State) { Sized(pb, s.t) && Fits(pb, Ended(s)) }

  // ----- The choice of a task -----

  /** A heap without the tasks already mapped at its head. */
  function Cleaned(ownetab: seq<int>, h: seq<Item>): (r: seq<Item>)
    decreases |h|
  {
    if h == [] || !(0 <= h[0].elt < |ownetab|) || ownetab[h[0].elt] < 0 then h else Cleaned(ownetab, Popped(h))
  }

  /** The ready heaps are cleaned, and the future heap of a processor once its ready heap is empty. */
  function CleanAt(ownetab: seq<int>, view: seq<seq<Item>>, P: int, q: int): (r: seq<Item>)
    requires |view| == 2 * P && 0 <= q < 2 * P
  {
    if q < P || Cleaned(ownetab, view[q - P]) == [] then Cleaned(ownetab, view[q]) else view[q]
  }

  function CleanedView(ownetab: seq<int>, view: seq<seq<Item>>, P: int): (r: seq<seq<Item>>)
    requires |view| == 2 * P
    ensures |r| == 2 * P && forall q :: 0 <= q < 2 * P ==> r[q] == CleanAt(ownetab, view, P, q)
  {
    seq(2 * P, q requires 0 <= q < 2 * P => CleanAt(ownetab, view, P, q))
  }

  /** The choice among the processors before n, with its two comparisons. */
  ghost function Search(view: seq<seq<Item>>, timer: seq<real>, time: seq<real>, n: int): (best: Choice)
    requires |view| == 2 * |timer| && 0 <= n <= |timer|
    decreases n
  {
    if n == 0 then Choice(-1, -1, 0.0, 0.0, false)
    else SearchNext(view, timer, time, n - 1, Search(view, timer, time, n - 1))
  }

  ghost function SearchNext(view: seq<seq<Item>>, timer: seq<real>, time: seq<real>, p: int, best: Choice): Choice
    requires |view| == 2 * |timer| && 0 <= p < |timer|
  {
    var h := HeadTask(view, |timer|, p);
    if 0 <= h < |time| then Consider(best, p, h, ReadyTime(timer, time, p, h), timer[p]) else best
  }

  /** c heads a heap of pr, no head can start earlier, and among the couples with the earliest date the
      search prefers this one. */
  ghost predicate Chosen(pb: Problem, view: seq<seq<Item>>, r: Tables, c: int, pr: int)
    requires Sized(pb, r) && |view| == 2 * pb.nbcores
  {
    && 0 <= c < |pb.cand| && 0 <= pr < pb.nbcores && HeadTask(view, pb.nbcores, pr) == c
    && (forall p :: 0 <= p < pb.nbcores ==>
          NotBefore(view, r.timer, r.time, r.ownetab, p, ReadyTime(r.timer, r.time, pr, c)))
    && Search(view, r.timer, r.time, pb.nbcores).task == c && Search(view, r.timer, r.time, pb.nbcores).proc == pr
  }

  /** The head of pr leaves its heap. */
  function WithoutHead(view: seq<seq<Item>>, P: int, pr: int): (r: seq<seq<Item>>)
    requires |view| == 2 * P && 0 <= pr < P && (view[pr] != [] || view[P + pr] != [])
    ensures |r| == |view|
  {
    var q := if view[pr] != [] then pr else P + pr;
    view[q := Popped(view[q])]
  }

  /** The heaps after a search that chose a task of pr. */
  ghost function Searched(ownetab: seq<int>, view: seq<seq<Item>>, P: int, pr: int, eagerPop: bool): seq<seq<Item>>
    requires |view| == 2 * P && 0 <= pr < P && HeadTask(CleanedView(ownetab, view, P), P, pr) != -1
  {
    var v := CleanedView(ownetab, view, P);
    if eagerPop then WithoutHead(v, P, pr) else v
  }

  /** The comparison of the clocks knows no clock before the first tie: of two processors that could
      start a task at the same date the second one is chosen, whatever their clocks are. */
  lemma SecondWinsTie(view: seq<seq<Item>>, timer: seq<real>, time: seq<real>)
    requires |view| == 2 * |timer| && |timer| == 2
    requires 0 <= HeadTask(view, 2, 0) < |time| && 0 <= HeadTask(view, 2, 1) < |time|
    requires ReadyTime(timer, time, 0, HeadTask(view, 2, 0)) == ReadyTime(timer, time, 1, HeadTask(view, 2, 1))
    ensures Search(view, timer, time, 2).proc == 1 && Search(view, timer, time, 2).task == HeadTask(view, 2, 1)
  {
    assert Search(view, timer, time, 1) == SearchNext(view, timer, time, 0, Search(view, timer, time, 0));
  }

  // ----- Turns and runs -----

  /** One turn up to the call of simu_pushToReadyHeap: c is chosen for pr once the heads of the heaps
      are not mapped, and runs when its contributions and its processor are there. */
  ghost predicate Executes(pb: Problem, eagerPop: bool, s: State, u: State, c: int, pr: int) {
    && Whole(pb, s) && Whole(pb, u) && 0 <= c < |pb.cand| && CblkOk(pb.symb, c)
    && Chosen(pb, CleanedView(s.t.ownetab, s.view, pb.nbcores), s.t, c, pr)
    && Runs(pb, s.t, u.t, c, pr, MaxReal(s.t.timer[pr], s.t.time[c]))
    && Rows(pb, Begun(s, pr, MaxReal(s.t.timer[pr], s.t.time[c]), eagerPop), c, pr, pb.symb.Last(c)) == Ended(u)
  }

  /** The marks when a task starts on pr at date st. */
  ghost function Begun(s: State, pr: int, st: real, eagerPop: bool): Marks
    requires 0 <= pr < |s.t.timer| && |s.view| == 2 * |s.t.timer|
    requires HeadTask(CleanedView(s.t.ownetab, s.view, |s.t.timer|), |s.t.timer|, pr) != -1
  {
    Marks(s.blokctrb, s.cblkctrb, s.t.time, s.t.timer[pr := st],
          Searched(s.t.ownetab, s.view, |s.t.timer|, pr, eagerPop))
  }

  /** A turn of the main loop: the couple chosen, and the state before future tasks move. */
  datatype Turn = Turn(task: int, proc: int, ran: State)

  /** The future tasks of the processor move to its ready heap when the task has run. */
  ghost predicate TurnOk(pb: Problem, eagerPop: bool, s: State, x: Turn, u: State) {
    && Executes(pb, eagerPop, s, x.ran, x.task, x.proc)
    && u == x.ran.(view := MoveAll(pb, x.ran.view, x.proc))
  }

  /** The ready column blocks before k in the heaps of their candidates. */
  ghost function ReadyPushed(pb: Problem, m: Marks, k: int): (n: Marks)
    requires Fits(pb, m) && 0 <= k <= |pb.cand|
    ensures Fits(pb, n)
    decreases k
  {
    if k == 0 then m else PutWhenReady(pb, ReadyPushed(pb, m, k - 1), k - 1)
  }

  ghost function NoTables(pb: Problem): Tables
    requires ValidProblem(pb)
  {
    Tables(seq(|pb.cand|, _ => -1), seq(|pb.cand|, _ => -1), 0, seq(pb.nbcores, _ => []), seq(|pb.cand|, _ => 0.0),
           seq(|pb.cand|, _ => 0.0), seq(pb.nbcores, _ => 0.0))
  }

  /** The state when the main loop starts: nothing has run, the counters count all the updates, and
      the tasks without contributions are in the heaps of their candidates. */
  ghost predicate Starts(pb: Problem, s: State) {
    && Whole(pb, s) && s.t == NoTables(pb) && CountsOk(pb.symb, Done(s.t.ownetab), s.blokctrb)
    && SumsOk(pb.symb, s.blokctrb, s.cblkctrb)
    && s.view == ReadyPushed(pb, Ended(s).(view := seq(2 * pb.nbcores, _ => [])), |pb.cand|).view
  }

  /** No processor has a task left. */
  ghost predicate Finished(pb: Problem, s: State) {
    && Whole(pb, s)
    && forall p :: 0 <= p < pb.nbcores ==>
         HeadTask(CleanedView(s.t.ownetab, s.view, pb.nbcores), pb.nbcores, p) == -1
  }

  /** A run: a turn between every two states. */
  datatype Run = Run(states: seq<State>, turns: seq<Turn>)

  ghost predicate RunOk(pb: Problem, eagerPop: bool, r: Run, s: State) {
    && |r.states| == |r.turns| + 1 && Starts(pb, r.states[0]) && r.states[|r.turns|] == s
    && forall k :: 0 <= k < |r.turns| ==> TurnAt(pb, eagerPop, r, k)
  }
  ghost predicate TurnAt(pb: Problem, eagerPop: bool, r: Run, k: int)
    requires 0 <= k < |r.turns| && |r.states| == |r.turns| + 1
  {
    TurnOk(pb, eagerPop, r.states[k], r.turns[k], r.states[k + 1])
  }

  function Longer(r: Run, x: Turn, u: State): Run { Run(r.states + [u], r.turns + [x]) }

  lemma RunGoesOn(pb: Problem, eagerPop: bool, r: Run, s: State, x: Turn, u: State)
    requires RunOk(pb, eagerPop, r, s) && TurnOk(pb, eagerPop, s, x, u)
    ensures RunOk(pb, eagerPop, Longer(r, x, u), u)
  {
    var l := Longer(r, x, u);
    forall k | 0 <= k < |l.turns| ensures TurnAt(pb, eagerPop, l, k) {
      if k < |r.turns| { assert TurnAt(pb, eagerPop, r, k); }
    }
  }

  lemma RunStarts(pb: Problem, eagerPop: bool, s: State)
    requires Starts(pb, s)
    ensures RunOk(pb, eagerPop, Run([s], []), s)
  {
  }

  /** A run that went on until no task was left, one turn for each task, and the tables it leaves. */
  ghost predicate RunEnds(pb: Problem, eagerPop: bool, r: Run, t: Tables) {
    && |r.states| == |r.turns| + 1 && RunOk(pb, eagerPop, r, r.states[|r.turns|])
    && Finished(pb, r.states[|r.turns|]) && r.states[|r.turns|].t == t && |r.turns| == |pb.cand|
  }

  lemma RunStops(pb: Problem, eagerPop: bool, r: Run, s: State, t: Tables)
    requires RunOk(pb, eagerPop, r, s) && Finished(pb, s) && s.t == t && |r.turns| == |pb.cand|
    ensures RunEnds(pb, eagerPop, r, t)
  {
  }

  /** A state with other heaps; marks with another clock. */
  function Viewing(s: State, view: seq<seq<Item>>): State { s.(view := view) }

  function Later(m: Marks, pr: int, date: real): Marks
    requires 0 <= pr < |m.timer|
  {
    m.(timer := m.timer[pr := date])
  }

  /** The state s0 after the search that chose c for pr. */
  ghost predicate SearchGave(pb: Problem, eagerPop: bool, s: State, s0: State, c: int, pr: int) {
    && Whole(pb, s) && Whole(pb, s0) && Viewing(s0, s.view) == s && 0 <= c < |pb.cand| && 0 <= pr < pb.nbcores
    && Chosen(pb, CleanedView(s.t.ownetab, s.view, pb.nbcores), s.t, c, pr)
    && s0.view == Searched(s.t.ownetab, s.view, pb.nbcores, pr, eagerPop)
  }

  lemma TaskExecutes(pb: Problem, eagerPop: bool, s: State, s0: State, u: State, c: int, pr: int)
    requires SearchGave(pb, eagerPop, s, s0, c, pr) && Whole(pb, u) && CblkOk(pb.symb, c)
    requires Runs(pb, s0.t, u.t, c, pr, MaxReal(s0.t.timer[pr], s0.t.time[c]))
    requires Ended(u) == Rows(pb, Later(Ended(s0), pr, MaxReal(s0.t.timer[pr], s0.t.time[c])), c, pr, pb.symb.Last(c))
    ensures Executes(pb, eagerPop, s, u, c, pr)
  {
    var st := MaxReal(s.t.timer[pr], s.t.time[c]);
    assert Begun(s, pr, st, eagerPop) == Later(Ended(s0), pr, st);
  }

  ghost predicate PushedSoFar(pb: Problem, m0: Marks, m: Marks, k: int) {
    Fits(pb, m0) && Fits(pb, m) && 0 <= k <= |pb.cand| && m == ReadyPushed(pb, m0, k)
  }

  lemma PushedNext(pb: Problem, m0: Marks, m: Marks, n: Marks, k: int, next: int)
    requires PushedSoFar(pb, m0, m, k) && k < next == k + 1 <= |pb.cand| && n == PutWhenReady(pb, m, k)
    ensures PushedSoFar(pb, m0, n, next)
  {
  }

  /** The history after a task has run. */
  lemma OneStep(pb: Problem, r: Tables, u: Tables, c: int, pr: int, st: real)
    requires ValidProblem(pb) && Sized(pb, r) && HistoryHolds(pb, r) && 0 <= c < |pb.cand| && 0 <= pr < pb.nbcores
             && CblkOk(pb.symb, c)
    requires Runs(pb, r, u, c, pr, st)
    requires forall i, j :: Edge(pb.symb, i, j, c) ==> Done(r.ownetab)[i]
    ensures HistoryHolds(pb, u) && Sized(pb, u) && r.next < |pb.cand|
  {
    HistoryStep(pb, r.ownetab, r.prionum, r.next, r.tasktab, r.time, r.start, r.timer, c, pr, st);
  }

  lemma HistoryGoesOn(pb: Problem, eagerPop: bool, s: State, u: State, c: int, pr: int)
    requires HistoryHolds(pb, s.t) && Executes(pb, eagerPop, s, u, c, pr)
    requires forall i, j :: Edge(pb.symb, i, j, c) ==> Done(s.t.ownetab)[i]
    ensures HistoryHolds(pb, u.t) && u.t.ownetab == s.t.ownetab[c := pr] && u.t.next == s.t.next + 1 <= |pb.cand|
  {
    OneStep(pb, s.t, u.t, c, pr, MaxReal(s.t.timer[pr], s.t.time[c]));
  }

  // ----- The search, heap by heap -----

  /** The heaps of the processors before p are cleaned, the others are as they were. */
  ghost predicate CleanedTo(ownetab: seq<int>, before: seq<seq<Item>>, view: seq<seq<Item>>, P: int, p: int) {
    && |before| == |view| == 2 * P && 0 <= p <= P
    && (forall r :: 0 <= r < P ==> BothAre(ownetab, before, view, P, r, p))
  }
  ghost predicate BothAre(ownetab: seq<int>, before: seq<seq<Item>>, view: seq<seq<Item>>, P: int, r: int, p: int)
    requires |before| == |view| == 2 * P && 0 <= r < P
  {
    if r < p then view[r] == CleanAt(ownetab, before, P, r) && view[P + r] == CleanAt(ownetab, before, P, P + r)
    else view[r] == before[r] && view[P + r] == before[P + r]
  }

  lemma NoneCleaned(ownetab: seq<int>, view: seq<seq<Item>>, P: int)
    requires |view| == 2 * P && 0 <= P
    ensures CleanedTo(ownetab, view, view, P, 0)
  {
  }

  /** The heaps of p, as the search leaves them. */
  function OneClean(ownetab: seq<int>, view: seq<seq<Item>>, P: int, p: int): (r: seq<seq<Item>>)
    requires |view| == 2 * P && 0 <= p < P
    ensures |r| == 2 * P
  {
    view[p := CleanAt(ownetab, view, P, p)][P + p := CleanAt(ownetab, view, P, P + p)]
  }

  /** The future heap is cleaned when the ready heap is empty. */
  lemma CleanedBoth(ownetab: seq<int>, view: seq<seq<Item>>, after: seq<seq<Item>>, P: int, p: int)
    requires |view| == 2 * P && 0 <= p < P
    requires var v := view[p := Cleaned(ownetab, view[p])];
             after == if v[p] == [] then v[P + p := Cleaned(ownetab, v[P + p])] else v
    ensures after == OneClean(ownetab, view, P, p)
  {
  }

  lemma CleanedNext(ownetab: seq<int>, before: seq<seq<Item>>, view: seq<seq<Item>>, P: int, p: int, next: int)
    requires CleanedTo(ownetab, before, view, P, p) && p < next == p + 1 <= P
    ensures CleanedTo(ownetab, before, OneClean(ownetab, view, P, p), P, next)
  {
    var after := OneClean(ownetab, view, P, p);
    assert BothAre(ownetab, before, view, P, p, p);
    forall r | 0 <= r < P ensures BothAre(ownetab, before, after, P, r, next) {
      assert BothAre(ownetab, before, view, P, r, p);
    }
  }

  lemma AllCleaned(ownetab: seq<int>, before: seq<seq<Item>>, view: seq<seq<Item>>, P: int)
    requires CleanedTo(ownetab, before, view, P, P)
    ensures view == CleanedView(ownetab, before, P)
  {
    var v := CleanedView(ownetab, before, P);
    forall q | 0 <= q < 2 * P ensures view[q] == v[q] {
      var r := if q < P then q else q - P;
      assert BothAre(ownetab, before, view, P, r, P);
    }
  }

  /** A search looks at the heads of the processors it has seen. */
  lemma {:induction false} SearchSame(view: seq<seq<Item>>, after: seq<seq<Item>>, timer: seq<real>, time: seq<real>,
                                      n: int)
    requires |view| == |after| == 2 * |timer| && 0 <= n <= |timer|
    requires forall r :: 0 <= r < n ==> HeadTask(view, |timer|, r) == HeadTask(after, |timer|, r)
    ensures Search(after, timer, time, n) == Search(view, timer, time, n)
    decreases n
  {
    if n > 0 { SearchSame(view, after, timer, time, n - 1); }
  }

  /** One more processor. */
  lemma SearchGoesOn(view: seq<seq<Item>>, after: seq<seq<Item>>, timer: seq<real>, time: seq<real>, p: int, next: int)
    requires |view| == |after| == 2 * |timer| && 0 <= p < next == p + 1 <= |timer|
    requires forall r :: 0 <= r < |timer| && r != p ==> HeadTask(after, |timer|, r) == HeadTask(view, |timer|, r)
    ensures Search(after, timer, time, next) == SearchNext(after, timer, time, p, Search(view, timer, time, p))
  {
    SearchSame(view, after, timer, time, p);
  }

  /** The best couple of the processors before n, if any of them has a task. */
  ghost predicate Best(pb: Problem, view: seq<seq<Item>>, timer: seq<real>, time: seq<real>, ownetab: seq<int>,
                       best: Choice, n: int)
  {
    && |timer| == pb.nbcores && |view| == 2 * pb.nbcores && |ownetab| == |time| == |pb.cand| && 0 <= n <= pb.nbcores
    && best == Search(view, timer, time, n)
    && (best.task == -1 ==> forall r :: 0 <= r < n ==> HeadTask(view, |timer|, r) == -1)
    && (best.task != -1 ==>
          && 0 <= best.proc < n && HeadTask(view, |timer|, best.proc) == best.task
          && 0 <= best.task < |pb.cand| && ownetab[best.task] < 0
          && best.ready == ReadyTime(timer, time, best.proc, best.task))
    && forall r :: 0 <= r < n ==> NotBefore(view, timer, time, ownetab, r, best.ready)
  }

  /** One processor more, whose heaps were cleaned. */
  lemma BestNext(pb: Problem, ownetab: seq<int>, view: seq<seq<Item>>, after: seq<seq<Item>>, timer: seq<real>,
                 time: seq<real>, p: int, next: int, was: Choice, best: Choice, h: int)
    requires Best(pb, view, timer, time, ownetab, was, p) && p < next == p + 1 <= pb.nbcores
    requires after == OneClean(ownetab, view, pb.nbcores, p) && h == HeadTask(after, pb.nbcores, p)
    requires h != -1 ==> 0 <= h < |pb.cand| && ownetab[h] < 0
    requires best == if h == -1 then was else Consider(was, p, h, ReadyTime(timer, time, p, h), timer[p])
    ensures Best(pb, after, timer, time, ownetab, best, next)
  {
    HeadsKept(view, after, pb.nbcores, p);
    SearchGoesOn(view, after, timer, time, p, next);
    NotBeforeKept(view, after, timer, time, ownetab, p, was.ready, best.ready);
  }

  lemma BestIsChosen(pb: Problem, eagerPop: bool, s: State, s0: State, view: seq<seq<Item>>, best: Choice)
    requires Whole(pb, s) && Whole(pb, s0) && Viewing(s0, s.view) == s && best.task != -1
    requires view == CleanedView(s.t.ownetab, s.view, pb.nbcores)
    requires Best(pb, view, s.t.timer, s.t.time, s.t.ownetab, best, pb.nbcores)
    requires s0.view == if eagerPop then WithoutHead(view, pb.nbcores, best.proc) else view
    ensures SearchGave(pb, eagerPop, s, s0, best.task, best.proc)
  {
  }

  lemma NoneIsFinished(pb: Problem, s: State, view: seq<seq<Item>>, best: Choice)
    requires Whole(pb, s) && view == CleanedView(s.t.ownetab, s.view, pb.nbcores) && best.task == -1
    requires Best(pb, view, s.t.timer, s.t.time, s.t.ownetab, best, pb.nbcores)
    ensures Finished(pb, s)
  {
  }
}

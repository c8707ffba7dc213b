/** The fork-join protocol of common/isched.c and isched.h: one master (rank 0) and the
    worker threads, a generation barrier and a status word with its condition variable.
    One step of the model is one access of one thread to the shared state; a thread that
    waits on a condition has released the mutex and needs it again once woken. */
module Isched {

  /** A function and its arguments, as given to isched_parallel_call. */
  datatype Call = Call(func: int, args: int)

  datatype Action = StandBy | Parallel | Finalize

  /** Where a thread is inside isched_barrier_wait. */
  datatype Bar = Lock | Check | Bcast | Sleep | Wake | Test | Unlock

  /** Where a thread is in its own code; Init, Start and End are the three barrier calls. */
  datatype Stage =
    | Init | Start | End
    | MLock | MFunc | MArgs | MStatus | MUnlock | MBcast | MReset | MCall | MRunning | MJoin(core: int) | MDone
    | WLock | WRead | WSleep | WWake | WUnlock | WSwitch | WArgs | WRunning | WDone | WUndefined
  {
    predicate InBarrier() { Init? || Start? || End? }
  }

  /** saved is the generation read by the barrier, action and func what a worker read of the
      shared state. The number of barriers passed, the calls completed and the log are there
      for the proof. */
  datatype Thread = Thread(stage: Stage, bar: Bar, saved: int, action: Action, func: int, passed: int, n: int,
                           log: seq<Call>)

  datatype State = State(
    threads: seq<Thread>,
    mutex: int, curcount: int, generation: int,  // barrier; mutex is its holder or -1
    statuslock: int, status: Action, pfunc: int, pargs: int,
    calls: seq<Call>)  // what the master will call before it finalizes
  {
    function K(): int { |calls| }
    function N(): int { |threads| }
  }

  // ----- Steps -----

  predicate Enabled(s: State, t: int)
    requires 0 <= t < s.N()
  {
    var th := s.threads[t];
    if th.stage.InBarrier() then (th.bar.Lock? || th.bar.Wake? ==> s.mutex == -1) && !th.bar.Sleep?
    else match th.stage
      case MLock | WLock | WWake => s.statuslock == -1
      case MJoin(core) => core < s.N() ==> (0 <= core && s.threads[core].stage.WDone?)
      case WSleep | WDone | WUndefined | MDone => false
      case _ => true
  }

  /** Stage entered when a barrier call returns. */
  function AfterBarrier(th: Thread, master: bool): Thread {
    var passed := th.passed + 1;
    match th.stage
    case Start => th.(stage := if master then MReset else WSwitch, passed := passed)
    case End => th.(stage := if master then MLock else WLock, passed := passed, n := th.n + 1)
    case _ => th.(stage := if master then MLock else WLock, passed := passed)
  }

  function WakeBarrier(th: Thread): Thread {
    if th.stage.InBarrier() && th.bar.Sleep? then th.(bar := Wake) else th
  }

  function WakeStatus(th: Thread): Thread {
    if th.stage.WSleep? then th.(stage := WWake) else th
  }

  function All(threads: seq<Thread>, f: Thread -> Thread): (r: seq<Thread>)
    ensures |r| == |threads| && forall u :: 0 <= u < |r| ==> r[u] == f(threads[u])
  {
    seq(|threads|, u requires 0 <= u < |threads| => f(threads[u]))
  }

  /** isched_barrier_wait. */
  function BarrierStep(s: State, t: int): (r: State)
    requires 0 <= t < s.N() && s.threads[t].stage.InBarrier() && Enabled(s, t)
  {
    var th := s.threads[t];
    match th.bar
    case Lock => s.(mutex := t, threads := s.threads[t := th.(bar := Check)])
    case Check =>
      if s.curcount + 1 == s.N() then
        s.(generation := s.generation + 1, curcount := 0, threads := s.threads[t := th.(bar := Bcast)])
      else
        s.(curcount := s.curcount + 1, mutex := -1, threads := s.threads[t := th.(bar := Sleep, saved := s.generation)])
    case Bcast => s.(threads := All(s.threads, WakeBarrier)[t := th.(bar := Unlock)])
    case Wake => s.(mutex := t, threads := s.threads[t := th.(bar := Test)])
    case Test =>
      if th.saved != s.generation then s.(threads := s.threads[t := th.(bar := Unlock)])
      else s.(mutex := -1, threads := s.threads[t := th.(bar := Sleep)])
    case _ => s.(mutex := -1, threads := s.threads[t := AfterBarrier(th, t == 0)])
  }

  function Enter(th: Thread, stage: Stage): Thread {
    th.(stage := stage, bar := Lock)
  }

  /** isched_parallel_call for each call, then ischedFinalize. */
  function MasterStep(s: State): (r: State)
    requires 0 < s.N() && !s.threads[0].stage.InBarrier() && Enabled(s, 0)
  {
    var th := s.threads[0];
    var more := 0 <= th.n < s.K();
    match th.stage
    case MLock => s.(statuslock := 0, threads := s.threads[0 := th.(stage := if more then MFunc else MStatus)])
    case MFunc => s.(pfunc := if more then s.calls[th.n].func else s.pfunc,
                     threads := s.threads[0 := th.(stage := MArgs)])
    case MArgs => s.(pargs := if more then s.calls[th.n].args else s.pargs,
                     threads := s.threads[0 := th.(stage := MStatus)])
    case MStatus => s.(status := if more then Parallel else Finalize, threads := s.threads[0 := th.(stage := MUnlock)])
    case MUnlock => s.(statuslock := -1, threads := s.threads[0 := th.(stage := MBcast)])
    case MBcast => s.(threads := All(s.threads, WakeStatus)[0 := Enter(th, Start)])
    case MReset => s.(status := StandBy, threads := s.threads[0 := th.(stage := if more then MCall else MJoin(1))])
    case MCall => s.(threads :=
        s.threads[0 := th.(stage := MRunning, log := if more then th.log + [s.calls[th.n]] else th.log)])
    case MRunning => s.(threads := s.threads[0 := Enter(th, End)])
    case MJoin(core) => s.(threads := s.threads[0 := th.(stage := if core < s.N() then MJoin(core + 1) else MDone)])
    case _ => s
  }

  /** isched_parallel_section. */
  function WorkerStep(s: State, t: int): (r: State)
    requires 0 < t < s.N() && !s.threads[t].stage.InBarrier() && Enabled(s, t)
  {
    var th := s.threads[t];
    match th.stage
    case WLock => s.(statuslock := t, threads := s.threads[t := th.(stage := WRead)])
    case WRead =>
      if s.status == StandBy
          then s.(statuslock := -1, threads := s.threads[t := th.(stage := WSleep, action := s.status)])
      else s.(threads := s.threads[t := th.(stage := WUnlock, action := s.status)])
    case WWake => s.(statuslock := t, threads := s.threads[t := th.(stage := WRead)])
    case WUnlock => s.(statuslock := -1, threads := s.threads[t := Enter(th, Start)])
    case WSwitch =>
      if th.action == Parallel then
        s.(threads := s.threads[t := th.(stage := WArgs, func := s.pfunc)])
      else if th.action == Finalize then s.(threads := s.threads[t := th.(stage := WDone)])
      else s.(threads := s.threads[t := th.(stage := WUndefined)])
    case WArgs => s.(threads := s.threads[t := th.(stage := WRunning, log := th.log + [Call(th.func, s.pargs)])])
    case WRunning => s.(threads := s.threads[t := Enter(th, End)])
    case _ => s
  }

  function Step(s: State, t: int): (r: State)
    requires 0 <= t < s.N() && Enabled(s, t)
  {
    if s.threads[t].stage.InBarrier() then BarrierStep(s, t)
    else if t == 0 then MasterStep(s)
    else WorkerStep(s, t)
  }

  /** A waiting thread may wake up without any broadcast. */
  predicate CanWake(s: State, t: int)
    requires 0 <= t < s.N()
  {
    var th := s.threads[t];
    (th.stage.InBarrier() && th.bar.Sleep?) || th.stage.WSleep?
  }

  function Spurious(s: State, t: int): (r: State)
    requires 0 <= t < s.N() && CanWake(s, t)
  {
    s.(threads := s.threads[t := WakeStatus(WakeBarrier(s.threads[t]))])
  }

  /** ischedInit once the threads exist: everyone enters the first barrier. */
  function InitThread(): Thread {
    Thread(Init, Lock, 0, StandBy, 0, 0, 0, [])
  }

  predicate IsInit(s: State) {
    && s.N() >= 1 && (forall t :: 0 <= t < s.N() ==> s.threads[t] == InitThread())
    && s.mutex == -1 && s.curcount == 0 && s.generation == 0 && s.statuslock == -1 && s.status == StandBy
  }

  // ----- Invariant -----

  /** The thread counted itself in the current generation and has not been released. */
  predicate Waiting(th: Thread, generation: int) {
    th.stage.InBarrier() && (th.bar.Sleep? || th.bar.Wake? || th.bar.Test?) && th.saved == generation
  }

  function Waits(th: Thread, generation: int): int { if Waiting(th, generation) then 1 else 0 }

  function CountWaiting(threads: seq<Thread>, generation: int, k: int): (c: int)
    requires 0 <= k <= |threads|
    ensures 0 <= c <= k
    decreases k
  {
    if k == 0 then 0
    else CountWaiting(threads, generation, k - 1) + Waits(threads[k - 1], generation)
  }

  predicate HoldsMutex(th: Thread) {
    th.stage.InBarrier() && (th.bar.Check? || th.bar.Bcast? || th.bar.Test? || th.bar.Unlock?)
  }

  predicate HoldsStatus(th: Thread) {
    th.stage.MFunc? || th.stage.MArgs? || th.stage.MStatus? || th.stage.MUnlock? || th.stage.WRead? || th.stage.WUnlock?
  }

  predicate RoleOk(stage: Stage, master: bool) {
    stage.InBarrier()
    || (stage.MLock? || stage.MFunc? || stage.MArgs? || stage.MStatus? || stage.MUnlock? || stage.MBcast?
        || stage.MReset? || stage.MCall? || stage.MRunning? || stage.MJoin? || stage.MDone?) == master
  }

  /** Number of barriers a thread has passed, from its position in the code. */
  predicate PassedOk(th: Thread, k: int) {
    && 0 <= th.n <= k
    && match th.stage
       case Init => th.passed == 0 && th.n == 0
       case MLock | MStatus | MUnlock | MBcast | WLock | WRead | WSleep | WWake | WUnlock
            | Start => th.passed == 2 * th.n + 1
       case MFunc | MArgs => th.passed == 2 * th.n + 1 && th.n < k
       case MReset | WSwitch => th.passed == 2 * th.n + 2
       case MCall | MRunning | WArgs | WRunning | End => th.passed == 2 * th.n + 2 && th.n < k
       case MJoin(_) | MDone | WDone => th.passed == 2 * k + 2 && th.n == k
       case WUndefined => false
  }

  /** Barriers seen by a thread and by the barrier itself differ by at most one. */
  predicate BarrierOk(th: Thread, generation: int, pendingBcast: bool) {
    if !th.stage.InBarrier() then th.passed == generation
    else match th.bar
      case Lock | Check => th.passed == generation
      case Bcast | Unlock => th.passed == generation - 1
      case Sleep => th.saved == th.passed && th.passed == (if pendingBcast then generation - 1 else generation)
      case Wake | Test => th.saved == th.passed && (th.passed == generation || th.passed == generation - 1)
  }

  predicate LogOk(th: Thread, calls: seq<Call>) {
    var done := if th.stage.MRunning? || th.stage.WRunning? || th.stage.End? then th.n + 1 else th.n;
    && 0 <= done <= |calls| && th.log == calls[..done]
    && (th.stage.WArgs? ==> th.n < |calls| && th.func == calls[th.n].func)
  }

  function Wanted(n: int, k: int): Action { if n < k then Parallel else Finalize }

  predicate ActionOk(th: Thread, k: int, master: bool) {
    !master && (th.stage.WUnlock? || th.stage.Start? || th.stage.WSwitch?) ==> th.action == Wanted(th.n, k)
  }

  predicate PendingBcast(s: State) {
    0 <= s.mutex < s.N() && s.threads[s.mutex].stage.InBarrier() && s.threads[s.mutex].bar.Bcast?
  }

  /** What holds of a thread by itself. */
  predicate LocalOk(th: Thread, calls: seq<Call>, generation: int, pendingBcast: bool, master: bool) {
    && RoleOk(th.stage, master)
    && PassedOk(th, |calls|)
    && BarrierOk(th, generation, pendingBcast)
    && LogOk(th, calls)
    && ActionOk(th, |calls|, master)
  }

  /** A thread is inside a critical section exactly when it holds the lock. */
  predicate LocksOk(s: State, t: int)
    requires 0 <= t < s.N()
  {
    && (HoldsMutex(s.threads[t]) <==> s.mutex == t)
    && (HoldsStatus(s.threads[t]) <==> s.statuslock == t)
  }

  predicate ThreadOk(s: State, t: int)
    requires 0 <= t < s.N()
  {
    LocalOk(s.threads[t], s.calls, s.generation, PendingBcast(s), t == 0) && LocksOk(s, t)
  }

  /** The status word and the shared call follow the position of the master. */
  predicate MasterOk(s: State)
    requires 0 < s.N()
  {
    var m := s.threads[0];
    && s.status == (if m.stage.MUnlock? || m.stage.MBcast? || m.stage.Start? || m.stage.MReset?
                    then Wanted(m.n, s.K()) else StandBy)
    && (0 <= m.n < s.K() ==>
          && ((m.stage.MArgs? || m.stage.MStatus? || m.stage.MUnlock? || m.stage.MBcast? || m.stage.Start?
               || m.stage.MReset?
               || m.stage.MCall? || m.stage.MRunning? || m.stage.End?) ==> s.pfunc == s.calls[m.n].func)
          && ((m.stage.MStatus? || m.stage.MUnlock? || m.stage.MBcast? || m.stage.Start? || m.stage.MReset?
               || m.stage.MCall? || m.stage.MRunning? || m.stage.End?) ==> s.pargs == s.calls[m.n].args))
    && (m.stage.MJoin? ==> 1 <= m.stage.core <= s.N())
  }

  /** No worker sleeps on a status that was already announced, nor was joined too early. */
  predicate SleepOk(s: State, t: int)
    requires 0 < s.N() && 0 <= t < s.N()
  {
    && (s.threads[t].stage.WSleep? && s.threads[0].stage.Start? ==> s.threads[0].passed != s.generation)
    && (t > 0 && s.threads[0].stage.MJoin? && t < s.threads[0].stage.core ==> s.threads[t].stage.WDone?)
    && (t > 0 && s.threads[0].stage.MDone? ==> s.threads[t].stage.WDone?)
  }

  ghost predicate ThreadsOk(s: State) { forall u :: 0 <= u < s.N() ==> ThreadOk(s, u) }
  ghost predicate SleepersOk(s: State) { 0 < s.N() && forall u :: 0 <= u < s.N() ==> SleepOk(s, u) }
  predicate CountOk(s: State) {
    s.curcount == CountWaiting(s.threads, s.generation, s.N()) && s.curcount < s.N()
  }
  predicate LocksInRange(s: State) { -1 <= s.mutex < s.N() && -1 <= s.statuslock < s.N() }

  ghost predicate Inv(s: State) {
    1 <= s.N() && LocksInRange(s) && CountOk(s) && ThreadsOk(s) && SleepersOk(s) && MasterOk(s)
  }

  lemma {:induction false} CountUpdate(threads: seq<Thread>, g: int, k: int, t: int, th: Thread)
    requires 0 <= k <= |threads| && 0 <= t < |threads|
    ensures CountWaiting(threads[t := th], g, k)
            == CountWaiting(threads, g, k) + if t < k then Waits(th, g) - Waits(threads[t], g) else 0
    decreases k
  {
    if k > 0 { CountUpdate(threads, g, k - 1, t, th); }
  }

  lemma {:induction false} CountSame(threads: seq<Thread>, after: seq<Thread>, g: int, k: int)
    requires 0 <= k <= |threads| == |after|
    requires forall u :: 0 <= u < k ==> Waiting(after[u], g) == Waiting(threads[u], g)
    ensures CountWaiting(after, g, k) == CountWaiting(threads, g, k)
    decreases k
  {
    if k > 0 { CountSame(threads, after, g, k - 1); }
  }

  lemma {:induction false} CountNone(threads: seq<Thread>, g: int, k: int)
    requires 0 <= k <= |threads|
    requires forall u :: 0 <= u < k ==> !Waiting(threads[u], g)
    ensures CountWaiting(threads, g, k) == 0
    decreases k
  {
    if k > 0 { CountNone(threads, g, k - 1); }
  }

  /** If all threads but t are counted, each of them is waiting. */
  lemma {:induction false} CountFull(threads: seq<Thread>, g: int, k: int, t: int, u: int)
    requires 0 <= k <= |threads| && 0 <= t < |threads| && !Waiting(threads[t], g)
    requires CountWaiting(threads, g, k) >= (if t < k then k - 1 else k)
    requires 0 <= u < k && u != t
    ensures Waiting(threads[u], g)
    decreases k
  {
    if u < k - 1 {
      assert CountWaiting(threads, g, k - 1) <= k - 1;
      if t == k - 1 {
        CountFull(threads, g, k - 1, t, u);
      } else {
        assert t < k - 1 || t >= k;
        CountBound(threads, g, k - 1, t);
        CountFull(threads, g, k - 1, t, u);
      }
    } else {
      CountBound(threads, g, k - 1, t);
    }
  }

  lemma {:induction false} CountBound(threads: seq<Thread>, g: int, k: int, t: int)
    requires 0 <= k <= |threads| && 0 <= t < |threads| && !Waiting(threads[t], g)
    ensures CountWaiting(threads, g, k) <= if t < k then k - 1 else k
    decreases k
  {
    if k > 0 { CountBound(threads, g, k - 1, t); }
  }

  // ----- Every step keeps the invariant -----

  /** Only thread t moved, and a mutex changed hands only between t and nobody. */
  ghost predicate Moved(s: State, r: State, t: int) {
    && 0 <= t < s.N() && r.N() == s.N() && r.calls == s.calls && r.generation == s.generation
    && (forall u :: 0 <= u < s.N() && u != t ==> r.threads[u] == s.threads[u])
    && (s.mutex == r.mutex || ((s.mutex == -1 || s.mutex == t) && (r.mutex == -1 || r.mutex == t)))
    && (s.statuslock == r.statuslock
        || ((s.statuslock == -1 || s.statuslock == t) && (r.statuslock == -1 || r.statuslock == t)))
    && PendingBcast(s) == PendingBcast(r)
  }

  lemma OthersKeep(s: State, r: State, t: int)
    requires ThreadsOk(s) && Moved(s, r, t) && ThreadOk(r, t)
    ensures ThreadsOk(r)
  {
    forall u | 0 <= u < s.N() ensures ThreadOk(r, u) {
      assert ThreadOk(s, u);
    }
  }

  lemma CountKeeps(s: State, r: State, t: int)
    requires CountOk(s) && Moved(s, r, t)
    requires r.curcount - s.curcount
             == Waits(r.threads[t], s.generation) - Waits(s.threads[t], s.generation)
    requires r.curcount < s.N()
    ensures CountOk(r)
  {
    assert r.threads == s.threads[t := r.threads[t]];
    CountUpdate(s.threads, s.generation, s.N(), t, r.threads[t]);
  }

  /** Thread t did not fall asleep on the status and the master did not reach a waiting place. */
  lemma SleepersKeep(s: State, r: State, t: int)
    requires SleepersOk(s) && Moved(s, r, t)
    requires t > 0 ==>
               && (r.threads[t].stage.WSleep? ==> s.threads[t].stage.WSleep?)
               && (s.threads[t].stage.WDone? ==> r.threads[t].stage.WDone?)
    requires t == 0 ==>
               && (r.threads[0].stage.Start? ==>
                     s.threads[0].stage.Start? && r.threads[0].passed == s.threads[0].passed)
               && !r.threads[0].stage.MJoin? && !r.threads[0].stage.MDone? && !r.threads[0].stage.WSleep?
    ensures SleepersOk(r)
  {
    forall u | 0 <= u < r.N() ensures SleepOk(r, u) {
      assert SleepOk(s, u);
    }
  }

  lemma MasterUntouched(s: State, r: State, t: int)
    requires 0 < t && Moved(s, r, t) && MasterOk(s)
    requires r.status == s.status && r.pfunc == s.pfunc && r.pargs == s.pargs
    ensures MasterOk(r)
  {
  }

  /** A barrier step that does not leave the barrier says nothing new to the master. */
  lemma MasterStays(s: State, r: State)
    requires 0 < s.N() == r.N() && MasterOk(s) && r.calls == s.calls
    requires r.threads[0].stage == s.threads[0].stage && r.threads[0].n == s.threads[0].n
    requires r.status == s.status && r.pfunc == s.pfunc && r.pargs == s.pargs
    ensures MasterOk(r)
  {
  }

  predicate LocalBar(b: Bar) { b.Lock? || b.Wake? || b.Test? }

  lemma BarrierLocal(s: State, t: int)
    requires Inv(s) && 0 <= t < s.N() && s.threads[t].stage.InBarrier() && Enabled(s, t) && LocalBar(s.threads[t].bar)
    ensures Moved(s, Step(s, t), t) && ThreadOk(Step(s, t), t)
  {
    assert ThreadOk(s, t);
  }

  /** Acquiring the barrier mutex, going back to sleep, or testing the generation. */
  lemma BarrierMutexStep(s: State, t: int)
    requires Inv(s) && 0 <= t < s.N() && s.threads[t].stage.InBarrier() && Enabled(s, t) && LocalBar(s.threads[t].bar)
    ensures Inv(Step(s, t))
  {
    var r := Step(s, t);
    BarrierLocal(s, t);
    OthersKeep(s, r, t);
    CountKeeps(s, r, t);
    SleepersKeep(s, r, t);
    MasterStays(s, r);
  }

  lemma BarrierArrive(s: State, t: int)
    requires Inv(s) && 0 <= t < s.N() && s.threads[t].stage.InBarrier() && s.threads[t].bar.Check?
    requires s.curcount + 1 != s.N()
    ensures Inv(Step(s, t))
  {
    var r := Step(s, t);
    assert Moved(s, r, t) && ThreadOk(r, t) by { assert ThreadOk(s, t); }
    OthersKeep(s, r, t);
    CountKeeps(s, r, t);
    SleepersKeep(s, r, t);
    MasterStays(s, r);
  }

  /** The last thread to arrive opens a new generation; all the others are waiting. */
  lemma BarrierComplete(s: State, t: int)
    requires Inv(s) && 0 <= t < s.N() && s.threads[t].stage.InBarrier() && s.threads[t].bar.Check?
    requires s.curcount + 1 == s.N()
    ensures Inv(Step(s, t))
  {
    var r := Step(s, t);
    assert ThreadOk(r, t) && s.mutex == t by { assert ThreadOk(s, t); }
    forall u | 0 <= u < s.N() ensures ThreadOk(r, u) && !Waiting(r.threads[u], r.generation)
      ensures r.threads[u].stage.InBarrier() && r.threads[u].passed == s.generation
    {
      if u != t { OtherReleased(s, t, u); } else { assert ThreadOk(s, t); }
    }
    CountNone(r.threads, r.generation, r.N());
    assert r.threads[0].passed != r.generation by { assert ThreadOk(s, t); }
    forall u | 0 <= u < r.N() ensures SleepOk(r, u) { }
    MasterStays(s, r);
  }

  lemma OtherReleased(s: State, t: int, u: int)
    requires Inv(s) && 0 <= t < s.N() && s.threads[t].stage.InBarrier() && s.threads[t].bar.Check?
    requires s.curcount + 1 == s.N() && 0 <= u < s.N() && u != t && s.mutex == t
    ensures ThreadOk(Step(s, t), u) && s.threads[u].stage.InBarrier() && s.threads[u].passed == s.generation
    ensures !Waiting(s.threads[u], s.generation + 1)
  {
    assert ThreadOk(s, u);
    CountFull(s.threads, s.generation, s.N(), t, u);
  }

  lemma BarrierBroadcast(s: State, t: int)
    requires Inv(s) && 0 <= t < s.N() && s.threads[t].stage.InBarrier() && s.threads[t].bar.Bcast?
    ensures Inv(Step(s, t))
  {
    var r := Step(s, t);
    forall u | 0 <= u < s.N() ensures ThreadOk(r, u) && Waiting(r.threads[u], s.generation)
        == Waiting(s.threads[u], s.generation) {
      WokenOk(s, t, u);
    }
    CountSame(s.threads, r.threads, s.generation, s.N());
    forall u | 0 <= u < r.N() ensures SleepOk(r, u) { assert SleepOk(s, u); }
    MasterStays(s, r);
  }

  lemma WokenOk(s: State, t: int, u: int)
    requires Inv(s) && 0 <= t < s.N() && s.threads[t].stage.InBarrier() && s.threads[t].bar.Bcast? && 0 <= u < s.N()
    ensures ThreadOk(Step(s, t), u)
    ensures Waiting(Step(s, t).threads[u], s.generation) == Waiting(s.threads[u], s.generation)
  {
    assert ThreadOk(s, u) && ThreadOk(s, t);
  }

  lemma BarrierLeave(s: State, t: int)
    requires Inv(s) && 0 <= t < s.N() && s.threads[t].stage.InBarrier() && s.threads[t].bar.Unlock?
    ensures Inv(Step(s, t))
  {
    var r := Step(s, t);
    assert Moved(s, r, t) && ThreadOk(r, t) by { assert ThreadOk(s, t); }
    OthersKeep(s, r, t);
    CountKeeps(s, r, t);
    SleepersKeep(s, r, t);
    if t > 0 { MasterUntouched(s, r, t); }
  }

  lemma MasterKeepsInv(s: State)
    requires Inv(s) && !s.threads[0].stage.InBarrier() && !s.threads[0].stage.MBcast? && Enabled(s, 0)
    ensures Inv(Step(s, 0))
  {
    var r := Step(s, 0);
    MasterThread(s);
    OthersKeep(s, r, 0);
    CountKeeps(s, r, 0);
    MasterMoves(s);
    MasterSleepers(s);
  }

  lemma MasterThread(s: State)
    requires Inv(s) && !s.threads[0].stage.InBarrier() && !s.threads[0].stage.MBcast? && Enabled(s, 0)
    ensures Moved(s, MasterStep(s), 0) && ThreadOk(MasterStep(s), 0)
  {
    MasterMoved(s);
    MasterLocal(s);
    MasterLocks(s);
  }

  lemma MasterLocks(s: State)
    requires Inv(s) && !s.threads[0].stage.InBarrier() && !s.threads[0].stage.MBcast? && Enabled(s, 0)
    ensures LocksOk(MasterStep(s), 0)
  {
    assert ThreadOk(s, 0);
  }

  lemma MasterMoved(s: State)
    requires Inv(s) && !s.threads[0].stage.InBarrier() && !s.threads[0].stage.MBcast? && Enabled(s, 0)
    ensures Moved(s, MasterStep(s), 0)
  {
    assert ThreadOk(s, 0);
  }

  lemma MasterLocal(s: State)
    requires Inv(s) && !s.threads[0].stage.InBarrier() && !s.threads[0].stage.MBcast? && Enabled(s, 0)
    ensures LocalOk(MasterStep(s).threads[0], s.calls, s.generation, PendingBcast(s), true)
  {
    assert ThreadOk(s, 0);
  }

  lemma MasterSleepers(s: State)
    requires Inv(s) && !s.threads[0].stage.InBarrier() && !s.threads[0].stage.MBcast? && Enabled(s, 0)
    ensures SleepersOk(MasterStep(s))
  {
    var r := MasterStep(s);
    assert ThreadOk(s, 0);
    assert SleepOk(s, 0);
    forall u | 0 <= u < r.N() ensures SleepOk(r, u) { assert SleepOk(s, u); }
  }

  lemma MasterMoves(s: State)
    requires Inv(s) && !s.threads[0].stage.InBarrier() && !s.threads[0].stage.MBcast? && Enabled(s, 0)
    ensures MasterOk(Step(s, 0))
  {
    assert ThreadOk(s, 0);
  }

  lemma MasterBroadcast(s: State)
    requires Inv(s) && s.threads[0].stage.MBcast?
    ensures Inv(Step(s, 0))
  {
    var r := MasterStep(s);
    forall u | 0 <= u < s.N()
      ensures ThreadOk(r, u) && SleepOk(r, u)
              && Waiting(r.threads[u], s.generation) == Waiting(s.threads[u], s.generation)
    {
      MasterWakes(s, u);
    }
    CountSame(s.threads, r.threads, s.generation, s.N());
  }

  lemma MasterWakes(s: State, u: int)
    requires Inv(s) && s.threads[0].stage.MBcast? && 0 <= u < s.N()
    ensures ThreadOk(MasterStep(s), u) && SleepOk(MasterStep(s), u)
    ensures Waiting(MasterStep(s).threads[u], s.generation) == Waiting(s.threads[u], s.generation)
  {
    assert ThreadOk(s, u) && SleepOk(s, u) && ThreadOk(s, 0);
  }

  lemma WorkerKeepsInv(s: State, t: int)
    requires Inv(s) && 0 < t < s.N() && !s.threads[t].stage.InBarrier() && Enabled(s, t)
    ensures Inv(Step(s, t))
  {
    var r := Step(s, t);
    WorkerMoves(s, t);
    OthersKeep(s, r, t);
    CountKeeps(s, r, t);
    MasterUntouched(s, r, t);
    if s.threads[t].stage.WRead? {
      forall u | 0 <= u < r.N() ensures SleepOk(r, u) { assert SleepOk(s, u); }
    } else {
      SleepersKeep(s, r, t);
    }
  }

  lemma WorkerMoves(s: State, t: int)
    requires Inv(s) && 0 < t < s.N() && !s.threads[t].stage.InBarrier() && Enabled(s, t)
    ensures Moved(s, WorkerStep(s, t), t) && ThreadOk(WorkerStep(s, t), t)
  {
    var r := WorkerStep(s, t);
    assert ThreadOk(s, t);
    assert Moved(s, r, t);
    assert PendingBcast(s) == PendingBcast(r);
    WorkerLocal(s, t);
  }

  /** The status a worker reads is the action of the call it has reached. */
  lemma WorkerLocal(s: State, t: int)
    requires Inv(s) && 0 < t < s.N() && !s.threads[t].stage.InBarrier() && Enabled(s, t)
    ensures LocalOk(WorkerStep(s, t).threads[t], s.calls, s.generation, PendingBcast(s), false)
  {
    assert ThreadOk(s, t) && ThreadOk(s, 0);
    match s.threads[t].stage
    case WRead => WorkerReads(s, t);
    case WSwitch | WArgs => WorkerSwitches(s, t);
    case _ =>
  }

  lemma WorkerReads(s: State, t: int)
    requires Inv(s) && 0 < t < s.N() && s.threads[t].stage.WRead?
    ensures LocalOk(WorkerStep(s, t).threads[t], s.calls, s.generation, PendingBcast(s), false)
  {
    assert ThreadOk(s, t) && ThreadOk(s, 0);
  }

  lemma WorkerSwitches(s: State, t: int)
    requires Inv(s) && 0 < t < s.N() && (s.threads[t].stage.WSwitch? || s.threads[t].stage.WArgs?)
    ensures LocalOk(WorkerStep(s, t).threads[t], s.calls, s.generation, PendingBcast(s), false)
  {
    assert ThreadOk(s, t) && ThreadOk(s, 0);
  }

  lemma SpuriousKeepsInv(s: State, t: int)
    requires Inv(s) && 0 <= t < s.N() && CanWake(s, t)
    ensures Inv(Spurious(s, t))
  {
    var r := Spurious(s, t);
    assert Moved(s, r, t) && ThreadOk(r, t) by { assert ThreadOk(s, t); }
    OthersKeep(s, r, t);
    CountKeeps(s, r, t);
    SleepersKeep(s, r, t);
    MasterStays(s, r);
  }

  lemma InitHasInv(s: State)
    requires IsInit(s)
    ensures Inv(s)
  {
    CountNone(s.threads, 0, s.N());
    forall t | 0 <= t < s.N() ensures ThreadOk(s, t) && SleepOk(s, t) {
    }
  }

  lemma StepKeepsInv(s: State, t: int)
    requires Inv(s) && 0 <= t < s.N() && Enabled(s, t)
    ensures Inv(Step(s, t))
  {
    var th := s.threads[t];
    assert ThreadOk(s, t);
    if th.stage.InBarrier() {
      match th.bar
      case Lock | Wake | Test => BarrierMutexStep(s, t);
      case Check => if s.curcount + 1 == s.N() { BarrierComplete(s, t); } else { BarrierArrive(s, t); }
      case Bcast => BarrierBroadcast(s, t);
      case Unlock => BarrierLeave(s, t);
    } else if t > 0 {
      WorkerKeepsInv(s, t);
    } else if th.stage.MBcast? {
      MasterBroadcast(s);
    } else {
      MasterKeepsInv(s);
    }
  }

  // ----- Runs -----

  /** A run takes steps of any thread in any order, mixed with spurious wake-ups. */
  datatype Move = Go(t: int) | Stir(t: int)

  predicate CanMove(s: State, m: Move) {
    0 <= m.t < s.N() && if m.Go? then Enabled(s, m.t) else CanWake(s, m.t)
  }

  function Moves(s: State, m: Move): State
    requires CanMove(s, m)
  {
    if m.Go? then Step(s, m.t) else Spurious(s, m.t)
  }

  predicate Legal(s: State, run: seq<Move>)
    decreases |run|
  {
    run == [] || (CanMove(s, run[0]) && Legal(Moves(s, run[0]), run[1..]))
  }

  function After(s: State, run: seq<Move>): State
    requires Legal(s, run)
    decreases |run|
  {
    if run == [] then s else After(Moves(s, run[0]), run[1..])
  }

  lemma MoveKeepsInv(s: State, m: Move)
    requires Inv(s) && CanMove(s, m)
    ensures Inv(Moves(s, m))
  {
    if m.Go? { StepKeepsInv(s, m.t); } else { SpuriousKeepsInv(s, m.t); }
  }

  lemma {:induction false} RunKeepsInv(s: State, run: seq<Move>)
    requires Inv(s) && Legal(s, run)
    ensures Inv(After(s, run)) && After(s, run).calls == s.calls && After(s, run).N() == s.N()
    decreases |run|
  {
    if run != [] {
      MoveKeepsInv(s, run[0]);
      RunKeepsInv(Moves(s, run[0]), run[1..]);
    }
  }

  /** Number of barriers a thread has reached: those it passed, and the one it was counted in. */
  function Arrived(th: Thread): int {
    th.passed + if th.stage.InBarrier() && !th.bar.Lock? && !th.bar.Check? then 1 else 0
  }

  predicate WithinOne(th: Thread, other: Thread) {
    th.passed <= Arrived(other) && th.passed <= other.passed + 1
  }

  /** No thread passes a barrier that another has not reached, so that the numbers of barriers
      passed never differ by more than one. */
  lemma BarrierIsSafe(s: State, run: seq<Move>, t: int, u: int)
    requires IsInit(s) && Legal(s, run) && 0 <= t < s.N() && 0 <= u < s.N()
    ensures After(s, run).N() == s.N() && WithinOne(After(s, run).threads[t], After(s, run).threads[u])
  {
    InitHasInv(s);
    RunKeepsInv(s, run);
    var r := After(s, run);
    assert ThreadOk(r, t) && ThreadOk(r, u);
  }

  /** The master has joined the other threads. */
  predicate Finished(s: State) { s.N() > 0 && s.threads[0].stage.MDone? }

  predicate Running(th: Thread) { th.stage.MRunning? || th.stage.WRunning? }

  /** Thread th has run exactly the first calls of the program, in their order; whenever the
      master m is about to make call n, or is done, th has finished the first n calls and no
      more; and a call that is running is the one the master is in. */
  predicate Exact(m: Thread, th: Thread, calls: seq<Call>) {
    && 0 <= m.n <= |calls|
    && th.log <= calls && m.n <= |th.log| <= m.n + 1
    && (m.stage.MLock? || m.stage.MJoin? || m.stage.MDone? ==> th.log == calls[..m.n] && !Running(th))
    && (m.stage.MDone? ==> m.n == |calls|)
    && (Running(th) ==> m.n < |calls| && th.log == calls[..m.n + 1])
    && !th.stage.WUndefined?
  }

  /** Every call runs once on every thread, and has ended everywhere when the master goes on. */
  lemma CallsAreExact(s: State, run: seq<Move>, t: int)
    requires IsInit(s) && Legal(s, run) && 0 <= t < s.N()
    ensures After(s, run).N() == s.N() && Exact(After(s, run).threads[0], After(s, run).threads[t], s.calls)
    ensures Finished(After(s, run)) && t > 0 ==> After(s, run).threads[t].stage.WDone?
  {
    InitHasInv(s);
    RunKeepsInv(s, run);
    var r := After(s, run);
    assert ThreadOk(r, 0) && ThreadOk(r, t) && SleepOk(r, t);
    Together(r, t);
  }

  /** The position of the master bounds the position of every other thread. */
  lemma Together(r: State, t: int)
    requires Inv(r) && 0 <= t < r.N()
    ensures var m, th := r.threads[0], r.threads[t];
      && m.n <= |th.log| <= m.n + 1
      && (m.stage.MLock? || m.stage.MJoin? || m.stage.MDone? ==> |th.log| == m.n && !Running(th))
      && (Running(th) ==> |th.log| == m.n + 1)
  {
    assert ThreadOk(r, 0) && ThreadOk(r, t);
  }

  // ----- No deadlock -----

  lemma {:induction false} SomeNotWaiting(threads: seq<Thread>, g: int, k: int) returns (u: int)
    requires 0 <= k <= |threads| && CountWaiting(threads, g, k) < k
    ensures 0 <= u < k && !Waiting(threads[u], g)
    decreases k
  {
    if Waiting(threads[k - 1], g) { u := SomeNotWaiting(threads, g, k - 1); } else { u := k - 1; }
  }

  /** Until the master has joined every thread, some thread can take a step of its own. */
  lemma NoDeadlock(s: State, run: seq<Move>) returns (t: int)
    requires IsInit(s) && Legal(s, run) && !Finished(After(s, run))
    ensures CanMove(After(s, run), Go(t))
  {
    InitHasInv(s);
    RunKeepsInv(s, run);
    t := SomeEnabled(After(s, run));
  }

  lemma SomeEnabled(r: State) returns (t: int)
    requires Inv(r) && !r.threads[0].stage.MDone?
    ensures 0 <= t < r.N() && Enabled(r, t)
  {
    if r.mutex != -1 {
      t := r.mutex;
      assert ThreadOk(r, t);
    } else if r.statuslock != -1 {
      t := r.statuslock;
      assert ThreadOk(r, t);
    } else {
      t := SomeNotWaiting(r.threads, r.generation, r.N());
      if !Enabled(r, t) { t := WaitsForAnother(r, t); }
    }
  }

  /** With the locks free, a thread outside the barrier that cannot move waits for one that can. */
  lemma WaitsForAnother(r: State, u: int) returns (t: int)
    requires Inv(r) && !r.threads[0].stage.MDone? && r.mutex == -1 && r.statuslock == -1
    requires 0 <= u < r.N() && !Waiting(r.threads[u], r.generation) && !Enabled(r, u)
    ensures 0 <= t < r.N() && Enabled(r, t)
  {
    assert ThreadOk(r, u) && ThreadOk(r, 0) && SleepOk(r, u);
    t := 0;
    if r.threads[0].stage.MJoin? && !Enabled(r, 0) {
      t := r.threads[0].stage.core;
      assert ThreadOk(r, t);
    }
  }

  // ----- Every run ends -----

  /** What is left to do for a thread before its next barrier is passed, if nobody stirs it. */
  function Left(th: Thread, generation: int, status: Action, n: int): (r: int) {
    match th.stage
    case Init | Start | End =>
      var stale := th.saved != generation;
      (match th.bar
       case Unlock => 1
       case Bcast => 2
       case Test => if stale then 2 else 4
       case Sleep => 3
       case Wake => if stale then 3 else 5
       case Check => 4
       case Lock => 5)
    case MLock => 12
    case MFunc => 11
    case MArgs => 10
    case MStatus => 9
    case MUnlock => 8
    case MBcast => 7
    case MReset => n + 10
    case MCall => 7
    case MJoin(core) => n + 1 - core
    case MRunning | WRunning => 6
    case WUnlock => 6
    case WSleep => 8
    case WRead => if status.StandBy? then 9 else 7
    case WLock | WWake => if status.StandBy? then 10 else 8
    case WSwitch => 8
    case WArgs => 7
    case _ => 0
  }

  /** A barrier weighs more than all that a thread does before the next one. */
  function Weight(n: int, barriers: int): int {
    (n + 20) * barriers
  }

  lemma WeightNext(n: int, barriers: int)
    requires 0 <= n
    ensures Weight(n, barriers) == Weight(n, barriers - 1) + n + 20
    ensures 0 <= barriers ==> 0 <= Weight(n, barriers)
  {
  }

  function LeftOf(s: State, t: int): int
    requires 0 <= t < s.N()
  {
    Left(s.threads[t], s.generation, s.status, s.N())
  }

  function Rank(s: State, t: int): int
    requires 0 <= t < s.N()
  {
    Weight(s.N(), 2 * s.K() + 2 - s.threads[t].passed) + LeftOf(s, t)
  }

  function Total(s: State, k: int): int
    requires 0 <= k <= s.N()
    decreases k
  {
    if k == 0 then 0 else Total(s, k - 1) + Rank(s, k - 1)
  }

  /** Thread u is no further from the end than it was. */
  predicate NoWorse(s: State, r: State, u: int)
    requires 0 <= u < s.N() == r.N()
  {
    Rank(r, u) <= Rank(s, u)
  }

  lemma {:induction false} TotalDrops(s: State, r: State, t: int, k: int, gain: int)
    requires 0 <= k <= s.N() == r.N() && 0 <= t < s.N()
    requires forall u :: 0 <= u < s.N() && u != t ==> NoWorse(s, r, u)
    requires Rank(r, t) <= Rank(s, t) + gain
    ensures Total(r, k) <= Total(s, k) + if t < k then gain else 0
    decreases k
  {
    if k > 0 {
      TotalDrops(s, r, t, k - 1, gain);
      if k - 1 != t {
        var u := k - 1;
        assert NoWorse(s, r, u);
      }
    }
  }

  lemma {:induction false} TotalNonnegative(s: State, k: int)
    requires Inv(s) && 0 <= k <= s.N()
    ensures 0 <= Total(s, k)
    decreases k
  {
    if k > 0 {
      TotalNonnegative(s, k - 1);
      RankNonnegative(s, k - 1);
    }
  }

  lemma RankNonnegative(s: State, t: int)
    requires Inv(s) && 0 <= t < s.N()
    ensures 0 <= Rank(s, t)
  {
    assert ThreadOk(s, t);
    var barriers := 2 * s.K() + 2 - s.threads[t].passed;
    assert 0 <= barriers;
    WeightNext(s.N(), barriers);
    assert 0 <= LeftOf(s, t);
  }

  lemma StepDrops(s: State, t: int)
    requires Inv(s) && 0 <= t < s.N() && Enabled(s, t)
    ensures Total(Step(s, t), s.N()) < Total(s, s.N())
  {
    var r := Step(s, t);
    OwnRankDrops(s, t);
    forall u | 0 <= u < s.N() && u != t ensures NoWorse(s, r, u) {
      OtherRankKeeps(s, t, u);
    }
    TotalDrops(s, r, t, s.N(), -1);
  }

  lemma OwnRankDrops(s: State, t: int)
    requires Inv(s) && 0 <= t < s.N() && Enabled(s, t)
    ensures Rank(Step(s, t), t) < Rank(s, t)
  {
    var th := s.threads[t];
    if th.stage.InBarrier() && th.bar.Unlock? {
      WeightNext(s.N(), 2 * s.K() + 2 - th.passed);
    } else {
      LeftDrops(s, t);
    }
  }

  lemma LeftDrops(s: State, t: int)
    requires Inv(s) && 0 <= t < s.N() && Enabled(s, t)
    requires !(s.threads[t].stage.InBarrier() && s.threads[t].bar.Unlock?)
    ensures Step(s, t).threads[t].passed == s.threads[t].passed && Step(s, t).K() == s.K() && Step(s, t).N() == s.N()
    ensures LeftOf(Step(s, t), t) < LeftOf(s, t)
  {
    if s.threads[t].stage.InBarrier() {
      LeftInBarrier(s, t);
    } else if t == 0 {
      LeftOfMaster(s);
    } else {
      LeftOfWorker(s, t);
    }
  }

  lemma LeftInBarrier(s: State, t: int)
    requires Inv(s) && 0 <= t < s.N() && Enabled(s, t) && s.threads[t].stage.InBarrier() && !s.threads[t].bar.Unlock?
    ensures Step(s, t).threads[t].passed == s.threads[t].passed && Step(s, t).K() == s.K() && Step(s, t).N() == s.N()
    ensures LeftOf(Step(s, t), t) < LeftOf(s, t)
  {
    assert ThreadOk(s, t);
  }

  lemma LeftOfMaster(s: State)
    requires Inv(s) && Enabled(s, 0) && !s.threads[0].stage.InBarrier()
    ensures Step(s, 0).threads[0].passed == s.threads[0].passed && Step(s, 0).K() == s.K() && Step(s, 0).N() == s.N()
    ensures LeftOf(Step(s, 0), 0) < LeftOf(s, 0)
  {
    assert ThreadOk(s, 0);
  }

  lemma LeftOfWorker(s: State, t: int)
    requires Inv(s) && 0 < t < s.N() && Enabled(s, t) && !s.threads[t].stage.InBarrier()
    ensures Step(s, t).threads[t].passed == s.threads[t].passed && Step(s, t).K() == s.K() && Step(s, t).N() == s.N()
    ensures LeftOf(Step(s, t), t) < LeftOf(s, t)
  {
    assert ThreadOk(s, t);
  }

  lemma OtherRankKeeps(s: State, t: int, u: int)
    requires Inv(s) && 0 <= t < s.N() && Enabled(s, t) && 0 <= u < s.N() && u != t
    ensures Rank(Step(s, t), u) <= Rank(s, u)
  {
    if s.threads[t].stage.InBarrier() {
      OtherRankInBarrier(s, t, u);
    } else if t == 0 {
      OtherRankOfMaster(s, u);
    }
  }

  lemma OtherRankInBarrier(s: State, t: int, u: int)
    requires Inv(s) && 0 <= t < s.N() && s.threads[t].stage.InBarrier() && Enabled(s, t) && 0 <= u < s.N() && u != t
    ensures Rank(BarrierStep(s, t), u) <= Rank(s, u)
  {
    assert ThreadOk(s, t) && ThreadOk(s, u);
  }

  lemma OtherRankOfMaster(s: State, u: int)
    requires Inv(s) && !s.threads[0].stage.InBarrier() && Enabled(s, 0) && 0 < u < s.N()
    ensures Rank(MasterStep(s), u) <= Rank(s, u)
  {
    assert ThreadOk(s, 0) && ThreadOk(s, u);
  }

  lemma StirAdds(s: State, t: int)
    requires Inv(s) && 0 <= t < s.N() && CanWake(s, t)
    ensures Total(Spurious(s, t), s.N()) <= Total(s, s.N()) + 2
  {
    StirOthers(s, t);
    StirRank(s, t);
    TotalDrops(s, Spurious(s, t), t, s.N(), 2);
  }

  lemma StirOthers(s: State, t: int)
    requires 0 <= t < s.N() && CanWake(s, t)
    ensures Spurious(s, t).N() == s.N() && forall u :: 0 <= u < s.N() && u != t ==> NoWorse(s, Spurious(s, t), u)
  {
    forall u | 0 <= u < s.N() && u != t ensures NoWorse(s, Spurious(s, t), u) { }
  }

  lemma StirRank(s: State, t: int)
    requires 0 <= t < s.N() && CanWake(s, t)
    ensures Spurious(s, t).N() == s.N() && Rank(Spurious(s, t), t) <= Rank(s, t) + 2
  {
  }

  function Steps(run: seq<Move>): nat { if run == [] then 0 else (if run[0].Go? then 1 else 0) + Steps(run[1..]) }
  function Stirs(run: seq<Move>): nat { if run == [] then 0 else (if run[0].Stir? then 1 else 0) + Stirs(run[1..]) }

  lemma {:induction false} RunDrops(s: State, run: seq<Move>)
    requires Inv(s) && Legal(s, run)
    ensures Steps(run) <= Total(s, s.N()) + 2 * Stirs(run)
    decreases |run|
  {
    if run == [] {
      TotalNonnegative(s, s.N());
    } else {
      MoveKeepsInv(s, run[0]);
      if run[0].Go? { StepDrops(s, run[0].t); } else { StirAdds(s, run[0].t); }
      RunDrops(Moves(s, run[0]), run[1..]);
    }
  }

  /** The steps of a run are bounded by the number of threads, of calls and of spurious
      wake-ups: no run without wake-ups goes on for ever. */
  lemma EveryRunEnds(s: State, run: seq<Move>)
    requires IsInit(s) && Legal(s, run)
    ensures Steps(run) <= s.N() * (Weight(s.N(), 2 * s.K() + 2) + 5) + 2 * Stirs(run)
  {
    InitHasInv(s);
    RunDrops(s, run);
    InitTotal(s, s.N());
  }

  lemma {:induction false} InitTotal(s: State, k: int)
    requires IsInit(s) && 0 <= k <= s.N()
    ensures Total(s, k) == k * (Weight(s.N(), 2 * s.K() + 2) + 5)
    decreases k
  {
    if k > 0 { InitTotal(s, k - 1); }
  }
}

/**
 * The window that finite timeouts open in a mutex: between the timeout of a waiter and
 * its return, the count is still raised, and a newcomer blocks on a free mutex.
 */
module MutexWindow {
  import opened Basics
  import opened Sched
  import S = Steps
  import opened WaitClients
  import M = KernelMutex
  import opened WindowStart

  ghost function Held(): M.Mutex {
    M.Mutex(Clients(Start(), 0, map[]), 1, Some(HOLDER), {HOLDER})
  }

  /** The holder runs on CPU 0 and owns the mutex. */
  ghost predicate HeldBy(m: M.Mutex) {
    && M.UntimedOk(m) && m.owner == {HOLDER} && m.holder == Some(HOLDER) && m.x.inside == map[] && m.count == 1
    && m.x.k == Start() && m.x.w == 0
  }

  lemma HeldOk()
    ensures HeldBy(Held())
  {
    hide Start, Inv;
    StartFacts();
    assert M.Owners(Held()) == {HOLDER};
    assert Expired(Held().x) == {};
    assert Queue(Held().x) == [];
  }

  /** First step: the thread on CPU 1 waits with a timeout, and the newcomer runs there. */
  lemma TimedWaits(m: M.Mutex) returns (m': M.Mutex)
    requires HeldBy(m)
    ensures M.CanStep(m, M.Acquire(1, Finite)) && m' == M.Next(m, M.Acquire(1, Finite))
    ensures M.MutexOk(m') && Queue(m'.x) == [TIMED] && m'.x.inside == map[TIMED := true] && m'.count == 2
    ensures m'.owner == {HOLDER} && TwoRun(m'.x.k)
  {
    hide S.WaitBlock, Inv, Start;
    StartFacts();
    StartCpus();
    M.NextKeeps(m, M.Acquire(1, Finite));
    EnterEffect(m.x, 1, true);
    m' := M.Next(m, M.Acquire(1, Finite));
  }

  /** Second and third step: the timeout fires, and the holder releases before the timed-out thread runs. */
  lemma TimesOutThenReleased(m: M.Mutex) returns (m1: M.Mutex, m2: M.Mutex)
    requires M.MutexOk(m) && Queue(m.x) == [TIMED] && m.x.inside == map[TIMED := true] && m.count == 2
    requires m.owner == {HOLDER} && TwoRun(m.x.k)
    ensures M.CanStep(m, M.TimerFires(TIMED)) && m1 == M.Next(m, M.TimerFires(TIMED))
    ensures M.CanStep(m1, M.Release(0)) && m2 == M.Next(m1, M.Release(0))
    ensures M.MutexOk(m2) && m2.x.inside == map[TIMED := true] && m2.count == 1 && m2.owner == {}
    ensures Queue(m2.x) == [] && Granted(m2.x) == {} && TwoRun(m2.x.k)
  {
    hide S.Unblock, Inv, ClientsOk;
    M.OwnerAlone(m, HOLDER);
    TimedFacts(m);
    TimeoutEffect(m.x, TIMED);
    M.NextKeeps(m, M.TimerFires(TIMED));
    TimeoutKeepsCurrent(m.x, TIMED);
    m1 := M.Next(m, M.TimerFires(TIMED));
    assert Queue(m1.x) == [];
    ReleaseFacts(m1);
    M.NextKeeps(m1, M.Release(0));
    m2 := M.Next(m1, M.Release(0));
    WakeFirstEffect(m1.x, 0, true);
  }

  lemma TimedFacts(m: M.Mutex)
    requires M.MutexOk(m)
    ensures ClientsOk(m.x)
  {
  }

  lemma ReleaseFacts(m: M.Mutex)
    requires M.MutexOk(m) && TwoRun(m.x.k)
    ensures ClientsOk(m.x) && S.CanBlock(m.x.k, 0) && S.CanBlock(m.x.k, 1)
  {
  }

  /** Nobody owns the mutex or was handed it, and `u` waits for it without a timer. */
  ghost predicate Wedged(m: M.Mutex, u: Tid) {
    M.MutexOk(m) && M.Owners(m) == {} && u in Queue(m.x) && u in m.x.inside && !m.x.inside[u]
  }

  lemma WedgedAcquire(m: M.Mutex, c: nat, timeout: Timeout, u: Tid)
    requires Wedged(m, u) && M.CanStep(m, M.Acquire(c, timeout))
    ensures Wedged(M.AcquireStart(m, c, timeout), u)
  {
    hide S.WaitBlock, Inv;
    M.AcquireKeeps(m, c, timeout);
    if timeout != Zero {
      EnterEffect(m.x, c, timeout == Finite);
    }
  }

  lemma WedgedReturn(m: M.Mutex, c: nat, u: Tid)
    requires Wedged(m, u) && M.CanStep(m, M.Return(c))
    ensures Wedged(M.AcquireEnd(m, c), u)
  {
    hide Inv;
    M.ReturnKeeps(m, c);
    RunningNotQueued(m.x, c);
    LeaveEffect(m.x, m.x.k.current[c]);
  }

  lemma WedgedNext(m: M.Mutex, step: M.Step, u: Tid)
    requires Wedged(m, u) && M.CanStep(m, step)
    ensures Wedged(M.Next(m, step), u)
  {
    hide Inv, ClientsOk;
    M.NextKeeps(m, step);
    match step
    case Acquire(c, timeout) => WedgedAcquire(m, c, timeout, u);
    case Return(c) => WedgedReturn(m, c, u);
    case Release(c) =>
    case TimerFires(t) => TimeoutEffect(m.x, t);
    case Else(op) => ElsewhereEffect(m.x, op);
  }

  /** Such a waiter waits forever, whatever happens: no later acquire succeeds either. */
  lemma {:induction false} WedgedForever(ms: seq<M.Mutex>, steps: seq<M.Step>, i: nat, u: Tid)
    requires M.Run(ms, steps) && i < |ms| && Wedged(ms[0], u)
    ensures Wedged(ms[i], u)
  {
    hide Wedged, M.Next, M.CanStep;
    if i > 0 {
      WedgedForever(ms, steps, i - 1, u);
      M.RunStep(ms, steps, i - 1);
      WedgedNext(ms[i - 1], steps[i - 1], u);
    }
  }

  /** Fourth step: the newcomer finds the count raised, and blocks on the free mutex. */
  lemma NewcomerBlocks(m: M.Mutex) returns (m': M.Mutex)
    requires M.MutexOk(m) && m.x.inside == map[TIMED := true] && m.count == 1 && m.owner == {}
    requires Queue(m.x) == [] && Granted(m.x) == {} && TwoRun(m.x.k)
    ensures M.CanStep(m, M.Acquire(1, Infinite)) && m' == M.Next(m, M.Acquire(1, Infinite))
    ensures Wedged(m', NEWCOMER)
  {
    hide S.WaitBlock, Inv, ClientsOk;
    ReleaseFacts(m);
    EnterEffect(m.x, 1, false);
    M.NextKeeps(m, M.Acquire(1, Infinite));
    m' := M.Next(m, M.Acquire(1, Infinite));
    TimedFacts(m');
    ClientsFacts(m'.x);
    assert M.Owners(m') == {};
    assert Queue(m'.x) == [NEWCOMER];
  }

  /** A run of four steps, from a mutex without timed waiters to a free mutex with a queued waiter. */
  lemma StuckWaiter() returns (ms: seq<M.Mutex>, steps: seq<M.Step>)
    ensures M.Run(ms, steps) && |steps| == 4 && M.UntimedOk(ms[0])
    ensures Wedged(ms[4], NEWCOMER)
  {
    hide Wedged, M.MutexOk, M.FreeMeansNoWaiters, M.Next, M.CanStep, TwoRun;
    HeldOk();
    var m0 := Held();
    var m1 := TimedWaits(m0);
    var m2, m3 := TimesOutThenReleased(m1);
    var m4 := NewcomerBlocks(m3);
    ms := [m0, m1, m2, m3, m4];
    steps := [M.Acquire(1, Finite), M.TimerFires(TIMED), M.Release(0), M.Acquire(1, Infinite)];
  }

  /** Acquires with a finite timeout occur only if allowed. */
  ghost predicate Timeouts(steps: seq<M.Step>, finiteAllowed: bool) {
    forall j :: 0 <= j < |steps| && steps[j].Acquire? ==> steps[j].timeout != Finite || finiteAllowed
  }

  /** The last state of every run from a state without timed waiters has no waiters if it is free. */
  ghost predicate AlwaysFreeMeansNoWaiters(finiteAllowed: bool) {
    forall ms: seq<M.Mutex>, steps: seq<M.Step> ::
      M.Run(ms, steps) && M.UntimedOk(ms[0]) && Timeouts(steps, finiteAllowed) ==>
        M.MutexOk(ms[|steps|]) && M.FreeMeansNoWaiters(ms[|steps|])
  }

  /** "Free implies no queued waiters" holds in all runs exactly when no timeout is finite. */
  lemma FreeMeansNoWaitersIff(finiteAllowed: bool)
    ensures AlwaysFreeMeansNoWaiters(finiteAllowed) <==> !finiteAllowed
  {
    if finiteAllowed {
      var ms, steps := StuckWaiter();
      assert Timeouts(steps, finiteAllowed);
    } else {
      forall ms: seq<M.Mutex>, steps: seq<M.Step> |
        M.Run(ms, steps) && M.UntimedOk(ms[0]) && Timeouts(steps, finiteAllowed)
        ensures M.MutexOk(ms[|steps|]) && M.FreeMeansNoWaiters(ms[|steps|])
      {
        M.UntimedRun(ms, steps, |steps|);
      }
    }
  }
}

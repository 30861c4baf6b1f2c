/**
 * kernel/mutex.c on top of the scheduler: each operation is cut at the context switch in
 * wait_queue_block, so that everything else may happen in between.
 */
module KernelMutex {
  import opened Basics
  import opened Sched
  import S = Steps
  import opened Runs
  import opened WaitClients

  /** `owner` holds the threads that returned from an acquire and have not released. */
  datatype Mutex = Mutex(x: Clients, count: int, holder: Option<Tid>, owner: set<Tid>)

  /** The owners, counting a thread that was handed the mutex and has not run since. */
  ghost function Owners(m: Mutex): set<Tid>
    requires m.x.w in m.x.k.waits
  {
    m.owner + Granted(m.x)
  }

  ghost predicate MutexOk(m: Mutex) {
    && ClientsOk(m.x)
    && m.owner !! m.x.inside.Keys
    && m.count == |Owners(m)| + |Queue(m.x)| + |Expired(m.x)|
    && |Owners(m)| <= 1
    && (m.holder.Some? ==> m.holder.value in m.owner)
    && (m.holder.None? ==> m.owner == {})
  }

  datatype Step =
    | Acquire(c: nat, timeout: Timeout)
    | Return(c: nat)
    | Release(c: nat)
    | TimerFires(t: Tid)
    | Else(op: Op)

  /** The rules for callers: no recursion, and only the owner releases. */
  ghost predicate CanStep(m: Mutex, step: Step) {
    MutexOk(m) &&
    match step
    case Acquire(c, _) => S.CanBlock(m.x.k, c) && m.x.k.current[c] !in m.owner && m.x.k.current[c] !in m.x.inside
    case Return(c) => S.OnCpu(m.x.k, c) && m.x.k.current[c] in m.x.inside
    case Release(c) => S.CanBlock(m.x.k, c) && m.x.k.current[c] in m.owner
    case TimerFires(t) => t in m.x.inside && m.x.inside[t]
    case Else(op) => Elsewhere(m.x, op)
  }

  /** mutex_acquire_timeout, up to the context switch if it blocks. */
  ghost function AcquireStart(m: Mutex, c: nat, timeout: Timeout): Mutex
    requires ClientsOk(m.x) && S.CanBlock(m.x.k, c)
  {
    var m1 := m.(count := m.count + 1);
    if m1.count > 1 then
      if timeout == Zero then m1.(count := m1.count - 1)
      else m1.(x := Enter(m.x, c, timeout == Finite))
    else
      m1.(holder := Some(m.x.k.current[c]), owner := m.owner + {m.x.k.current[c]})
  }

  /** The rest of mutex_acquire_timeout, from the return of wait_queue_block. */
  ghost function AcquireEnd(m: Mutex, c: nat): Mutex
    requires ClientsOk(m.x) && S.OnCpu(m.x.k, c) && m.x.k.current[c] in m.x.inside
  {
    var t := m.x.k.current[c];
    var ret := m.x.k.threads[t].blockRet;
    var m1 := m.(x := Leave(m.x, t));
    if ret < NO_ERROR then (if ret == ERR_TIMED_OUT then m1.(count := m.count - 1) else m1)
    else m1.(holder := Some(t), owner := m.owner + {t})
  }

  /** mutex_release */
  ghost function ReleaseOf(m: Mutex, c: nat): Mutex
    requires ClientsOk(m.x) && S.CanBlock(m.x.k, c)
  {
    var m1 := m.(holder := None, count := m.count - 1, owner := m.owner - {m.x.k.current[c]});
    if m1.count >= 1 then m1.(x := WakeFirst(m.x, c, true)) else m1
  }

  ghost function Next(m: Mutex, step: Step): Mutex
    requires CanStep(m, step)
  {
    match step
    case Acquire(c, timeout) => AcquireStart(m, c, timeout)
    case Return(c) => AcquireEnd(m, c)
    case Release(c) => ReleaseOf(m, c)
    case TimerFires(t) => m.(x := Expire(m.x, t))
    case Else(op) => m.(x := Other(m.x, op))
  }

  lemma SingleOwner(m: Mutex, t: Tid)
    requires MutexOk(m) && t in Owners(m)
    ensures Owners(m) == {t} && |Owners(m)| == 1
  {
    assert Owners(m) == {t} by {
      if u :| u in Owners(m) && u != t {
        assert {t, u} <= Owners(m);
        SubsetSize({t, u}, Owners(m));
        assert false;
      }
    }
  }

  lemma OwnerAlone(m: Mutex, t: Tid)
    requires MutexOk(m) && t in m.owner
    ensures m.owner == {t} && Owners(m) == {t} && Granted(m.x) == {}
  {
    SingleOwner(m, t);
    assert Granted(m.x) <= {t} && t !in Granted(m.x);
    assert m.owner <= {t};
  }

  lemma {:induction false} SubsetSize<T>(a: set<T>, b: set<T>)
    requires a <= b
    ensures |a| <= |b|
  {
    if a != {} {
      var e :| e in a;
      SubsetSize(a - {e}, b - {e});
    }
  }

  lemma AcquireKeeps(m: Mutex, c: nat, timeout: Timeout)
    requires CanStep(m, Acquire(c, timeout))
    ensures MutexOk(AcquireStart(m, c, timeout))
  {
    var t := m.x.k.current[c];
    if m.count + 1 > 1 {
      if timeout != Zero {
        EnterEffect(m.x, c, timeout == Finite);
      }
    } else {
      assert Owners(m) == {} && Queue(m.x) == [] && Expired(m.x) == {};
      assert Owners(AcquireStart(m, c, timeout)) == {t};
    }
  }

  /** The accounting after thread `t` came back from wait_queue_block. */
  lemma AfterReturn(m: Mutex, m': Mutex, t: Tid, granted: bool)
    requires MutexOk(m) && ClientsOk(m'.x) && m'.owner !! m'.x.inside.Keys && Queue(m'.x) == Queue(m.x)
    requires Granted(m'.x) == Granted(m.x) - {t} && Expired(m'.x) == Expired(m.x) - {t}
    requires t in Granted(m.x) <==> granted
    requires t in Expired(m.x) <==> !granted
    requires granted ==> m'.count == m.count && m'.holder == Some(t) && m'.owner == m.owner + {t}
    requires !granted ==> m'.count == m.count - 1 && m'.holder == m.holder && m'.owner == m.owner
    ensures MutexOk(m')
  {
    ClientsFacts(m.x);
    ClientsFacts(m'.x);
    Accounting(m);
    hide *;
    SetsAfterReturn(m.owner, Granted(m.x), Expired(m.x), m'.owner, t, granted);
    Balanced(m');
  }

  lemma Accounting(m: Mutex)
    requires MutexOk(m)
    ensures ClientsOk(m.x) && m.x.w in m.x.k.waits && m.owner !! m.x.inside.Keys
    ensures m.count == |m.owner + Granted(m.x)| + |Queue(m.x)| + |Expired(m.x)| && |m.owner + Granted(m.x)| <= 1
    ensures m.holder.Some? ==> m.holder.value in m.owner
    ensures m.holder.None? ==> m.owner == {}
  {
    ClientsFacts(m.x);
  }

  lemma Balanced(m: Mutex)
    requires ClientsOk(m.x) && m.x.w in m.x.k.waits && m.owner !! m.x.inside.Keys
    requires m.count == |m.owner + Granted(m.x)| + |Queue(m.x)| + |Expired(m.x)| && |m.owner + Granted(m.x)| <= 1
    requires m.holder.Some? ==> m.holder.value in m.owner
    requires m.holder.None? ==> m.owner == {}
    ensures MutexOk(m)
  {
  }

  lemma SetsAfterReturn(owner: set<Tid>, handed: set<Tid>, expired: set<Tid>, owner': set<Tid>, t: Tid, granted: bool)
    requires |owner + handed| <= 1
    requires t in handed <==> granted
    requires t in expired <==> !granted
    requires owner' == if granted then owner + {t} else owner
    ensures granted ==> |owner + handed| == 1 && |owner' + (handed - {t})| == 1 && owner' == {t}
    ensures granted ==> |expired - {t}| == |expired|
    ensures !granted ==> owner' + (handed - {t}) == owner + handed && |expired - {t}| == |expired| - 1
  {
    if granted {
      assert owner + handed == {t} by {
        if u :| u in owner + handed && u != t {
          SubsetSize({t, u}, owner + handed);
          assert false;
        }
      }
      assert expired - {t} == expired;
      assert owner' == {t} && owner' + (handed - {t}) == {t};
    } else {
      assert handed - {t} == handed;
    }
  }

  lemma ReturnKeeps(m: Mutex, c: nat)
    requires CanStep(m, Return(c))
    ensures MutexOk(AcquireEnd(m, c))
  {
    var t := m.x.k.current[c];
    RunningNotQueued(m.x, c);
    LeaveEffect(m.x, t);
    hide Inv, Queue, Removed;
    AfterReturn(m, AcquireEnd(m, c), t, m.x.k.threads[t].blockRet == NO_ERROR);
  }

  /** The accounting after the owner released, and the first waiter, if any, was handed the mutex. */
  lemma AfterRelease(m: Mutex, m': Mutex, t: Tid)
    requires MutexOk(m) && t in m.owner && ClientsOk(m'.x) && m'.count == m.count - 1 && m'.holder == None && m'.owner == {}
    requires Expired(m'.x) == Expired(m.x)
    requires Queue(m.x) == [] ==> Queue(m'.x) == [] && Granted(m'.x) == Granted(m.x)
    requires Queue(m.x) != [] ==> Queue(m'.x) == Queue(m.x)[1..] && Granted(m'.x) == Granted(m.x) + {Queue(m.x)[0]}
    ensures MutexOk(m')
  {
    OwnerAlone(m, t);
    ClientsFacts(m.x);
    ClientsFacts(m'.x);
    hide ClientsOk, Removed, Queue;
    if Queue(m.x) != [] {
      assert Owners(m') == {Queue(m.x)[0]};
    } else {
      assert Owners(m') == {};
    }
  }

  lemma ReleaseKeeps(m: Mutex, c: nat)
    requires CanStep(m, Release(c))
    ensures MutexOk(ReleaseOf(m, c))
  {
    hide Inv, S.WakeOne, Removed;
    var t := m.x.k.current[c];
    OwnerAlone(m, t);
    assert m.owner - {t} == {};
    WakeFirstEffect(m.x, c, true);
    hide ClientsOk;
    AfterRelease(m, ReleaseOf(m, c), t);
  }

  lemma TimerKeeps(m: Mutex, t: Tid)
    requires CanStep(m, TimerFires(t))
    ensures MutexOk(Next(m, TimerFires(t)))
  {
    TimeoutEffect(m.x, t);
  }

  /** Every step keeps the accounting of the count, and with it mutual exclusion. */
  lemma NextKeeps(m: Mutex, step: Step)
    requires CanStep(m, step)
    ensures MutexOk(Next(m, step))
  {
    match step
    case Acquire(c, timeout) => AcquireKeeps(m, c, timeout);
    case Return(c) => ReturnKeeps(m, c);
    case Release(c) => ReleaseKeeps(m, c);
    case TimerFires(t) => TimerKeeps(m, t);
    case Else(op) => ElsewhereEffect(m.x, op);
  }

  // ---- what a caller sees ----

  /** Nobody owns the mutex or was handed it, and nobody waits for it or timed out and has yet to return. */
  ghost predicate Free(m: Mutex)
    requires m.x.w in m.x.k.waits
  {
    Owners(m) == {} && Queue(m.x) == [] && Expired(m.x) == {}
  }

  /** An acquire succeeds at once iff the mutex is free; else it changes nothing with timeout 0, and queues its caller. */
  lemma AcquireOutcome(m: Mutex, c: nat, timeout: Timeout)
    requires CanStep(m, Acquire(c, timeout))
    ensures var t, m' := m.x.k.current[c], AcquireStart(m, c, timeout);
            && (t in m'.owner <==> Free(m))
            && (Free(m) ==> m' == m.(count := 1, holder := Some(t), owner := {t}))
            && (!Free(m) && timeout == Zero ==> m' == m)
            && (!Free(m) && timeout != Zero ==>
                  && ClientsOk(m'.x) && Queue(m'.x) == Queue(m.x) + [t] && m'.owner == m.owner && m'.holder == m.holder
                  && m'.x.inside == m.x.inside[t := timeout == Finite])
  {
    assert Free(m) <==> m.count == 0 by {
      assert m.count == 0 ==> Owners(m) == {} && Queue(m.x) == [] && Expired(m.x) == {};
    }
    if m.count > 0 && timeout != Zero {
      EnterEffect(m.x, c, timeout == Finite);
    } else if m.count == 0 {
      assert m.owner == {};
    }
  }

  /** A release leaves the mutex to the first waiter, which runs at once if it may, or to nobody. */
  lemma ReleaseOutcome(m: Mutex, c: nat)
    requires CanStep(m, Release(c))
    ensures var m' := ReleaseOf(m, c);
            && ClientsOk(m'.x) && m'.owner == {} && m'.holder == None && Expired(m'.x) == Expired(m.x)
            && (Queue(m.x) == [] ==> m'.x == m.x)
            && (Queue(m.x) != [] ==> m'.x == WakeFirst(m.x, c, true) && Queue(m'.x) == Queue(m.x)[1..]
                                     && Owners(m') == {Queue(m.x)[0]})
  {
    hide S.WakeOne, Inv;
    OwnerAlone(m, m.x.k.current[c]);
    CountIs(m);
    if m.count > 1 {
      WakeFirstEffect(m.x, c, true);
    }
  }

  lemma CountIs(m: Mutex)
    requires MutexOk(m)
    ensures ClientsOk(m.x) && m.count == |Owners(m)| + |Queue(m.x)| + |Expired(m.x)| >= 0
  {
  }

  lemma CountNotNegative(m: Mutex)
    requires MutexOk(m)
    ensures m.count >= 0
  {
  }

  /** A waiter that was handed the mutex owns it when it returns; one that timed out does not. */
  lemma ReturnOutcome(m: Mutex, c: nat)
    requires CanStep(m, Return(c))
    ensures var t, m' := m.x.k.current[c], AcquireEnd(m, c);
            && m'.x == Leave(m.x, t)
            && (t in Granted(m.x) ==> m'.owner == {t} && m'.holder == Some(t) && m'.count == m.count)
            && (t in Expired(m.x) ==> m'.owner == m.owner && m'.holder == m.holder && m'.count == m.count - 1)
            && (t in Granted(m.x) || t in Expired(m.x))
  {
    var t := m.x.k.current[c];
    RunningNotQueued(m.x, c);
    LeaveEffect(m.x, t);
    InsidePartition(m.x);
    if t in Granted(m.x) {
      SingleOwner(m, t);
      assert m.owner <= {t} && t !in m.owner;
    }
  }

  /** What a step is for the threads inside wait_queue_block. */
  ghost function ClientStep(m: Mutex, step: Step): Option<WaitClients.Step>
    requires CanStep(m, step)
  {
    match step
    case Acquire(c, timeout) => if Free(m) || timeout == Zero then None else Some(Enters(c, timeout == Finite))
    case Return(c) => Some(Leaves(c))
    case Release(c) => if Queue(m.x) == [] then None else Some(WakesFirst(c, true))
    case TimerFires(t) => Some(TimesOut(t))
    case Else(op) => Some(Others(op))
  }

  /** So what holds of waiters in general holds of those of the mutex. */
  lemma StepOfClients(m: Mutex, step: Step)
    requires CanStep(m, step)
    ensures match ClientStep(m, step)
            case None => Next(m, step).x == m.x
            case Some(s) => WaitClients.CanStep(m.x, s) && Next(m, step).x == WaitClients.Next(m.x, s)
  {
    hide S.WakeOne, S.WaitBlock, S.Unblock, Inv, ClientsOk, Free, Owners, Removed, Elsewhere;
    CountIs(m);
    match step
    case Acquire(c, timeout) => AcquireIs(m, c, timeout);
    case Release(c) => ReleaseOutcome(m, c);
    case _ =>
  }

  lemma AcquireIs(m: Mutex, c: nat, timeout: Timeout)
    requires CanStep(m, Acquire(c, timeout))
    ensures AcquireStart(m, c, timeout).x == if Free(m) || timeout == Zero then m.x else Enter(m.x, c, timeout == Finite)
  {
    AcquireOutcome(m, c, timeout);
  }

  /** Every step keeps to the rules, given that the state is as it should be. */
  ghost predicate Run(ms: seq<Mutex>, steps: seq<Step>) {
    && |ms| == |steps| + 1 && MutexOk(ms[0])
    && forall i :: 0 <= i < |steps| && MutexOk(ms[i]) ==> CanStep(ms[i], steps[i]) && ms[i + 1] == Next(ms[i], steps[i])
  }

  lemma {:induction false} RunStep(ms: seq<Mutex>, steps: seq<Step>, i: nat)
    requires Run(ms, steps) && i < |ms|
    ensures MutexOk(ms[i])
    ensures i < |steps| ==> CanStep(ms[i], steps[i]) && ms[i + 1] == Next(ms[i], steps[i])
  {
    hide Next, CanStep, MutexOk;
    if i > 0 {
      RunStep(ms, steps, i - 1);
      NextKeeps(ms[i - 1], steps[i - 1]);
    }
  }

  /** Mutual exclusion in every state of every run, finite timeouts included. */
  lemma MutualExclusion(ms: seq<Mutex>, steps: seq<Step>, i: nat, t: Tid, u: Tid)
    requires Run(ms, steps) && i < |ms|
    ensures MutexOk(ms[i])
    ensures t in ms[i].owner && u in ms[i].owner ==> t == u
    ensures t in ms[i].owner ==> ms[i].holder == Some(t) && Granted(ms[i].x) == {}
  {
    hide Next, CanStep, ClientsOk;
    RunStep(ms, steps, i);
    if t in ms[i].owner {
      OwnerAlone(ms[i], t);
    }
  }

  // ---- free implies no waiters, without finite timeouts ----

  ghost predicate FreeMeansNoWaiters(m: Mutex)
    requires m.x.w in m.x.k.waits
  {
    Owners(m) == {} ==> Queue(m.x) == []
  }

  /** No thread inside wait_queue_block has a timer. */
  ghost predicate Untimed(m: Mutex) {
    forall t :: t in m.x.inside ==> !m.x.inside[t]
  }

  ghost predicate UntimedOk(m: Mutex) {
    MutexOk(m) && Untimed(m) && FreeMeansNoWaiters(m)
  }

  lemma UntimedAcquire(m: Mutex, c: nat, timeout: Timeout)
    requires CanStep(m, Acquire(c, timeout)) && UntimedOk(m) && timeout != Finite
    ensures UntimedOk(AcquireStart(m, c, timeout))
  {
    hide Inv, S.WaitBlock;
    AcquireKeeps(m, c, timeout);
    assert Expired(m.x) == {};
    if m.count + 1 > 1 {
      if timeout != Zero {
        EnterEffect(m.x, c, timeout == Finite);
      }
    } else {
      assert m.x.k.current[c] in Owners(AcquireStart(m, c, timeout));
    }
  }

  lemma UntimedReturn(m: Mutex, c: nat)
    requires CanStep(m, Return(c)) && UntimedOk(m)
    ensures UntimedOk(AcquireEnd(m, c))
  {
    ReturnKeeps(m, c);
    RunningNotQueued(m.x, c);
    assert m.x.k.threads[m.x.k.current[c]].blockRet == NO_ERROR;
    assert m.x.k.current[c] in Owners(AcquireEnd(m, c));
  }

  lemma UntimedRelease(m: Mutex, c: nat)
    requires CanStep(m, Release(c)) && UntimedOk(m)
    ensures UntimedOk(ReleaseOf(m, c))
  {
    ReleaseKeeps(m, c);
    OwnerAlone(m, m.x.k.current[c]);
    assert Expired(m.x) == {};
    if m.count - 1 >= 1 {
      WakeFirstEffect(m.x, c, true);
      assert Queue(m.x)[0] in Owners(ReleaseOf(m, c));
    }
  }

  lemma UntimedNext(m: Mutex, step: Step)
    requires CanStep(m, step) && UntimedOk(m) && (step.Acquire? ==> step.timeout != Finite)
    ensures UntimedOk(Next(m, step))
  {
    match step
    case Acquire(c, timeout) => UntimedAcquire(m, c, timeout);
    case Return(c) => UntimedReturn(m, c);
    case Release(c) => UntimedRelease(m, c);
    case TimerFires(t) =>
    case Else(op) =>
      ElsewhereEffect(m.x, op);
  }

  /** In runs whose timeouts are 0 or INFINITE_TIME, a free mutex has no queued waiters. */
  lemma {:induction false} UntimedRun(ms: seq<Mutex>, steps: seq<Step>, i: nat)
    requires Run(ms, steps) && i < |ms| && UntimedOk(ms[0])
    requires forall j :: 0 <= j < |steps| && steps[j].Acquire? ==> steps[j].timeout != Finite
    ensures UntimedOk(ms[i])
  {
    hide Next, CanStep, ClientsOk;
    if i > 0 {
      UntimedRun(ms, steps, i - 1);
      RunStep(ms, steps, i - 1);
      UntimedNext(ms[i - 1], steps[i - 1]);
    }
  }
}

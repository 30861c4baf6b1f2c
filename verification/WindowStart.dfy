/** A kernel in which the windows open that finite timeouts leave: three threads on two CPUs. */
module WindowStart {
  import opened Basics
  import opened Sched
  import S = Steps
  import opened WaitClients
  import Dispatch

  const PRIORITY: nat := 16
  const HOLDER: Tid := 2
  const NEWCOMER: Tid := 3
  const TIMED: Tid := 4

  function ThreadOf(t: Tid): Thread {
    if t < 2 then Thread(Ready, 0, 0, false, true, t, -1, None, NO_ERROR)
    else if t == HOLDER then Thread(Running, PRIORITY, 5, false, false, -1, 0, None, NO_ERROR)
    else if t == TIMED then Thread(Running, PRIORITY, 5, false, false, -1, 1, None, NO_ERROR)
    else Thread(Ready, PRIORITY, 5, false, false, -1, -1, None, NO_ERROR)
  }

  function RunQueueOf(p: nat): seq<Tid> {
    if p == PRIORITY then [NEWCOMER] else []
  }

  function WaitQueueOf(w: Wid): WaitQueue {
    WaitQueue([], 0)
  }

  /** Two CPUs: one runs the holder, one the thread that is about to wait; a third thread is ready. */
  function Start(): Kernel {
    Kernel(
      seq(NUM_PRIORITIES, (p: nat) => RunQueueOf(p)),
      {PRIORITY},
      map t: Tid | t < 5 :: ThreadOf(t),
      map w: Wid | w < 1 :: WaitQueueOf(w),
      [HOLDER, TIMED],
      [0, 1])
  }

  lemma StartRunQueues()
    ensures RunQueuesOk(Start())
  {
    var k := Start();
    forall p, t | 0 <= p < NUM_PRIORITIES
      ensures t in k.runQueue[p] <==>
              t in k.threads && k.threads[t].state == Ready && !k.threads[t].idle && k.threads[t].priority == p
    {
      assert k.runQueue[p] == RunQueueOf(p);
      if t in k.threads {
        assert k.threads[t] == ThreadOf(t);
      }
    }
  }

  lemma StartThread(t: Tid)
    ensures t in Start().threads <==> t < 5
    ensures t < 5 ==> Start().threads[t] == ThreadOf(t)
  {
  }

  lemma StartWaits()
    ensures WaitQueuesOk(Start())
  {
    var k := Start();
    forall t | t in k.threads
      ensures k.threads[t].state != Blocked && k.threads[t].blockingOn.None?
    {
      StartThread(t);
    }
  }

  lemma StartCurrent()
    ensures CurrentOk(Start(), -1)
  {
    StartThread(HOLDER);
    StartThread(TIMED);
  }

  lemma StartRunning()
    ensures RunningOk(Start())
  {
    var k := Start();
    forall t | t in k.threads && k.threads[t].state == Running
      ensures 0 <= k.threads[t].currCpu < 2 && k.current[k.threads[t].currCpu] == t
    {
      StartThread(t);
    }
  }

  lemma StartIdle()
    ensures IdleOk(Start())
  {
    var k := Start();
    StartThread(0);
    StartThread(1);
    forall t | t in k.threads && k.threads[t].idle
      ensures t < 2 && k.threads[t] == ThreadOf(t)
    {
      StartThread(t);
    }
  }

  lemma StartOk()
    ensures Inv(Start()) && S.CanBlock(Start(), 1)
  {
    hide RunQueuesOk, WaitQueuesOk, CurrentOk, RunningOk, IdleOk;
    StartRunQueues();
    StartWaits();
    StartCurrent();
    StartRunning();
    StartIdle();
    StartThread(TIMED);
  }

  /** When the current thread blocks, the only thread of the highest priority follows it. */
  lemma BlockSwitches(k: Kernel, c: nat, w: Wid, p: nat, u: Tid)
    requires S.CanBlock(k, c) && w in k.waits && p < NUM_PRIORITIES
    requires k.runQueue[p] == [u] && u in k.threads && k.threads[u].pinnedCpu < 0
    requires forall q :: p < q < NUM_PRIORITIES ==> k.runQueue[q] == []
    ensures S.WaitBlock(k, c, w).current == k.current[c := u]
    ensures forall t :: t in k.threads ==>
              t in S.WaitBlock(k, c, w).threads && S.WaitBlock(k, c, w).threads[t].idle == k.threads[t].idle
  {
    hide CpusOk, WaitQueuesOk;
    var t := k.current[c];
    ParkKeeps(k, c);
    WaitAddKeeps(Park(k, c), c, w, t);
    var k1 := WaitAdd(Park(k, c), w, t);
    ReschedKeepsThreads(k1, c);
    assert u in k.runQueue[p];
    assert Eligible(k1, u, c);
    CpuCount(k1, c);
    Dispatch.HeadIsTop(k1, c, p);
  }

  lemma CpuCount(k: Kernel, sw: int)
    requires Consistent(k, sw)
    ensures |k.idle| == |k.current|
  {
  }

  lemma StartFacts()
    ensures Inv(Start()) && S.CanBlock(Start(), 1) && 0 in Start().waits && Start().waits[0].list == []
    ensures HOLDER in Start().threads && NEWCOMER in Start().threads
    ensures !Start().threads[HOLDER].idle && !Start().threads[NEWCOMER].idle
    ensures S.WaitBlock(Start(), 1, 0).current == [HOLDER, NEWCOMER]
    ensures forall t :: t in Start().threads ==>
              t in S.WaitBlock(Start(), 1, 0).threads
              && S.WaitBlock(Start(), 1, 0).threads[t].idle == Start().threads[t].idle
  {
    hide S.WaitBlock, Inv;
    StartOk();
    StartThread(HOLDER);
    StartThread(NEWCOMER);
    assert Start().runQueue[PRIORITY] == RunQueueOf(PRIORITY);
    assert forall q :: PRIORITY < q < NUM_PRIORITIES ==> Start().runQueue[q] == RunQueueOf(q);
    BlockSwitches(Start(), 1, 0, PRIORITY, NEWCOMER);
    assert Start().current[1 := NEWCOMER] == [HOLDER, NEWCOMER];
  }

  lemma StartCpus()
    ensures Start().current == [HOLDER, TIMED]
  {
  }

  /** CPU 0 runs the holder, CPU 1 the newcomer. */
  ghost predicate TwoRun(k: Kernel) {
    && k.current == [HOLDER, NEWCOMER] && HOLDER in k.threads && NEWCOMER in k.threads
    && !k.threads[HOLDER].idle && !k.threads[NEWCOMER].idle
  }

  lemma TimeoutKeepsCurrent(x: Clients, t: Tid)
    requires ClientsOk(x) && t in x.inside && t in Queue(x)
    ensures var k' := Expire(x, t).k;
            && k'.current == x.k.current
            && forall u :: u in x.k.threads ==> u in k'.threads && k'.threads[u].idle == x.k.threads[u].idle
  {
  }
}

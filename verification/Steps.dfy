/**
 * The operations of kernel/thread.c as functions from scheduler state to scheduler
 * state.  Each is one critical section of thread_lock, up to and including the context
 * switch in it; `c` is the CPU that runs it.
 */
module Steps {
  import opened Basics
  import opened Sched

  predicate OnCpu(k: Kernel, c: nat) {
    c < |k.current| && k.current[c] in k.threads
  }

  ghost predicate CanBlock(k: Kernel, c: nat) {
    Inv(k) && OnCpu(k, c) && !k.threads[k.current[c]].idle
  }

  // ---- changes that no queue depends on ----

  /** `th` is `t`'s record up to the fields that say nothing about queues and CPUs. */
  ghost predicate SameRole(k: Kernel, t: Tid, th: Thread) {
    && t in k.threads
    && var o := k.threads[t];
    && th.state == o.state && th.priority == o.priority && th.idle == o.idle && th.pinnedCpu == o.pinnedCpu
    && th.currCpu == o.currCpu && th.blockingOn == o.blockingOn
  }

  lemma SameRoleKeeps(k: Kernel, sw: int, t: Tid, th: Thread)
    requires Consistent(k, sw) && SameRole(k, t, th)
    ensures Consistent(SetThread(k, t, th), sw)
  {
    var k' := SetThread(k, t, th);
    assert RunQueuesOk(k');
    assert WaitQueuesOk(k');
    assert CurrentOk(k', sw);
    assert RunningOk(k');
    assert IdleOk(k');
  }

  /** A thread in no queue may change its priority, go to sleep, or die. */
  lemma LooseKeeps(k: Kernel, sw: int, t: Tid, state: State, priority: int)
    requires Consistent(k, sw) && t in k.threads && k.threads[t].state == Suspended && !k.threads[t].idle
    requires state in {Suspended, Sleeping, Death} && 0 <= priority < NUM_PRIORITIES
    ensures Consistent(SetThread(k, t, k.threads[t].(state := state, priority := priority)), sw)
  {
    var k' := SetThread(k, t, k.threads[t].(state := state, priority := priority));
    assert RunQueuesOk(k');
    assert WaitQueuesOk(k');
    assert CurrentOk(k', sw);
    assert RunningOk(k');
    assert IdleOk(k');
  }

  /** The current thread goes back into the run queue, unless it is the idle thread. */
  function Requeue(k: Kernel, c: nat, head: bool): Kernel
    requires Inv(k) && OnCpu(k, c)
  {
    var t := k.current[c];
    var k1 := Park(k, c);
    assert Consistent(k1, c) by {
      ParkKeeps(k, c);
    }
    if k.threads[t].idle then k1 else Enqueue(k1, t, head)
  }

  lemma RequeueKeeps(k: Kernel, c: nat, head: bool)
    requires Inv(k) && OnCpu(k, c)
    ensures Consistent(Requeue(k, c, head), c)
    ensures Requeue(k, c, head).current == k.current && Requeue(k, c, head).waits == k.waits
  {
    ParkKeeps(k, c);
    if !k.threads[k.current[c]].idle {
      EnqueueKeeps(Park(k, c), c, k.current[c], head);
    }
  }

  // ---- yield, preempt, tick, sleep, priority ----

  function SetQuantum(k: Kernel, t: Tid, q: int): Kernel
    requires t in k.threads
  {
    SetThread(k, t, k.threads[t].(quantum := q))
  }

  /** thread_yield */
  function Yield(k: Kernel, c: nat): (k': Kernel)
    requires Inv(k) && OnCpu(k, c)
    ensures Inv(k') && OnCpu(k', c)
  {
    var k1 := SetQuantum(k, k.current[c], 0);
    SameRoleKeeps(k, -1, k.current[c], k.threads[k.current[c]].(quantum := 0));
    RequeueKeeps(k1, c, false);
    ReschedKeeps(Requeue(k1, c, false), c);
    Resched(Requeue(k1, c, false), c)
  }

  /** thread_preempt: to the head of the queue with quantum left, else to the tail. */
  function Preempt(k: Kernel, c: nat): (k': Kernel)
    requires Inv(k) && OnCpu(k, c)
    ensures Inv(k') && OnCpu(k', c)
  {
    var head := k.threads[k.current[c]].quantum > 0;
    RequeueKeeps(k, c, head);
    ReschedKeeps(Requeue(k, c, head), c);
    Resched(Requeue(k, c, head), c)
  }

  /** thread_timer_tick: the new state, and whether to reschedule. */
  function TimerTick(k: Kernel, c: nat): (r: (Kernel, bool))
    requires Inv(k) && OnCpu(k, c)
    ensures Inv(r.0) && r.0.current == k.current && OnCpu(r.0, c)
  {
    var t := k.current[c];
    var th := k.threads[t];
    if th.realTime || th.idle then (k, false)
    else
      SameRoleKeeps(k, -1, t, th.(quantum := th.quantum - 1));
      (SetQuantum(k, t, th.quantum - 1), th.quantum - 1 <= 0)
  }

  /** A timer interrupt on CPU `c`: the tick, then the preemption it asks for. */
  function TickInterrupt(k: Kernel, c: nat): (k': Kernel)
    requires Inv(k) && OnCpu(k, c)
    ensures Inv(k') && OnCpu(k', c)
  {
    var (k1, resched) := TimerTick(k, c);
    if resched then Preempt(k1, c) else k1
  }

  /** thread_sleep, up to the switch. */
  function SleepStart(k: Kernel, c: nat): (k': Kernel)
    requires CanBlock(k, c)
    ensures Inv(k')
  {
    var t := k.current[c];
    ParkKeeps(k, c);
    var k1 := Park(k, c);
    LooseKeeps(k1, c, t, Sleeping, k1.threads[t].priority);
    var k2 := SetThread(k1, t, k1.threads[t].(state := Sleeping));
    assert k2 == SetThread(k1, t, k1.threads[t].(state := Sleeping, priority := k1.threads[t].priority));
    ReschedKeeps(k2, c);
    Resched(k2, c)
  }

  /** thread_sleep_handler */
  function SleepEnd(k: Kernel, t: Tid): (k': Kernel)
    requires Inv(k) && t in k.threads && k.threads[t].state == Sleeping
    ensures Inv(k')
  {
    EnqueueKeeps(k, -1, t, true);
    Enqueue(k, t, true)
  }

  /** The critical section of thread_resume. */
  function Resume(k: Kernel, t: Tid): (k': Kernel)
    requires Inv(k) && t in k.threads
    ensures Inv(k')
  {
    if k.threads[t].state != Suspended then k
    else
      EnqueueKeeps(k, -1, t, true);
      Enqueue(k, t, true)
  }

  /** thread_resume called on CPU `c`: a thread that was suspended is resumed, and the caller yields to it. */
  function ResumeAndYield(k: Kernel, c: nat, t: Tid, intsDisabled: bool): (k': Kernel)
    requires Inv(k) && OnCpu(k, c) && t in k.threads
    ensures Inv(k')
  {
    if k.threads[t].state == Suspended && !intsDisabled then
      EnqueueKeeps(k, -1, t, true);
      Yield(Resume(k, t), c)
    else
      Resume(k, t)
  }

  function ClampPriority(p: int): int {
    if p <= IDLE_PRIORITY then IDLE_PRIORITY + 1 else if p > HIGHEST_PRIORITY then HIGHEST_PRIORITY else p
  }

  /** thread_set_priority */
  function SetPriority(k: Kernel, c: nat, p: int): (k': Kernel)
    requires CanBlock(k, c)
    ensures Inv(k')
  {
    var t := k.current[c];
    ParkKeeps(k, c);
    var k1 := Park(k, c);
    LooseKeeps(k1, c, t, Suspended, ClampPriority(p));
    var k2 := SetThread(k1, t, k1.threads[t].(priority := ClampPriority(p)));
    assert k2 == SetThread(k1, t, k1.threads[t].(state := Suspended, priority := ClampPriority(p)));
    EnqueueKeeps(k2, c, t, true);
    ReschedKeeps(Enqueue(k2, t, true), c);
    Resched(Enqueue(k2, t, true), c)
  }

  // ---- wait queues ----

  /** wait_queue_block with a non-zero timeout, up to the switch. */
  function WaitBlock(k: Kernel, c: nat, w: Wid): (k': Kernel)
    requires CanBlock(k, c) && w in k.waits
    ensures Inv(k')
  {
    var t := k.current[c];
    ParkKeeps(k, c);
    WaitAddKeeps(Park(k, c), c, w, t);
    var k1 := WaitAdd(Park(k, c), w, t);
    ReschedKeeps(k1, c);
    Resched(k1, c)
  }

  /** Moving the thread at index `i` of a wait queue to the head of its run queue. */
  function Wake(k: Kernel, sw: int, w: Wid, i: nat, ret: int): (k': Kernel)
    requires Consistent(k, sw) && w in k.waits && i < |k.waits[w].list|
    ensures Consistent(k', sw) && k'.current == k.current && k'.waits.Keys == k.waits.Keys
    ensures k'.waits == k.waits[w := WaitQueue(RemoveAt(k.waits[w].list, i), k.waits[w].count - 1)]
  {
    WaitRemoveKeeps(k, sw, w, i, ret);
    var k1 := WaitRemove(k, w, i, ret);
    EnqueueKeeps(k1, sw, k.waits[w].list[i], true);
    Enqueue(k1, k.waits[w].list[i], true)
  }

  /** wait_queue_wake_one: the new state, and how many threads were woken. */
  function WakeOne(k: Kernel, c: nat, w: Wid, reschedule: bool, ret: int): (r: (Kernel, nat))
    requires Inv(k) && w in k.waits && (reschedule ==> CanBlock(k, c))
    ensures Inv(r.0)
  {
    if k.waits[w].list == [] then (k, 0)
    else if reschedule then
      RequeueKeeps(k, c, true);
      var k1 := Wake(Requeue(k, c, true), c, w, 0, ret);
      ReschedKeeps(k1, c);
      (Resched(k1, c), 1)
    else
      (Wake(k, -1, w, 0, ret), 1)
  }

  /** The loop of wait_queue_wake_all. */
  function WakeEach(k: Kernel, sw: int, w: Wid, ret: int): Kernel
    requires Consistent(k, sw) && w in k.waits
    decreases |k.waits[w].list|
  {
    if k.waits[w].list == [] then k else WakeEach(Wake(k, sw, w, 0, ret), sw, w, ret)
  }

  lemma EmptyWaitQueue(k: Kernel, sw: int, w: Wid)
    requires Consistent(k, sw) && w in k.waits && k.waits[w].list == []
    ensures k.waits == k.waits[w := WaitQueue([], 0)]
  {
    assert k.waits[w] == WaitQueue([], 0);
  }

  lemma {:induction false} WakeEachKeeps(k: Kernel, sw: int, w: Wid, ret: int)
    requires Consistent(k, sw) && w in k.waits
    ensures Consistent(WakeEach(k, sw, w, ret), sw) && WakeEach(k, sw, w, ret).current == k.current
    ensures WakeEach(k, sw, w, ret).waits == k.waits[w := WaitQueue([], 0)]
    decreases |k.waits[w].list|
  {
    hide Consistent;
    if k.waits[w].list == [] {
      EmptyWaitQueue(k, sw, w);
    } else {
      WakeEachKeeps(Wake(k, sw, w, 0, ret), sw, w, ret);
    }
  }

  /** wait_queue_wake_all */
  function WakeAll(k: Kernel, c: nat, w: Wid, reschedule: bool, ret: int): (r: (Kernel, nat))
    requires Inv(k) && w in k.waits && (reschedule ==> CanBlock(k, c))
    ensures Inv(r.0)
  {
    var n := |k.waits[w].list|;
    if reschedule && k.waits[w].count > 0 then
      RequeueKeeps(k, c, true);
      WakeEachKeeps(Requeue(k, c, true), c, w, ret);
      var k1 := WakeEach(Requeue(k, c, true), c, w, ret);
      ReschedKeeps(k1, c);
      (Resched(k1, c), n)
    else
      WakeEachKeeps(k, -1, w, ret);
      (WakeEach(k, -1, w, ret), n)
  }

  /** The index of `t` in a list that holds it. */
  function IndexOf(l: seq<Tid>, t: Tid): (i: nat)
    requires t in l
    ensures i < |l| && l[i] == t
  {
    if l[0] == t then 0 else 1 + IndexOf(l[1..], t)
  }

  /** thread_unblock_from_wait_queue: the new state and the result. */
  function Unblock(k: Kernel, t: Tid, ret: int): (r: (Kernel, int))
    requires Inv(k) && t in k.threads
    ensures Inv(r.0)
  {
    if k.threads[t].state != Blocked then (k, ERR_NOT_BLOCKED)
    else
      var w := k.threads[t].blockingOn.value;
      assert t in k.waits[w].list;
      (Wake(k, -1, w, IndexOf(k.waits[w].list, t), ret), NO_ERROR)
  }

  /** thread_exit; `w` is the queue of the threads that join, if the thread is not detached. */
  function Exit(k: Kernel, c: nat, w: Option<Wid>): (k': Kernel)
    requires CanBlock(k, c) && (w.Some? ==> w.value in k.waits)
    ensures Inv(k')
  {
    var t := k.current[c];
    ParkKeeps(k, c);
    var k1 := Park(k, c);
    LooseKeeps(k1, c, t, Death, k1.threads[t].priority);
    var k2 := SetThread(k1, t, k1.threads[t].(state := Death));
    assert k2 == SetThread(k1, t, k1.threads[t].(state := Death, priority := k1.threads[t].priority));
    var k3 := if w.Some? then
                WakeEachKeeps(k2, c, w.value, NO_ERROR);
                WakeEach(k2, c, w.value, NO_ERROR)
              else k2;
    ReschedKeeps(k3, c);
    Resched(k3, c)
  }

  // ---- threads and wait queues come into being ----

  /** thread_create_etc: a suspended thread that is in no queue. */
  function Create(k: Kernel, t: Tid, priority: int, pinnedCpu: int): (k': Kernel)
    requires Inv(k) && t !in k.threads && 0 <= priority < NUM_PRIORITIES
    ensures Inv(k')
  {
    var k' := SetThread(k, t, Thread(Suspended, priority, 0, false, false, pinnedCpu, -1, None, NO_ERROR));
    assert RunQueuesOk(k') && WaitQueuesOk(k') && CurrentOk(k', -1) && RunningOk(k') && IdleOk(k');
    k'
  }

  /** wait_queue_init */
  function WaitInit(k: Kernel, w: Wid): (k': Kernel)
    requires Inv(k) && w !in k.waits
    ensures Inv(k')
  {
    var k' := k.(waits := k.waits[w := WaitQueue([], 0)]);
    assert RunQueuesOk(k') && WaitQueuesOk(k') && CurrentOk(k', -1) && RunningOk(k') && IdleOk(k');
    k'
  }

  /** thread_set_real_time */
  function SetRealTime(k: Kernel, t: Tid): (k': Kernel)
    requires Inv(k) && t in k.threads
    ensures Inv(k')
  {
    SameRoleKeeps(k, -1, t, k.threads[t].(realTime := true));
    SetThread(k, t, k.threads[t].(realTime := true))
  }
}

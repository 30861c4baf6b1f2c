/**
 * Where each operation of kernel/thread.c puts the threads it works on: head or tail of
 * which queue, and whether the CPU switches.
 */
module Placement {
  import opened Sched
  import opened Steps
  import opened Dispatch
  import opened Basics

  /** `t` if it is of priority `p` */
  function At(k: Kernel, t: Tid, p: int): seq<Tid>
    requires t in k.threads
  {
    if k.threads[t].priority == p then [t] else []
  }

  /** `k1` is a state in which CPU `c` is about to switch, and `k'` the one after the switch. */
  ghost predicate Switches(k1: Kernel, c: nat, k': Kernel) {
    Consistent(k1, c) && c < |k1.current| && k' == Resched(k1, c)
  }

  lemma RequeuedAt(k: Kernel, c: nat, head: bool, p: nat)
    requires CanBlock(k, c) && p < NUM_PRIORITIES
    ensures var k1 := Requeue(k, c, head);
            && Consistent(k1, c) && c < |k1.current| && |k1.runQueue| == NUM_PRIORITIES && p < |k.runQueue|
            && k1.threads.Keys == k.threads.Keys && k1.waits == k.waits
            && (forall t :: t in k.threads ==> k1.threads[t].priority == k.threads[t].priority)
            && k1.runQueue[p] == if head then At(k, k.current[c], p) + k.runQueue[p]
                                 else k.runQueue[p] + At(k, k.current[c], p)
  {
    RequeueKeeps(k, c, head);
  }

  /** A thread that yields goes to the tail of its queue, with no quantum left. */
  lemma YieldGoesLast(k: Kernel, c: nat, p: nat)
    requires CanBlock(k, c) && p < NUM_PRIORITIES
    ensures exists k1 ::
              && Switches(k1, c, Yield(k, c)) && p < |k1.runQueue| && p < |k.runQueue|
              && k1.runQueue[p] == k.runQueue[p] + At(k, k.current[c], p)
              && k.current[c] in k1.threads && k1.threads[k.current[c]].quantum == 0
  {
    var t := k.current[c];
    SameRoleKeeps(k, -1, t, k.threads[t].(quantum := 0));
    var k0 := SetQuantum(k, t, 0);
    RequeuedAt(k0, c, false, p);
    assert Switches(Requeue(k0, c, false), c, Yield(k, c));
  }

  /** A preempted thread goes to the head of its queue with quantum left, and to the tail without. */
  lemma PreemptGoes(k: Kernel, c: nat, p: nat)
    requires CanBlock(k, c) && p < NUM_PRIORITIES
    ensures exists k1 ::
              && Switches(k1, c, Preempt(k, c)) && p < |k1.runQueue| && p < |k.runQueue|
              && k1.runQueue[p] == if k.threads[k.current[c]].quantum > 0 then At(k, k.current[c], p) + k.runQueue[p]
                                   else k.runQueue[p] + At(k, k.current[c], p)
  {
    var head := k.threads[k.current[c]].quantum > 0;
    RequeuedAt(k, c, head, p);
    assert Switches(Requeue(k, c, head), c, Preempt(k, c));
  }

  /** A waiter that is woken with rescheduling runs before the caller, and both before the rest. */
  lemma WakeOneGoesFirst(k: Kernel, c: nat, w: Wid, ret: int, p: nat)
    requires CanBlock(k, c) && w in k.waits && k.waits[w].list != [] && p < NUM_PRIORITIES
    ensures k.waits[w].list[0] in k.threads
    ensures exists k1 ::
              && Switches(k1, c, WakeOne(k, c, w, true, ret).0) && p < |k1.runQueue| && p < |k.runQueue|
              && k1.runQueue[p] == At(k, k.waits[w].list[0], p) + (At(k, k.current[c], p) + k.runQueue[p])
              && w in k1.waits && k1.waits[w].list == k.waits[w].list[1..]
  {
    RequeuedAt(k, c, true, p);
    var k0 := Requeue(k, c, true);
    WaitersExist(k, -1, w);
    assert k.waits[w].list[0] in k.waits[w].list;
    WakeOrder(k0, c, w, ret, p);
    assert Switches(Wake(k0, c, w, 0, ret), c, WakeOne(k, c, w, true, ret).0);
  }

  /** Without rescheduling the waiter goes to the head of its queue, and the CPU does not switch. */
  lemma WakeOneQuietly(k: Kernel, c: nat, w: Wid, ret: int, p: nat)
    requires Inv(k) && w in k.waits && k.waits[w].list != [] && p < NUM_PRIORITIES
    ensures k.waits[w].list[0] in k.threads
    ensures var k' := WakeOne(k, c, w, false, ret).0;
            && |k'.runQueue| == NUM_PRIORITIES && p < |k.runQueue| && k'.current == k.current
            && k'.runQueue[p] == At(k, k.waits[w].list[0], p) + k.runQueue[p]
            && w in k'.waits && k'.waits[w].list == k.waits[w].list[1..]
  {
    WaitersExist(k, -1, w);
    assert k.waits[w].list[0] in k.waits[w].list;
    WakeOrder(k, -1, w, ret, p);
  }

  /** wake_all switches iff it is asked to and there is a waiter, which is when it enqueues the caller. */
  lemma WakeAllSwitchesIff(k: Kernel, c: nat, w: Wid, reschedule: bool, ret: int)
    requires CanBlock(k, c) && w in k.waits
    ensures Consistent(Requeue(k, c, true), c) && w in Requeue(k, c, true).waits
    ensures var (k', n) := WakeAll(k, c, w, reschedule, ret);
            && n == |k.waits[w].list|
            && (reschedule && n > 0 ==> Switches(WakeEach(Requeue(k, c, true), c, w, ret), c, k'))
            && (!(reschedule && n > 0) ==> k' == WakeEach(k, -1, w, ret) && k'.current == k.current)
  {
    RequeueKeeps(k, c, true);
    WakeEachKeeps(Requeue(k, c, true), c, w, ret);
    WakeEachKeeps(k, -1, w, ret);
    assert k.waits[w].count == |k.waits[w].list|;
  }

  /** A thread that blocks goes to the tail of the wait queue, and the run queues are as before. */
  lemma BlockGoesLast(k: Kernel, c: nat, w: Wid)
    requires CanBlock(k, c) && w in k.waits
    ensures exists k1 ::
              && Switches(k1, c, WaitBlock(k, c, w)) && k1.runQueue == k.runQueue
              && k1.waits == k.waits[w := WaitQueue(k.waits[w].list + [k.current[c]], |k.waits[w].list| + 1)]
  {
    ParkKeeps(k, c);
    WaitAddKeeps(Park(k, c), c, w, k.current[c]);
    assert k.waits[w].count == |k.waits[w].list|;
    assert Switches(WaitAdd(Park(k, c), w, k.current[c]), c, WaitBlock(k, c, w));
  }

  /** A thread that a timeout unblocks goes from wherever it waits to the head of its run queue. */
  lemma UnblockGoesFirst(k: Kernel, t: Tid, w: Wid, ret: int, p: nat)
    requires Inv(k) && w in k.waits && t in k.waits[w].list && t in k.threads && p < NUM_PRIORITIES
    ensures var (k', status) := Unblock(k, t, ret);
            && status == NO_ERROR && |k'.runQueue| == NUM_PRIORITIES && p < |k.runQueue| && k'.current == k.current
            && k'.runQueue[p] == At(k, t, p) + k.runQueue[p]
            && w in k'.waits && (forall u :: u in k'.waits[w].list <==> u in k.waits[w].list && u != t)
  {
    var i := IndexOf(k.waits[w].list, t);
    WaitRemoveKeeps(k, -1, w, i, ret);
    RemoveAtMembers(k.waits[w].list, i);
  }

  /** A thread that is not blocked is left alone. */
  lemma UnblockOther(k: Kernel, t: Tid, ret: int)
    requires Inv(k) && t in k.threads && forall w :: w in k.waits ==> t !in k.waits[w].list
    ensures Unblock(k, t, ret) == (k, ERR_NOT_BLOCKED)
  {
    if k.threads[t].state == Blocked {
      BlockedIsQueued(k, t);
      assert false;
    }
  }

  lemma BlockedIsQueued(k: Kernel, t: Tid)
    requires Inv(k) && t in k.threads && k.threads[t].state == Blocked
    ensures exists w :: w in k.waits && t in k.waits[w].list
  {
    assert t in k.waits[k.threads[t].blockingOn.value].list;
  }

  lemma CurrentFacts(k: Kernel, c: nat)
    requires CanBlock(k, c)
    ensures k.current[c] in k.threads && |k.runQueue| == NUM_PRIORITIES
    ensures 0 <= k.threads[k.current[c]].priority < NUM_PRIORITIES
  {
  }

  /** A sleeper that wakes, and a suspended thread that is resumed, go to the head of their queue. */
  lemma ReadiedGoesFirst(k: Kernel, t: Tid, p: nat)
    requires Inv(k) && t in k.threads && k.threads[t].state in {Suspended, Sleeping} && p < NUM_PRIORITIES
    ensures var k' := if k.threads[t].state == Suspended then Resume(k, t) else SleepEnd(k, t);
            && |k'.runQueue| == NUM_PRIORITIES && p < |k.runQueue| && k'.current == k.current && k'.waits == k.waits
            && k'.runQueue[p] == At(k, t, p) + k.runQueue[p]
  {
  }

  /** After a resume the thread stands first in its queue and the caller last, and the CPU switches. */
  lemma ResumeRunsFirst(k: Kernel, c: nat, t: Tid, p: nat)
    requires CanBlock(k, c) && t in k.threads && k.threads[t].state == Suspended && p < NUM_PRIORITIES
    ensures exists k1 ::
              && Switches(k1, c, ResumeAndYield(k, c, t, false)) && p < |k1.runQueue| && p < |k.runQueue|
              && k1.runQueue[p] == At(k, t, p) + k.runQueue[p] + At(k, k.current[c], p)
  {
    hide RunQueuesOk, WaitQueuesOk, CpusOk;
    ReadiedGoesFirst(k, t, p);
    CurrentFacts(k, c);
    YieldGoesLast(Resume(k, t), c, p);
  }

  /** With interrupts disabled nobody yields, and a thread that is not suspended is left alone. */
  lemma ResumeQuietly(k: Kernel, c: nat, t: Tid, intsDisabled: bool)
    requires Inv(k) && OnCpu(k, c) && t in k.threads
    ensures k.threads[t].state != Suspended ==> ResumeAndYield(k, c, t, intsDisabled) == k
    ensures intsDisabled ==> ResumeAndYield(k, c, t, intsDisabled) == Resume(k, t) && Resume(k, t).current == k.current
  {
  }

  /** A thread that sets its priority goes to the head of the queue of the new priority, which is never that of the idle threads. */
  lemma PrioritySet(k: Kernel, c: nat, priority: int, p: nat)
    requires CanBlock(k, c) && p < NUM_PRIORITIES
    ensures IDLE_PRIORITY < ClampPriority(priority) <= HIGHEST_PRIORITY
    ensures IDLE_PRIORITY < priority <= HIGHEST_PRIORITY ==> ClampPriority(priority) == priority
    ensures exists k1 ::
              && Switches(k1, c, SetPriority(k, c, priority)) && p < |k1.runQueue| && p < |k.runQueue|
              && k1.runQueue[p] == (if p == ClampPriority(priority) then [k.current[c]] else []) + k.runQueue[p]
  {
    hide RunQueuesOk, WaitQueuesOk, CpusOk;
    CurrentFacts(k, c);
    var t := k.current[c];
    ParkKeeps(k, c);
    var k1 := Park(k, c);
    LooseKeeps(k1, c, t, Suspended, ClampPriority(priority));
    var k2 := SetThread(k1, t, k1.threads[t].(priority := ClampPriority(priority)));
    assert k2 == SetThread(k1, t, k1.threads[t].(state := Suspended, priority := ClampPriority(priority)));
    EnqueueKeeps(k2, c, t, true);
    assert Switches(Enqueue(k2, t, true), c, SetPriority(k, c, priority));
  }

  /** A thread that exits wakes its joiners, in reverse order, and is in no queue. */
  lemma ExitWakesJoiners(k: Kernel, c: nat, w: Wid, p: nat)
    requires CanBlock(k, c) && w in k.waits && p < NUM_PRIORITIES
    requires forall t :: t in k.waits[w].list ==> t in k.threads
    ensures exists k1 ::
              && Switches(k1, c, Exit(k, c, Some(w))) && p < |k1.runQueue| && p < |k.runQueue|
              && k1.runQueue[p] == ReversedAt(k, k.waits[w].list, p) + k.runQueue[p]
              && w in k1.waits && k1.waits[w].list == []
  {
    hide RunQueuesOk, WaitQueuesOk, CpusOk;
    CurrentFacts(k, c);
    var t := k.current[c];
    ParkKeeps(k, c);
    var k1 := Park(k, c);
    LooseKeeps(k1, c, t, Death, k1.threads[t].priority);
    var k2 := SetThread(k1, t, k1.threads[t].(state := Death));
    assert k2 == SetThread(k1, t, k1.threads[t].(state := Death, priority := k1.threads[t].priority));
    WakeEachKeeps(k2, c, w, NO_ERROR);
    WakeEachOrder(k2, c, w, NO_ERROR, p);
    ReversedAtDependsOnPriorities(k, k2, k.waits[w].list, p);
    assert Switches(WakeEach(k2, c, w, NO_ERROR), c, Exit(k, c, Some(w)));
  }
}

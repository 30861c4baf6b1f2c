/** In which order threads run: wake-all, preemption, and the round robin of the quantum. */
module Dispatch {
  import opened Sched
  import opened Steps

  // ---- the order that wake-all leaves ----

  /** The threads of `l` with priority `p`, last first. */
  function ReversedAt(k: Kernel, l: seq<Tid>, p: int): seq<Tid>
    requires forall t :: t in l ==> t in k.threads
  {
    if l == [] then []
    else ReversedAt(k, l[1..], p) + (if k.threads[l[0]].priority == p then [l[0]] else [])
  }

  lemma {:induction false} ReversedAtDependsOnPriorities(k: Kernel, k1: Kernel, l: seq<Tid>, p: int)
    requires forall t :: t in l ==> t in k.threads && t in k1.threads
    requires forall t :: t in l ==> k.threads[t].priority == k1.threads[t].priority
    ensures ReversedAt(k, l, p) == ReversedAt(k1, l, p)
  {
    if l != [] {
      ReversedAtDependsOnPriorities(k, k1, l[1..], p);
    }
  }

  lemma WaitersExist(k: Kernel, sw: int, w: Wid)
    requires Consistent(k, sw) && w in k.waits
    ensures forall t :: t in k.waits[w].list ==> t in k.threads
  {
  }

  lemma WakeOrder(k: Kernel, sw: int, w: Wid, ret: int, p: nat)
    requires Consistent(k, sw) && w in k.waits && k.waits[w].list != [] && p < NUM_PRIORITIES
    ensures |Wake(k, sw, w, 0, ret).runQueue| == |k.runQueue|
    ensures var t := k.waits[w].list[0];
            && t in k.threads
            && Wake(k, sw, w, 0, ret).runQueue[p] ==
               (if k.threads[t].priority == p then [t] else []) + k.runQueue[p]
    ensures Wake(k, sw, w, 0, ret).threads.Keys == k.threads.Keys
    ensures forall t :: t in k.threads ==> Wake(k, sw, w, 0, ret).threads[t].priority == k.threads[t].priority
    ensures Wake(k, sw, w, 0, ret).waits[w].list == k.waits[w].list[1..]
  {
    WaitRemoveKeeps(k, sw, w, 0, ret);
    assert RemoveAt(k.waits[w].list, 0) == k.waits[w].list[1..];
  }

  /** Popping a wait queue to the heads of the run queues reverses it, per priority. */
  lemma {:induction false} WakeEachOrder(k: Kernel, sw: int, w: Wid, ret: int, p: nat)
    requires Consistent(k, sw) && w in k.waits && p < NUM_PRIORITIES && p < |k.runQueue|
    requires forall t :: t in k.waits[w].list ==> t in k.threads
    ensures |WakeEach(k, sw, w, ret).runQueue| == |k.runQueue|
    ensures WakeEach(k, sw, w, ret).runQueue[p] == ReversedAt(k, k.waits[w].list, p) + k.runQueue[p]
    decreases |k.waits[w].list|
  {
    hide Consistent, Wake;
    var l := k.waits[w].list;
    if l != [] {
      var k1 := Wake(k, sw, w, 0, ret);
      WakeOrder(k, sw, w, ret, p);
      WakeEachOrder(k1, sw, w, ret, p);
      ReversedAtDependsOnPriorities(k, k1, l[1..], p);
    }
  }

  lemma RequeuedFirst(k: Kernel, c: nat, p: nat)
    requires CanBlock(k, c) && p < NUM_PRIORITIES
    ensures Consistent(Requeue(k, c, true), c) && Requeue(k, c, true).waits == k.waits
    ensures Requeue(k, c, true).runQueue[p] ==
            (if k.threads[k.current[c]].priority == p then [k.current[c]] else []) + k.runQueue[p]
    ensures Requeue(k, c, true).threads.Keys == k.threads.Keys
    ensures forall t :: t in k.threads ==> Requeue(k, c, true).threads[t].priority == k.threads[t].priority
  {
    RequeueKeeps(k, c, true);
  }

  lemma RunQueueCount(k: Kernel, sw: int)
    requires Consistent(k, sw)
    ensures |k.runQueue| == NUM_PRIORITIES
  {
  }

  lemma WakeAllIs(k: Kernel, c: nat, w: Wid, ret: int)
    requires CanBlock(k, c) && w in k.waits
    ensures Consistent(Requeue(k, c, true), c) && w in Requeue(k, c, true).waits
    ensures var k1 := WakeEach(Requeue(k, c, true), c, w, ret);
            && k1.waits == k.waits[w := WaitQueue([], 0)] && Consistent(k1, c) && c < |k1.current|
            && WakeAll(k, c, w, true, ret) ==
               if k.waits[w].list != [] then (Resched(k1, c), |k.waits[w].list|) else (k, 0)
  {
    RequeueKeeps(k, c, true);
    WakeEachKeeps(Requeue(k, c, true), c, w, ret);
    WaitCount(k, w);
  }

  lemma WaitCount(k: Kernel, w: Wid)
    requires Inv(k) && w in k.waits
    ensures k.waits[w].count == |k.waits[w].list|
  {
  }

  /** wait_queue_wake_all, before the switch: waiters reversed, then the caller if it reschedules, then the old queue. */
  lemma WakeAllOrder(k: Kernel, c: nat, w: Wid, ret: int, p: nat)
    requires CanBlock(k, c) && w in k.waits && p < NUM_PRIORITIES
    requires forall t :: t in k.waits[w].list ==> t in k.threads
    ensures Consistent(Requeue(k, c, true), c) && w in Requeue(k, c, true).waits
    ensures |WakeEach(Requeue(k, c, true), c, w, ret).runQueue| == NUM_PRIORITIES
    ensures WakeEach(Requeue(k, c, true), c, w, ret).runQueue[p] ==
            ReversedAt(k, k.waits[w].list, p)
            + ((if k.threads[k.current[c]].priority == p then [k.current[c]] else []) + k.runQueue[p])
    ensures var k1 := WakeEach(Requeue(k, c, true), c, w, ret);
            && k1.waits == k.waits[w := WaitQueue([], 0)] && Consistent(k1, c) && c < |k1.current|
            && WakeAll(k, c, w, true, ret) ==
               if k.waits[w].list != [] then (Resched(k1, c), |k.waits[w].list|) else (k, 0)
  {
    WakeAllIs(k, c, w, ret);
    hide Inv, WakeEach, Consistent, WakeAll;
    RequeuedFirst(k, c, p);
    RunQueueCount(Requeue(k, c, true), c);
    var k1 := Requeue(k, c, true);
    WakeEachOrder(k1, c, w, ret, p);
    ReversedAtDependsOnPriorities(k, k1, k.waits[w].list, p);
  }

  // ---- preemption and round robin on CPU `c` ----

  /** All threads ready at priority `p` or above may run on `c`, and none is above `p`; `c` runs one of priority `p`. */
  ghost predicate TopSet(k: Kernel, c: nat, p: nat) {
    && Inv(k) && OnCpu(k, c) && p < NUM_PRIORITIES
    && var t := k.current[c];
    && !k.threads[t].idle && !k.threads[t].realTime && k.threads[t].pinnedCpu < 0 && k.threads[t].priority == p
    && k.threads[t].quantum <= QUANTUM
    && (forall q :: p < q < NUM_PRIORITIES ==> k.runQueue[q] == [])
    && (forall x :: x in k.runQueue[p] ==>
          !k.threads[x].realTime && k.threads[x].pinnedCpu < 0 && k.threads[x].quantum <= QUANTUM)
  }

  lemma {:induction false} TopPriorityIs(k: Kernel, n: nat, cpu: nat, p: nat)
    requires p < n <= |k.runQueue| && HasEligible(k, p, cpu)
    requires forall q :: p < q < n ==> k.runQueue[q] == []
    ensures TopPriority(k, n, cpu) == p
  {
    if n > p + 1 {
      TopPriorityIs(k, n - 1, cpu, p);
    }
  }

  /** If the head of the highest queue may run, it is the one that get_top_thread takes. */
  lemma HeadIsTop(k: Kernel, c: nat, p: nat)
    requires c < |k.idle| && |k.runQueue| == NUM_PRIORITIES && p < NUM_PRIORITIES
    requires k.runQueue[p] != [] && Eligible(k, k.runQueue[p][0], c)
    requires forall q :: p < q < NUM_PRIORITIES ==> k.runQueue[q] == []
    ensures GetTop(k, c) == (WithQueue(k, p, k.runQueue[p][1..]), k.runQueue[p][0])
  {
    TopPriorityIs(k, NUM_PRIORITIES, c, p);
    assert RemoveAt(k.runQueue[p], 0) == k.runQueue[p][1..];
  }

  lemma TopSetRequeued(k: Kernel, c: nat, p: nat, head: bool)
    requires TopSet(k, c, p)
    ensures c < |k.idle| && Consistent(Requeue(k, c, head), c)
    ensures var k1 := Requeue(k, c, head);
            && k1 == Enqueue(Park(k, c), k.current[c], head)
            && k1.runQueue == k.runQueue[p := if head then [k.current[c]] + k.runQueue[p] else k.runQueue[p] + [k.current[c]]]
            && Eligible(k1, k1.runQueue[p][0], c)
  {
    RequeueKeeps(k, c, head);
    if k.runQueue[p] != [] {
      assert k.runQueue[p][0] in k.runQueue[p];
    }
  }

  /** Preempting in a top set is a switch to the head of the requeued thread's queue. */
  lemma PreemptIsSwitch(k: Kernel, c: nat, p: nat)
    requires TopSet(k, c, p)
    ensures Inv(k) && OnCpu(k, c)
    ensures var k1 := Enqueue(Park(k, c), k.current[c], k.threads[k.current[c]].quantum > 0);
            && k1.runQueue[p] != [] && k1.runQueue[p][0] in k1.threads
            && Preempt(k, c) == SwitchTo(WithQueue(k1, p, k1.runQueue[p][1..]), k1.runQueue[p][0], c)
  {
    var head := k.threads[k.current[c]].quantum > 0;
    TopSetRequeued(k, c, p, head);
    HeadIsTop(Requeue(k, c, head), c, p);
  }

  lemma RequeueAndReturn(k: Kernel, c: nat, p: nat)
    requires OnCpu(k, c) && |k.runQueue| == NUM_PRIORITIES && p < NUM_PRIORITIES
    requires p in k.bitmap <==> k.runQueue[p] != []
    requires var th := k.threads[k.current[c]]; th.priority == p && th.state == Running && !th.idle
    ensures var k1 := Enqueue(Park(k, c), k.current[c], true);
            SwitchTo(WithQueue(k1, p, k1.runQueue[p][1..]), k.current[c], c) == k
  {
    var k1 := Enqueue(Park(k, c), k.current[c], true);
    assert k1.runQueue[p][1..] == k.runQueue[p];
    var k' := SwitchTo(WithQueue(k1, p, k1.runQueue[p][1..]), k.current[c], c);
    assert k'.runQueue == k.runQueue;
    assert k'.threads == k.threads;
  }

  /** With quantum left, preemption changes nothing. */
  lemma PreemptWithQuantumLeft(k: Kernel, c: nat, p: nat)
    requires TopSet(k, c, p) && k.threads[k.current[c]].quantum > 0
    ensures Preempt(k, c) == k
  {
    hide Preempt;
    PreemptIsSwitch(k, c, p);
    RequeueAndReturn(k, c, p);
  }

  lemma TopSetAfterSwitch(k: Kernel, c: nat, p: nat)
    requires TopSet(k, c, p) && k.runQueue[p] != []
    ensures k.runQueue[p][0] in k.threads && k.runQueue[p][0] != k.current[c]
    ensures var k1 := Enqueue(Park(k, c), k.current[c], false);
            var k' := SwitchTo(WithQueue(k1, p, k1.runQueue[p][1..]), k1.runQueue[p][0], c);
            && k'.current == k.current[c := k.runQueue[p][0]]
            && k'.runQueue == k.runQueue[p := k.runQueue[p][1..] + [k.current[c]]]
            && (Inv(k') ==> TopSet(k', c, p))
  {
    var t := k.current[c];
    assert k.runQueue[p][0] in k.runQueue[p];
    assert (k.runQueue[p] + [t])[1..] == k.runQueue[p][1..] + [t];
  }

  /** Without, it rotates the queue of the top priority: the head runs with a fresh quantum if its own is used up. */
  lemma PreemptRotates(k: Kernel, c: nat, p: nat)
    requires TopSet(k, c, p) && k.threads[k.current[c]].quantum <= 0 && k.runQueue[p] != []
    ensures TopSet(Preempt(k, c), c, p)
    ensures Preempt(k, c).current[c] == k.runQueue[p][0]
    ensures Preempt(k, c).runQueue[p] == k.runQueue[p][1..] + [k.current[c]]
  {
    hide Preempt;
    PreemptIsSwitch(k, c, p);
    TopSetAfterSwitch(k, c, p);
  }

  /** The state after `n` timer interrupts on CPU `c`, and how many of them asked for a switch. */
  function Ticks(k: Kernel, c: nat, n: nat): (r: (Kernel, nat))
    requires Inv(k) && OnCpu(k, c)
    ensures Inv(r.0)
    decreases n
  {
    if n == 0 then (k, 0)
    else
      var (k', e) := Ticks(TickInterrupt(k, c), c, n - 1);
      (k', e + if TimerTick(k, c).1 then 1 else 0)
  }

  lemma TickWithQuantumLeft(k: Kernel, c: nat, p: nat)
    requires TopSet(k, c, p) && k.threads[k.current[c]].quantum > 1
    ensures TopSet(TickInterrupt(k, c), c, p) && !TimerTick(k, c).1
    ensures TickInterrupt(k, c).runQueue == k.runQueue && TickInterrupt(k, c).current == k.current
    ensures TickInterrupt(k, c).threads[k.current[c]].quantum == k.threads[k.current[c]].quantum - 1
  {
    assert k.current[c] !in k.runQueue[p];
  }

  lemma TickExpires(k: Kernel, c: nat, p: nat)
    requires TopSet(k, c, p) && k.threads[k.current[c]].quantum <= 1 && k.runQueue[p] != []
    ensures TopSet(TickInterrupt(k, c), c, p) && TimerTick(k, c).1
    ensures TickInterrupt(k, c).current[c] == k.runQueue[p][0]
    ensures TickInterrupt(k, c).runQueue[p] == k.runQueue[p][1..] + [k.current[c]]
  {
    var k1 := TimerTick(k, c).0;
    assert k.current[c] !in k.runQueue[p];
    assert TopSet(k1, c, p);
    PreemptRotates(k1, c, p);
  }

  lemma TopSetFacts(k: Kernel, c: nat, p: nat)
    requires TopSet(k, c, p)
    ensures Inv(k) && OnCpu(k, c) && p < |k.runQueue| && k.threads[k.current[c]].quantum <= QUANTUM
  {
  }

  /** Round robin: the thread at index `i` runs after exactly i+1 expiries and at most 5(i+1) ticks. */
  lemma {:induction false} RoundRobin(k: Kernel, c: nat, p: nat, i: nat) returns (n: nat)
    requires TopSet(k, c, p) && p < |k.runQueue| && i < |k.runQueue[p]|
    ensures Inv(k) && OnCpu(k, c)
    ensures n <= QUANTUM * i + (if k.threads[k.current[c]].quantum > 1 then k.threads[k.current[c]].quantum else 1)
    ensures n <= QUANTUM * (i + 1)
    ensures c < |Ticks(k, c, n).0.current| && Ticks(k, c, n).0.current[c] == k.runQueue[p][i]
    ensures Ticks(k, c, n).1 == i + 1
    decreases i, k.threads[k.current[c]].quantum
  {
    hide TopSet, Inv, TickInterrupt, TimerTick;
    TopSetFacts(k, c, p);
    var k1 := TickInterrupt(k, c);
    if k.threads[k.current[c]].quantum > 1 {
      TickWithQuantumLeft(k, c, p);
      TopSetFacts(k1, c, p);
      n := RoundRobin(k1, c, p, i);
      n := n + 1;
    } else {
      TickExpires(k, c, p);
      TopSetFacts(k1, c, p);
      if i == 0 {
        n := 1;
        assert Ticks(k1, c, 0) == (k1, 0);
      } else {
        n := RoundRobin(k1, c, p, i - 1);
        n := n + 1;
      }
    }
  }
}

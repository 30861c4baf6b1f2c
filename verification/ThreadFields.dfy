/**
 * What each operation does to the other fields of a thread: priority, flags, CPU binding,
 * quantum and return code.  Queues and states are the subject of Sched and Placement.
 */
module ThreadFields {
  import opened Basics
  import opened Sched
  import S = Steps
  import opened Runs

  datatype Fields = Fields(priority: int, realTime: bool, idle: bool, pinnedCpu: int, quantum: int, code: int)

  function FieldsOf(th: Thread): Fields {
    Fields(th.priority, th.realTime, th.idle, th.pinnedCpu, th.quantum, th.blockRet)
  }

  /** `t` comes to run on a CPU on which it did not run. */
  ghost predicate Dispatched(k: Kernel, k': Kernel, t: Tid) {
    exists c :: 0 <= c < |k'.current| && c < |k.current| && k'.current[c] == t && k.current[c] != t
  }

  /** A thread that is dispatched without quantum gets a full one. */
  function Refilled(f: Fields, dispatched: bool): Fields {
    if dispatched && f.quantum <= 0 then f.(quantum := 5) else f
  }

  /** `k'` is `k` up to the fields of `t` being `f`; the same threads are current. */
  ghost predicate FieldsAre(k: Kernel, k': Kernel, t: Tid, f: Fields) {
    t in k'.threads && FieldsOf(k'.threads[t]) == f && k'.current == k.current
  }

  /** What becomes of the fields of `t`, before a dispatch. */
  ghost function Expected(k: Kernel, op: Op, t: Tid): Fields
    requires Enabled(k, op) && t in k.threads
  {
    var f := FieldsOf(k.threads[t]);
    match op
    case Yield(c) => if t == k.current[c] then f.(quantum := 0) else f
    case Tick(c) => if t == k.current[c] && !f.realTime && !f.idle then f.(quantum := f.quantum - 1) else f
    case SetPriority(c, p) =>
      if t == k.current[c] then f.(priority := if p < 1 then 1 else if p > 31 then 31 else p) else f
    case SetRealTime(u) => if t == u then f.(realTime := true) else f
    case Block(c, _) => if t == k.current[c] then f.(code := NO_ERROR) else f
    case WakeOne(_, w, _, ret) => if k.waits[w].list != [] && t == k.waits[w].list[0] then f.(code := ret) else f
    case WakeAll(_, w, _, ret) => if t in k.waits[w].list then f.(code := ret) else f
    case Unblock(u, ret) => if t == u && k.threads[u].state == Blocked then f.(code := ret) else f
    case Exit(_, w) => if w.Some? && t in k.waits[w.value].list then f.(code := NO_ERROR) else f
    case _ => f
  }

  /** Every operation does that to every thread, and then refills the quantum of a thread that it dispatches. */
  lemma FieldsAfter(k: Kernel, op: Op, t: Tid)
    requires Enabled(k, op) && t in k.threads
    ensures t in Apply(k, op).threads
    ensures FieldsOf(Apply(k, op).threads[t]) == Refilled(Expected(k, op, t), Dispatched(k, Apply(k, op), t))
  {
    hide RunQueuesOk, WaitQueuesOk, CpusOk;
    match op
    case Yield(c) => YieldFields(k, c, t);
    case Preempt(c) => PreemptFields(k, c, t);
    case Tick(c) => TickFields(k, c, t);
    case SleepStart(c) => SleepFields(k, c, t);
    case SleepEnd(u) =>
    case Resume(u) =>
    case SetPriority(c, p) => PriorityFields(k, c, p, t);
    case SetRealTime(u) =>
    case Create(u, p, cpu) =>
    case WaitInit(w) =>
    case Block(c, w) => BlockFields(k, c, w, t);
    case WakeOne(c, w, r, ret) => WakeOneFields(k, c, w, r, ret, t);
    case WakeAll(c, w, r, ret) => WakeAllFields(k, c, w, r, ret, t);
    case Unblock(u, ret) => UnblockFields(k, u, ret, t);
    case Exit(c, w) => ExitFields(k, c, w, t);
  }

  // ---- the pieces ----

  lemma ReschedFields(k: Kernel, k1: Kernel, c: nat, t: Tid, f: Fields)
    requires Consistent(k1, c) && c < |k1.current| && FieldsAre(k, k1, t, f)
    ensures var k' := Resched(k1, c);
            t in k'.threads && FieldsOf(k'.threads[t]) == Refilled(f, Dispatched(k, k', t))
  {
    GetTopTakes(k1, c);
    var k' := Resched(k1, c);
    var u := GetTop(k1, c).1;
    assert k'.current == k.current[c := u];
    if u == t && k.current[c] != t {
      assert k'.current[c] == t;
    }
  }

  lemma RequeueFields(k: Kernel, c: nat, head: bool, t: Tid)
    requires Inv(k) && S.OnCpu(k, c) && t in k.threads
    ensures Consistent(S.Requeue(k, c, head), c)
    ensures FieldsAre(k, S.Requeue(k, c, head), t, FieldsOf(k.threads[t]))
  {
    S.RequeueKeeps(k, c, head);
  }

  lemma YieldFields(k: Kernel, c: nat, t: Tid)
    requires Enabled(k, Yield(c)) && t in k.threads
    ensures t in S.Yield(k, c).threads
    ensures FieldsOf(S.Yield(k, c).threads[t]) == Refilled(Expected(k, Yield(c), t), Dispatched(k, S.Yield(k, c), t))
  {
    var u := k.current[c];
    S.SameRoleKeeps(k, -1, u, k.threads[u].(quantum := 0));
    var k0 := S.SetQuantum(k, u, 0);
    RequeueFields(k0, c, false, t);
    ReschedFields(k, S.Requeue(k0, c, false), c, t, Expected(k, Yield(c), t));
  }

  lemma PreemptFields(k: Kernel, c: nat, t: Tid)
    requires Inv(k) && S.OnCpu(k, c) && t in k.threads
    ensures t in S.Preempt(k, c).threads
    ensures FieldsOf(S.Preempt(k, c).threads[t]) == Refilled(FieldsOf(k.threads[t]), Dispatched(k, S.Preempt(k, c), t))
  {
    var head := k.threads[k.current[c]].quantum > 0;
    RequeueFields(k, c, head, t);
    ReschedFields(k, S.Requeue(k, c, head), c, t, FieldsOf(k.threads[t]));
  }

  lemma TickFields(k: Kernel, c: nat, t: Tid)
    requires Enabled(k, Tick(c)) && t in k.threads
    ensures t in S.TickInterrupt(k, c).threads
    ensures FieldsOf(S.TickInterrupt(k, c).threads[t]) ==
            Refilled(Expected(k, Tick(c), t), Dispatched(k, S.TickInterrupt(k, c), t))
  {
    var (k1, resched) := S.TimerTick(k, c);
    if resched {
      PreemptFields(k1, c, t);
      SameDispatch(k, k1, S.Preempt(k1, c), t);
    }
  }

  lemma SameDispatch(k: Kernel, k1: Kernel, k': Kernel, t: Tid)
    requires k1.current == k.current
    ensures Dispatched(k1, k', t) <==> Dispatched(k, k', t)
  {
  }

  lemma SleepFields(k: Kernel, c: nat, t: Tid)
    requires S.CanBlock(k, c) && t in k.threads
    ensures t in S.SleepStart(k, c).threads
    ensures FieldsOf(S.SleepStart(k, c).threads[t]) ==
            Refilled(FieldsOf(k.threads[t]), Dispatched(k, S.SleepStart(k, c), t))
  {
    var u := k.current[c];
    ParkKeeps(k, c);
    var k1 := Park(k, c);
    S.LooseKeeps(k1, c, u, Sleeping, k1.threads[u].priority);
    var k2 := SetThread(k1, u, k1.threads[u].(state := Sleeping));
    assert k2 == SetThread(k1, u, k1.threads[u].(state := Sleeping, priority := k1.threads[u].priority));
    ReschedFields(k, k2, c, t, FieldsOf(k.threads[t]));
  }

  lemma PriorityFields(k: Kernel, c: nat, p: int, t: Tid)
    requires Enabled(k, SetPriority(c, p)) && t in k.threads
    ensures t in S.SetPriority(k, c, p).threads
    ensures FieldsOf(S.SetPriority(k, c, p).threads[t]) ==
            Refilled(Expected(k, SetPriority(c, p), t), Dispatched(k, S.SetPriority(k, c, p), t))
  {
    var u := k.current[c];
    ParkKeeps(k, c);
    var k1 := Park(k, c);
    var q := S.ClampPriority(p);
    S.LooseKeeps(k1, c, u, Suspended, q);
    var k2 := SetThread(k1, u, k1.threads[u].(priority := q));
    assert k2 == SetThread(k1, u, k1.threads[u].(state := Suspended, priority := q));
    EnqueueKeeps(k2, c, u, true);
    ReschedFields(k, Enqueue(k2, u, true), c, t, Expected(k, SetPriority(c, p), t));
  }

  lemma BlockFields(k: Kernel, c: nat, w: Wid, t: Tid)
    requires Enabled(k, Block(c, w)) && t in k.threads
    ensures t in S.WaitBlock(k, c, w).threads
    ensures FieldsOf(S.WaitBlock(k, c, w).threads[t]) ==
            Refilled(Expected(k, Block(c, w), t), Dispatched(k, S.WaitBlock(k, c, w), t))
  {
    ParkKeeps(k, c);
    WaitAddKeeps(Park(k, c), c, w, k.current[c]);
    ReschedFields(k, WaitAdd(Park(k, c), w, k.current[c]), c, t, Expected(k, Block(c, w), t));
  }

  lemma WakeFields(k: Kernel, sw: int, w: Wid, i: nat, ret: int, t: Tid)
    requires Consistent(k, sw) && w in k.waits && i < |k.waits[w].list| && t in k.threads
    ensures var f := FieldsOf(k.threads[t]);
            FieldsAre(k, S.Wake(k, sw, w, i, ret), t, if t == k.waits[w].list[i] then f.(code := ret) else f)
  {
    WaitRemoveKeeps(k, sw, w, i, ret);
  }

  lemma WakeOneFields(k: Kernel, c: nat, w: Wid, reschedule: bool, ret: int, t: Tid)
    requires Enabled(k, WakeOne(c, w, reschedule, ret)) && t in k.threads
    ensures t in S.WakeOne(k, c, w, reschedule, ret).0.threads
    ensures var k' := S.WakeOne(k, c, w, reschedule, ret).0;
            FieldsOf(k'.threads[t]) == Refilled(Expected(k, WakeOne(c, w, reschedule, ret), t), Dispatched(k, k', t))
  {
    if k.waits[w].list != [] {
      if reschedule {
        RequeueFields(k, c, true, t);
        S.RequeueKeeps(k, c, true);
        var k0 := S.Requeue(k, c, true);
        WakeFields(k0, c, w, 0, ret, t);
        ReschedFields(k, S.Wake(k0, c, w, 0, ret), c, t, Expected(k, WakeOne(c, w, reschedule, ret), t));
      } else {
        WakeFields(k, -1, w, 0, ret, t);
      }
    }
  }

  lemma {:induction false} WakeEachFields(k: Kernel, sw: int, w: Wid, ret: int, t: Tid)
    requires Consistent(k, sw) && w in k.waits && t in k.threads
    ensures var f := FieldsOf(k.threads[t]);
            FieldsAre(k, S.WakeEach(k, sw, w, ret), t, if t in k.waits[w].list then f.(code := ret) else f)
    decreases |k.waits[w].list|
  {
    hide Consistent;
    var l := k.waits[w].list;
    if l != [] {
      WakeFields(k, sw, w, 0, ret, t);
      WakeEachFields(S.Wake(k, sw, w, 0, ret), sw, w, ret, t);
      assert RemoveAt(l, 0) == l[1..];
      assert t in l <==> t == l[0] || t in l[1..];
    }
  }

  lemma WakeAllFields(k: Kernel, c: nat, w: Wid, reschedule: bool, ret: int, t: Tid)
    requires Enabled(k, WakeAll(c, w, reschedule, ret)) && t in k.threads
    ensures t in S.WakeAll(k, c, w, reschedule, ret).0.threads
    ensures var k' := S.WakeAll(k, c, w, reschedule, ret).0;
            FieldsOf(k'.threads[t]) == Refilled(Expected(k, WakeAll(c, w, reschedule, ret), t), Dispatched(k, k', t))
  {
    if reschedule && k.waits[w].count > 0 {
      RequeueFields(k, c, true, t);
      S.RequeueKeeps(k, c, true);
      var k0 := S.Requeue(k, c, true);
      WakeEachFields(k0, c, w, ret, t);
      S.WakeEachKeeps(k0, c, w, ret);
      ReschedFields(k, S.WakeEach(k0, c, w, ret), c, t, Expected(k, WakeAll(c, w, reschedule, ret), t));
    } else {
      WakeEachFields(k, -1, w, ret, t);
    }
  }

  lemma UnblockFields(k: Kernel, u: Tid, ret: int, t: Tid)
    requires Enabled(k, Unblock(u, ret)) && t in k.threads
    ensures FieldsAre(k, S.Unblock(k, u, ret).0, t, Expected(k, Unblock(u, ret), t))
  {
    if k.threads[u].state == Blocked {
      var w := k.threads[u].blockingOn.value;
      assert u in k.waits[w].list;
      WakeFields(k, -1, w, S.IndexOf(k.waits[w].list, u), ret, t);
    }
  }

  lemma ExitFields(k: Kernel, c: nat, w: Option<Wid>, t: Tid)
    requires Enabled(k, Exit(c, w)) && t in k.threads
    ensures t in S.Exit(k, c, w).threads
    ensures FieldsOf(S.Exit(k, c, w).threads[t]) ==
            Refilled(Expected(k, Exit(c, w), t), Dispatched(k, S.Exit(k, c, w), t))
  {
    var u := k.current[c];
    ParkKeeps(k, c);
    var k1 := Park(k, c);
    S.LooseKeeps(k1, c, u, Death, k1.threads[u].priority);
    var k2 := SetThread(k1, u, k1.threads[u].(state := Death));
    assert k2 == SetThread(k1, u, k1.threads[u].(state := Death, priority := k1.threads[u].priority));
    if w.Some? {
      WakeEachFields(k2, c, w.value, NO_ERROR, t);
      S.WakeEachKeeps(k2, c, w.value, NO_ERROR);
      ReschedFields(k, S.WakeEach(k2, c, w.value, NO_ERROR), c, t, Expected(k, Exit(c, w), t));
    } else {
      ReschedFields(k, k2, c, t, Expected(k, Exit(c, w), t));
    }
  }

  // ---- what follows ----

  /** A real-time thread, and an idle thread, keep the CPU through any number of ticks. */
  lemma {:induction false} TicksLeaveAlone(k: Kernel, c: nat, n: nat)
    requires Inv(k) && S.OnCpu(k, c) && (k.threads[k.current[c]].realTime || k.threads[k.current[c]].idle)
    ensures Ticks(k, c, n) == k
  {
    hide Inv, S.OnCpu, S.TickInterrupt;
    if n > 0 {
      TicksLeaveAlone(k, c, n - 1);
      TickLeavesAlone(k, c);
    }
  }

  lemma TickLeavesAlone(k: Kernel, c: nat)
    requires Inv(k) && S.OnCpu(k, c) && (k.threads[k.current[c]].realTime || k.threads[k.current[c]].idle)
    ensures S.TickInterrupt(k, c) == k
  {
  }

  ghost function Ticks(k: Kernel, c: nat, n: nat): (k': Kernel)
    requires Inv(k) && S.OnCpu(k, c)
    ensures Inv(k') && S.OnCpu(k', c)
  {
    if n == 0 then k else S.TickInterrupt(Ticks(k, c, n - 1), c)
  }

  /** A new thread is suspended, with no quantum used, and a resume puts it at the head of the queue of its priority. */
  lemma CreatedThenResumed(k: Kernel, t: Tid, priority: int, pinnedCpu: int, p: nat)
    requires Enabled(k, Create(t, priority, pinnedCpu)) && p < NUM_PRIORITIES
    ensures var k1 := Apply(k, Create(t, priority, pinnedCpu));
            && k1.threads == k.threads[t := k1.threads[t]] && k1.threads[t].state == Suspended
            && FieldsOf(k1.threads[t]) == Fields(priority, false, false, pinnedCpu, 0, NO_ERROR)
            && var k2 := Apply(k1, Resume(t));
            && k2.threads[t].state == Ready && |k2.runQueue| == |k.runQueue| == NUM_PRIORITIES
            && k2.runQueue[p] == (if p == priority then [t] else []) + k.runQueue[p]
            && forall cpu :: Eligible(k2, t, cpu) <==> pinnedCpu < 0 || pinnedCpu == cpu
  {
  }

  /** A thread that sleeps is asleep, and one that exits is dead, whoever is woken and runs. */
  lemma SleepState(k: Kernel, c: nat)
    requires S.CanBlock(k, c)
    ensures var t := k.current[c];
            t in S.SleepStart(k, c).threads && S.SleepStart(k, c).threads[t].state == Sleeping
  {
    var u := k.current[c];
    ParkKeeps(k, c);
    var k1 := Park(k, c);
    S.LooseKeeps(k1, c, u, Sleeping, k1.threads[u].priority);
    var k2 := SetThread(k1, u, k1.threads[u].(state := Sleeping));
    assert k2 == SetThread(k1, u, k1.threads[u].(state := Sleeping, priority := k1.threads[u].priority));
    StateKept(k2, c, u);
  }

  /** A switch runs only a thread that was ready. */
  lemma StateKept(k1: Kernel, c: nat, t: Tid)
    requires Consistent(k1, c) && c < |k1.current| && t in k1.threads && k1.threads[t].state != Ready
    ensures t in Resched(k1, c).threads && Resched(k1, c).threads[t].state == k1.threads[t].state
  {
    GetTopTakes(k1, c);
  }

  lemma {:induction false} WakeEachState(k: Kernel, sw: int, w: Wid, ret: int, t: Tid)
    requires Consistent(k, sw) && w in k.waits && t in k.threads && k.threads[t].state == Death
    ensures t in S.WakeEach(k, sw, w, ret).threads && S.WakeEach(k, sw, w, ret).threads[t].state == Death
    decreases |k.waits[w].list|
  {
    if k.waits[w].list != [] {
      NotWaiting(k, sw, w, t);
      WaitRemoveKeeps(k, sw, w, 0, ret);
      hide Consistent;
      WakeEachState(S.Wake(k, sw, w, 0, ret), sw, w, ret, t);
    }
  }

  lemma NotWaiting(k: Kernel, sw: int, w: Wid, t: Tid)
    requires Consistent(k, sw) && w in k.waits && t in k.threads && k.threads[t].state != Blocked
    ensures t !in k.waits[w].list
  {
  }

  lemma ExitState(k: Kernel, c: nat, w: Option<Wid>)
    requires Enabled(k, Exit(c, w))
    ensures var t := k.current[c];
            t in S.Exit(k, c, w).threads && S.Exit(k, c, w).threads[t].state == Death
  {
    var u := k.current[c];
    ParkKeeps(k, c);
    var k1 := Park(k, c);
    S.LooseKeeps(k1, c, u, Death, k1.threads[u].priority);
    var k2 := SetThread(k1, u, k1.threads[u].(state := Death));
    assert k2 == SetThread(k1, u, k1.threads[u].(state := Death, priority := k1.threads[u].priority));
    if w.Some? {
      WakeEachState(k2, c, w.value, NO_ERROR, u);
      S.WakeEachKeeps(k2, c, w.value, NO_ERROR);
      StateKept(S.WakeEach(k2, c, w.value, NO_ERROR), c, u);
    } else {
      StateKept(k2, c, u);
    }
  }

  /** The switch itself: who runs, with how much quantum and where, and everybody else is as before. */
  lemma SwitchEffect(k: Kernel, c: nat)
    requires Consistent(k, c) && c < |k.current|
    ensures var k', t, prev := Resched(k, c), GetTop(k, c).1, k.current[c];
            && k'.current == k.current[c := t] && k'.waits == k.waits && k'.idle == k.idle
            && k'.runQueue == GetTop(k, c).0.runQueue && k'.threads.Keys == k.threads.Keys
            && t in k'.threads && k'.threads[t].state == Running && k'.threads[t].currCpu == c
            && (prev != t ==> prev in k'.threads && k'.threads[prev] == k.threads[prev].(currCpu := -1))
            && forall u :: u in k.threads && u != t && u != prev ==> k'.threads[u] == k.threads[u]
  {
    GetTopTakes(k, c);
    ReschedKeeps(k, c);
  }
}

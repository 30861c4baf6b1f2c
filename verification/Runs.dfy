/** All scheduler operations as one step relation, and what they leave alone. */
module Runs {
  import opened Basics
  import opened Sched
  import S = Steps

  datatype Op =
    | Yield(c: nat)
    | Preempt(c: nat)
    | Tick(c: nat)
    | SleepStart(c: nat)
    | SleepEnd(t: Tid)
    | Resume(t: Tid)
    | SetPriority(c: nat, priority: int)
    | SetRealTime(t: Tid)
    | Create(t: Tid, priority: int, pinnedCpu: int)
    | WaitInit(w: Wid)
    | Block(c: nat, w: Wid)
    | WakeOne(c: nat, w: Wid, reschedule: bool, ret: int)
    | WakeAll(c: nat, w: Wid, reschedule: bool, ret: int)
    | Unblock(t: Tid, ret: int)
    | Exit(c: nat, joiners: Option<Wid>)

  /** What the source asserts or assumes of the caller. */
  ghost predicate Enabled(k: Kernel, op: Op) {
    Inv(k) &&
    match op
    case Yield(c) => S.OnCpu(k, c)
    case Preempt(c) => S.OnCpu(k, c)
    case Tick(c) => S.OnCpu(k, c)
    case SleepStart(c) => S.CanBlock(k, c)
    case SleepEnd(t) => t in k.threads && k.threads[t].state == Sleeping
    case Resume(t) => t in k.threads
    case SetPriority(c, _) => S.CanBlock(k, c)
    case SetRealTime(t) => t in k.threads
    case Create(t, p, _) => t !in k.threads && 0 <= p < NUM_PRIORITIES
    case WaitInit(w) => w !in k.waits
    case Block(c, w) => S.CanBlock(k, c) && w in k.waits
    case WakeOne(c, w, r, _) => S.OnCpu(k, c) && w in k.waits && (r ==> S.CanBlock(k, c))
    case WakeAll(c, w, r, _) => S.OnCpu(k, c) && w in k.waits && (r ==> S.CanBlock(k, c))
    case Unblock(t, _) => t in k.threads
    case Exit(c, w) => S.CanBlock(k, c) && (w.Some? ==> w.value in k.waits)
  }

  ghost function Apply(k: Kernel, op: Op): (k': Kernel)
    requires Enabled(k, op)
    ensures Inv(k')
  {
    match op
    case Yield(c) => S.Yield(k, c)
    case Preempt(c) => S.Preempt(k, c)
    case Tick(c) => S.TickInterrupt(k, c)
    case SleepStart(c) => S.SleepStart(k, c)
    case SleepEnd(t) => S.SleepEnd(k, t)
    case Resume(t) => S.Resume(k, t)
    case SetPriority(c, p) => S.SetPriority(k, c, p)
    case SetRealTime(t) => S.SetRealTime(k, t)
    case Create(t, p, cpu) => S.Create(k, t, p, cpu)
    case WaitInit(w) => S.WaitInit(k, w)
    case Block(c, w) => S.WaitBlock(k, c, w)
    case WakeOne(c, w, r, ret) => S.WakeOne(k, c, w, r, ret).0
    case WakeAll(c, w, r, ret) => S.WakeAll(k, c, w, r, ret).0
    case Unblock(t, ret) => S.Unblock(k, t, ret).0
    case Exit(c, w) => S.Exit(k, c, w)
  }

  /** A run of the scheduler. */
  ghost predicate Run(ks: seq<Kernel>) {
    && ks != [] && Inv(ks[0])
    && forall i :: 0 <= i < |ks| - 1 && Inv(ks[i]) ==> exists op :: Enabled(ks[i], op) && ks[i + 1] == Apply(ks[i], op)
  }

  /** In every state of every run each thread is in at most one queue, the one its state names. */
  lemma {:induction false} RunKeepsInv(ks: seq<Kernel>, i: nat)
    requires Run(ks) && i < |ks|
    ensures Inv(ks[i])
  {
    hide Inv, Enabled, Apply;
    if i > 0 {
      RunKeepsInv(ks, i - 1);
      var op :| Enabled(ks[i - 1], op) && ks[i - 1 + 1] == Apply(ks[i - 1], op);
    }
  }

  lemma AtMostOneQueue(k: Kernel, t: Tid)
    requires Inv(k) && t in k.threads
    ensures forall p, q | 0 <= p < NUM_PRIORITIES && 0 <= q < NUM_PRIORITIES ::
              t in k.runQueue[p] && t in k.runQueue[q] ==> p == q
    ensures forall v, w :: v in k.waits && w in k.waits && t in k.waits[v].list && t in k.waits[w].list ==> v == w
    ensures forall p, w :: 0 <= p < NUM_PRIORITIES && w in k.waits && t in k.runQueue[p] ==> t !in k.waits[w].list
    ensures forall c :: 0 <= c < |k.current| && k.current[c] == t ==>
              (forall p :: 0 <= p < NUM_PRIORITIES ==> t !in k.runQueue[p])
              && (forall w :: w in k.waits ==> t !in k.waits[w].list)
  {
  }

  // ---- what an operation leaves alone ----

  /** Threads outside `xs` keep their return code; ready and running ones stay so. */
  ghost predicate Keeps(k: Kernel, k': Kernel, xs: set<Tid>) {
    forall t :: t in k.threads && t !in xs ==>
      && t in k'.threads && k'.threads[t].idle == k.threads[t].idle
      && (k.threads[t].state in {Ready, Running} ==>
            k'.threads[t].state in {Ready, Running} && k'.threads[t].blockRet == k.threads[t].blockRet)
  }

  lemma KeepsTransitive(k: Kernel, k1: Kernel, k2: Kernel, xs: set<Tid>)
    requires Keeps(k, k1, xs) && Keeps(k1, k2, xs)
    ensures Keeps(k, k2, xs)
  {
  }

  lemma ReschedQuiet(k: Kernel, c: nat, xs: set<Tid>)
    requires Consistent(k, c) && c < |k.current|
    ensures Resched(k, c).waits == k.waits && Keeps(k, Resched(k, c), xs)
  {
    hide RunQueuesOk, WaitQueuesOk;
    GetTopTakes(k, c);
  }

  lemma RequeueQuiet(k: Kernel, c: nat, head: bool, xs: set<Tid>)
    requires Inv(k) && S.OnCpu(k, c)
    ensures S.Requeue(k, c, head).waits == k.waits && Keeps(k, S.Requeue(k, c, head), xs)
  {
    S.RequeueKeeps(k, c, head);
  }

  lemma WakeQuiet(k: Kernel, sw: int, w: Wid, i: nat, ret: int, xs: set<Tid>)
    requires Consistent(k, sw) && w in k.waits && i < |k.waits[w].list|
    ensures Keeps(k, S.Wake(k, sw, w, i, ret), xs)
    ensures var t := k.waits[w].list[i];
            t in S.Wake(k, sw, w, i, ret).threads && S.Wake(k, sw, w, i, ret).threads[t].blockRet == ret
            && S.Wake(k, sw, w, i, ret).threads[t].state == Ready
  {
    WaitRemoveKeeps(k, sw, w, i, ret);
    var t := k.waits[w].list[i];
    assert t in k.waits[w].list;
  }

  lemma {:induction false} WakeEachQuiet(k: Kernel, sw: int, w: Wid, ret: int, xs: set<Tid>)
    requires Consistent(k, sw) && w in k.waits
    ensures Keeps(k, S.WakeEach(k, sw, w, ret), xs)
    decreases |k.waits[w].list|
  {
    hide Consistent, S.Wake;
    if k.waits[w].list != [] {
      WakeQuiet(k, sw, w, 0, ret, xs);
      WakeEachQuiet(S.Wake(k, sw, w, 0, ret), sw, w, ret, xs);
      KeepsTransitive(k, S.Wake(k, sw, w, 0, ret), S.WakeEach(k, sw, w, ret), xs);
    }
  }

  /** The thread that runs the operation, where there is one that it may block. */
  ghost function Actor(k: Kernel, op: Op): set<Tid>
    requires Enabled(k, op)
  {
    match op
    case Yield(c) => {k.current[c]}
    case Preempt(c) => {k.current[c]}
    case Tick(c) => {k.current[c]}
    case SleepStart(c) => {k.current[c]}
    case SetPriority(c, _) => {k.current[c]}
    case Block(c, _) => {k.current[c]}
    case WakeOne(c, _, _, _) => {k.current[c]}
    case WakeAll(c, _, _, _) => {k.current[c]}
    case Exit(c, _) => {k.current[c]}
    case _ => {}
  }

  /** The operation works on wait queue `w`. */
  ghost predicate Touches(k: Kernel, op: Op, w: Wid)
    requires Enabled(k, op)
  {
    match op
    case Block(_, v) => v == w
    case WakeOne(_, v, _, _) => v == w
    case WakeAll(_, v, _, _) => v == w
    case Unblock(t, _) => k.threads[t].blockingOn == Some(w)
    case Exit(_, v) => v == Some(w)
    case _ => false
  }

  /** Nothing happened at `w`, as far as threads outside `actor` can see. */
  ghost predicate Quiet(k: Kernel, k': Kernel, w: Wid, actor: set<Tid>)
    requires w in k.waits
  {
    w in k'.waits && k'.waits[w] == k.waits[w] && Keeps(k, k', actor)
  }

  lemma ParkQuiet(k: Kernel, c: nat, w: Wid, th: Thread)
    requires S.CanBlock(k, c) && w in k.waits && !th.idle
    ensures Quiet(k, SetThread(k, k.current[c], th), w, {k.current[c]})
  {
  }

  lemma QuietThen(k: Kernel, k1: Kernel, k2: Kernel, w: Wid, actor: set<Tid>)
    requires w in k.waits && Quiet(k, k1, w, actor) && Quiet(k1, k2, w, actor)
    ensures Quiet(k, k2, w, actor)
  {
    KeepsTransitive(k, k1, k2, actor);
  }

  lemma YieldQuiet(k: Kernel, c: nat, w: Wid, q: int, head: bool)
    requires Inv(k) && S.OnCpu(k, c) && w in k.waits
    ensures Inv(S.SetQuantum(k, k.current[c], q)) && S.OnCpu(S.SetQuantum(k, k.current[c], q), c)
    ensures var k1 := S.Requeue(S.SetQuantum(k, k.current[c], q), c, head);
            Consistent(k1, c) && c < |k1.current| && Quiet(k, Resched(k1, c), w, {k.current[c]})
  {
    var t := k.current[c];
    S.SameRoleKeeps(k, -1, t, k.threads[t].(quantum := q));
    var k0 := S.SetQuantum(k, t, q);
    assert Quiet(k, k0, w, {t});
    RequeueQuiet(k0, c, head, {t});
    S.RequeueKeeps(k0, c, head);
    var k1 := S.Requeue(k0, c, head);
    QuietThen(k, k0, k1, w, {t});
    ReschedQuiet(k1, c, {t});
    QuietThen(k, k1, Resched(k1, c), w, {t});
  }

  lemma PreemptQuiet(k: Kernel, c: nat, w: Wid)
    requires Inv(k) && S.OnCpu(k, c) && w in k.waits
    ensures Quiet(k, S.Preempt(k, c), w, {k.current[c]})
  {
    var q := k.threads[k.current[c]].quantum;
    YieldQuiet(k, c, w, q, q > 0);
    assert S.SetQuantum(k, k.current[c], q) == k;
  }

  lemma TickQuiet(k: Kernel, c: nat, w: Wid)
    requires Inv(k) && S.OnCpu(k, c) && w in k.waits
    ensures Quiet(k, S.TickInterrupt(k, c), w, {k.current[c]})
  {
    var (k1, resched) := S.TimerTick(k, c);
    assert Quiet(k, k1, w, {k.current[c]});
    if resched {
      PreemptQuiet(k1, c, w);
      QuietThen(k, k1, S.TickInterrupt(k, c), w, {k.current[c]});
    }
  }

  /** A thread leaves the CPU in any way that keeps `w`, and CPU `c` switches. */
  lemma LeaveQuiet(k: Kernel, k1: Kernel, c: nat, w: Wid)
    requires S.CanBlock(k, c) && w in k.waits && Consistent(k1, c) && c < |k1.current|
    requires Quiet(k, k1, w, {k.current[c]})
    ensures Quiet(k, Resched(k1, c), w, {k.current[c]})
  {
    ReschedQuiet(k1, c, {k.current[c]});
    QuietThen(k, k1, Resched(k1, c), w, {k.current[c]});
  }

  lemma WakeOneQuiet(k: Kernel, c: nat, v: Wid, reschedule: bool, ret: int, w: Wid)
    requires Inv(k) && S.OnCpu(k, c) && v in k.waits && (reschedule ==> S.CanBlock(k, c)) && w in k.waits && v != w
    ensures Quiet(k, S.WakeOne(k, c, v, reschedule, ret).0, w, {k.current[c]})
  {
    if k.waits[v].list != [] {
      if reschedule {
        S.RequeueKeeps(k, c, true);
        RequeueQuiet(k, c, true, {k.current[c]});
        var k1 := S.Requeue(k, c, true);
        WakeQuiet(k1, c, v, 0, ret, {k.current[c]});
        QuietThen(k, k1, S.Wake(k1, c, v, 0, ret), w, {k.current[c]});
        LeaveQuiet(k, S.Wake(k1, c, v, 0, ret), c, w);
      } else {
        WakeQuiet(k, -1, v, 0, ret, {k.current[c]});
      }
    }
  }

  lemma WakeAllQuiet(k: Kernel, c: nat, v: Wid, reschedule: bool, ret: int, w: Wid)
    requires Inv(k) && S.OnCpu(k, c) && v in k.waits && (reschedule ==> S.CanBlock(k, c)) && w in k.waits && v != w
    ensures Quiet(k, S.WakeAll(k, c, v, reschedule, ret).0, w, {k.current[c]})
  {
    if reschedule && k.waits[v].count > 0 {
      S.RequeueKeeps(k, c, true);
      RequeueQuiet(k, c, true, {k.current[c]});
      var k1 := S.Requeue(k, c, true);
      S.WakeEachKeeps(k1, c, v, ret);
      WakeEachQuiet(k1, c, v, ret, {k.current[c]});
      QuietThen(k, k1, S.WakeEach(k1, c, v, ret), w, {k.current[c]});
      LeaveQuiet(k, S.WakeEach(k1, c, v, ret), c, w);
    } else {
      S.WakeEachKeeps(k, -1, v, ret);
      WakeEachQuiet(k, -1, v, ret, {k.current[c]});
    }
  }

  lemma InRange(k: Kernel, c: nat)
    requires S.CanBlock(k, c)
    ensures 0 <= k.threads[k.current[c]].priority < NUM_PRIORITIES
  {
  }

  lemma ExitQuiet(k: Kernel, c: nat, v: Option<Wid>, w: Wid)
    requires S.CanBlock(k, c) && w in k.waits && (v.Some? ==> v.value in k.waits && v.value != w)
    ensures Quiet(k, S.Exit(k, c, v), w, {k.current[c]})
  {
    hide RunQueuesOk, WaitQueuesOk, CpusOk;
    var t := k.current[c];
    ParkKeeps(k, c);
    var k1 := Park(k, c);
    InRange(k, c);
    S.LooseKeeps(k1, c, t, Death, k1.threads[t].priority);
    var k2 := SetThread(k1, t, k1.threads[t].(state := Death));
    assert k2 == SetThread(k1, t, k1.threads[t].(state := Death, priority := k1.threads[t].priority));
    ParkQuiet(k, c, w, k1.threads[t].(state := Death));
    assert k2 == SetThread(k, t, k1.threads[t].(state := Death));
    if v.Some? {
      S.WakeEachKeeps(k2, c, v.value, NO_ERROR);
      WakeEachQuiet(k2, c, v.value, NO_ERROR, {t});
      QuietThen(k, k2, S.WakeEach(k2, c, v.value, NO_ERROR), w, {t});
      LeaveQuiet(k, S.WakeEach(k2, c, v.value, NO_ERROR), c, w);
    } else {
      LeaveQuiet(k, k2, c, w);
    }
  }

  lemma BlockQuiet(k: Kernel, c: nat, v: Wid, w: Wid)
    requires S.CanBlock(k, c) && v in k.waits && w in k.waits && v != w
    ensures Quiet(k, S.WaitBlock(k, c, v), w, {k.current[c]})
  {
    ParkKeeps(k, c);
    WaitAddKeeps(Park(k, c), c, v, k.current[c]);
    LeaveQuiet(k, WaitAdd(Park(k, c), v, k.current[c]), c, w);
  }

  lemma SleepQuiet(k: Kernel, c: nat, w: Wid)
    requires S.CanBlock(k, c) && w in k.waits
    ensures Quiet(k, S.SleepStart(k, c), w, {k.current[c]})
  {
    var t := k.current[c];
    ParkKeeps(k, c);
    var k1 := Park(k, c);
    S.LooseKeeps(k1, c, t, Sleeping, k1.threads[t].priority);
    var k2 := SetThread(k1, t, k1.threads[t].(state := Sleeping));
    assert k2 == SetThread(k1, t, k1.threads[t].(state := Sleeping, priority := k1.threads[t].priority));
    LeaveQuiet(k, k2, c, w);
  }

  lemma PriorityQuiet(k: Kernel, c: nat, p: int, w: Wid)
    requires S.CanBlock(k, c) && w in k.waits
    ensures Quiet(k, S.SetPriority(k, c, p), w, {k.current[c]})
  {
    var t := k.current[c];
    ParkKeeps(k, c);
    var k1 := Park(k, c);
    S.LooseKeeps(k1, c, t, Suspended, S.ClampPriority(p));
    var k2 := SetThread(k1, t, k1.threads[t].(priority := S.ClampPriority(p)));
    assert k2 == SetThread(k1, t, k1.threads[t].(state := Suspended, priority := S.ClampPriority(p)));
    EnqueueKeeps(k2, c, t, true);
    LeaveQuiet(k, Enqueue(k2, t, true), c, w);
  }

  lemma UnblockQuiet(k: Kernel, t: Tid, ret: int, w: Wid)
    requires Inv(k) && t in k.threads && w in k.waits && k.threads[t].blockingOn != Some(w)
    ensures Quiet(k, S.Unblock(k, t, ret).0, w, {})
  {
    if k.threads[t].state == Blocked {
      var v := k.threads[t].blockingOn.value;
      assert t in k.waits[v].list;
      WakeQuiet(k, -1, v, S.IndexOf(k.waits[v].list, t), ret, {});
    }
  }

  /** The operations that concern no current thread. */
  lemma OtherQuiet(k: Kernel, op: Op, w: Wid)
    requires Enabled(k, op) && w in k.waits && Actor(k, op) == {} && !op.Unblock?
    ensures Quiet(k, Apply(k, op), w, {})
  {
    hide RunQueuesOk, WaitQueuesOk, CpusOk;
  }

  /** An operation that does not work on `w` is not noticed there. */
  lemma OpQuiet(k: Kernel, op: Op, w: Wid)
    requires Enabled(k, op) && w in k.waits && !Touches(k, op, w)
    ensures Quiet(k, Apply(k, op), w, Actor(k, op))
  {
    hide Quiet, Keeps, Consistent;
    match op
    case Yield(c) => YieldQuiet(k, c, w, 0, false);
    case Preempt(c) => PreemptQuiet(k, c, w);
    case Tick(c) => TickQuiet(k, c, w);
    case SleepStart(c) => SleepQuiet(k, c, w);
    case SetPriority(c, p) => PriorityQuiet(k, c, p, w);
    case Block(c, v) => BlockQuiet(k, c, v, w);
    case WakeOne(c, v, r, ret) => WakeOneQuiet(k, c, v, r, ret, w);
    case WakeAll(c, v, r, ret) => WakeAllQuiet(k, c, v, r, ret, w);
    case Unblock(t, ret) => UnblockQuiet(k, t, ret, w);
    case Exit(c, v) => ExitQuiet(k, c, v, w);
    case _ => OtherQuiet(k, op, w);
  }
}

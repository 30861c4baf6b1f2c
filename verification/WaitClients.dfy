/**
 * The threads inside wait_queue_block for one object: queued, or removed by a waker or
 * by their timeout but not yet back on a CPU.
 */
module WaitClients {
  import opened Basics
  import opened Sched
  import S = Steps
  import opened Runs

  /** A timeout of 0, a finite one, and INFINITE_TIME. */
  datatype Timeout = Zero | Finite | Infinite

  /** `inside` holds the threads in wait_queue_block on `w`, and whether a timer was set for them. */
  datatype Clients = Clients(k: Kernel, w: Wid, inside: map<Tid, bool>)

  ghost function Queue(x: Clients): seq<Tid>
    requires x.w in x.k.waits
  {
    x.k.waits[x.w].list
  }

  /** Threads that were removed with code `ret`, and have not run since. */
  ghost function Removed(x: Clients, ret: int): set<Tid>
    requires x.w in x.k.waits
  {
    set t | t in x.inside && t !in Queue(x) && t in x.k.threads && x.k.threads[t].blockRet == ret
  }

  ghost function Granted(x: Clients): set<Tid>
    requires x.w in x.k.waits
  {
    Removed(x, NO_ERROR)
  }

  ghost function Expired(x: Clients): set<Tid>
    requires x.w in x.k.waits
  {
    Removed(x, ERR_TIMED_OUT)
  }

  ghost predicate ClientsOk(x: Clients) {
    && Inv(x.k) && x.w in x.k.waits
    && (forall t :: t in x.inside ==> t in x.k.threads && !x.k.threads[t].idle)
    && (forall t :: t in Queue(x) ==> t in x.inside)
    && (forall t :: t in x.inside && t !in Queue(x) ==>
          && x.k.threads[t].state in {Ready, Running}
          && (x.k.threads[t].blockRet == NO_ERROR || (x.k.threads[t].blockRet == ERR_TIMED_OUT && x.inside[t])))
  }

  /** Every thread inside is queued, granted or expired, and only one of these. */
  lemma InsidePartition(x: Clients)
    requires ClientsOk(x)
    ensures x.inside.Keys == (set t | t in Queue(x)) + Granted(x) + Expired(x)
    ensures Granted(x) !! Expired(x)
    ensures forall t :: t in Queue(x) ==> t !in Granted(x) && t !in Expired(x)
  {
  }

  // ---- the kernel's side of each change ----

  lemma BlockEffect(k: Kernel, c: nat, w: Wid)
    requires S.CanBlock(k, c) && w in k.waits
    ensures var k' := S.WaitBlock(k, c, w);
            && w in k'.waits && k'.waits[w].list == k.waits[w].list + [k.current[c]]
            && Keeps(k, k', {k.current[c]})
            && k.current[c] in k'.threads && !k'.threads[k.current[c]].idle
  {
    ParkKeeps(k, c);
    var k1 := WaitAdd(Park(k, c), w, k.current[c]);
    WaitAddKeeps(Park(k, c), c, w, k.current[c]);
    ReschedQuiet(k1, c, {k.current[c]});
    ReschedKeepsThreads(k1, c);
    KeepsTransitive(k, k1, Resched(k1, c), {k.current[c]});
  }

  lemma ReschedKeepsThreads(k: Kernel, c: nat)
    requires Consistent(k, c) && c < |k.current|
    ensures forall t :: t in k.threads ==>
              t in Resched(k, c).threads && Resched(k, c).threads[t].idle == k.threads[t].idle
  {
    GetTopTakes(k, c);
  }

  lemma WakeOneEffect(k: Kernel, c: nat, w: Wid, reschedule: bool, ret: int)
    requires Inv(k) && w in k.waits && k.waits[w].list != [] && (reschedule ==> S.CanBlock(k, c))
    ensures var k' := S.WakeOne(k, c, w, reschedule, ret).0;
            var t := k.waits[w].list[0];
            && w in k'.waits && k'.waits[w].list == k.waits[w].list[1..] && Keeps(k, k', {})
            && t in k'.threads && k'.threads[t].blockRet == ret && k'.threads[t].state in {Ready, Running}
  {
    var k0, sw: int := k, -1;
    if reschedule {
      S.RequeueKeeps(k, c, true);
      RequeueQuiet(k, c, true, {});
      k0, sw := S.Requeue(k, c, true), c;
    }
    var k1 := S.Wake(k0, sw, w, 0, ret);
    assert RemoveAt(k.waits[w].list, 0) == k.waits[w].list[1..];
    WakeQuiet(k0, sw, w, 0, ret, {});
    KeepsTransitive(k, k0, k1, {});
    if reschedule {
      ReschedQuiet(k1, c, {});
      KeepsTransitive(k, k1, Resched(k1, c), {});
    }
  }

  lemma {:induction false} WakeEachEffect(k: Kernel, sw: int, w: Wid, ret: int)
    requires Consistent(k, sw) && w in k.waits
    ensures forall t :: t in k.waits[w].list ==>
              var k' := S.WakeEach(k, sw, w, ret);
              t in k'.threads && k'.threads[t].blockRet == ret && k'.threads[t].state in {Ready, Running}
    decreases |k.waits[w].list|
  {
    hide Consistent, S.Wake;
    var l := k.waits[w].list;
    if l != [] {
      var k1 := S.Wake(k, sw, w, 0, ret);
      WakeQuiet(k, sw, w, 0, ret, {});
      WakeEachEffect(k1, sw, w, ret);
      WakeEachQuiet(k1, sw, w, ret, {});
      assert forall t :: t in l ==> t == l[0] || t in RemoveAt(l, 0);
    }
  }

  lemma WakeAllEffect(k: Kernel, c: nat, w: Wid, reschedule: bool, ret: int)
    requires Inv(k) && w in k.waits && (reschedule ==> S.CanBlock(k, c))
    ensures var k' := S.WakeAll(k, c, w, reschedule, ret).0;
            && w in k'.waits && k'.waits[w].list == [] && Keeps(k, k', {})
            && forall t :: t in k.waits[w].list ==>
                 t in k'.threads && k'.threads[t].blockRet == ret && k'.threads[t].state in {Ready, Running}
  {
    if reschedule && k.waits[w].count > 0 {
      S.RequeueKeeps(k, c, true);
      RequeueQuiet(k, c, true, {});
      var k0 := S.Requeue(k, c, true);
      var k1 := S.WakeEach(k0, c, w, ret);
      S.WakeEachKeeps(k0, c, w, ret);
      WakeEachQuiet(k0, c, w, ret, {});
      WakeEachEffect(k0, c, w, ret);
      KeepsTransitive(k, k0, k1, {});
      ReschedQuiet(k1, c, {});
      KeepsTransitive(k, k1, Resched(k1, c), {});
    } else {
      S.WakeEachKeeps(k, -1, w, ret);
      WakeEachQuiet(k, -1, w, ret, {});
      WakeEachEffect(k, -1, w, ret);
    }
  }

  // ---- the changes ----

  lemma QueuedFacts(x: Clients)
    requires ClientsOk(x)
    ensures NoDup(Queue(x))
    ensures forall t :: t in Queue(x) <==> t in x.inside && x.k.threads[t].state == Blocked
    ensures forall t :: t in Queue(x) ==> x.k.threads[t].blockingOn == Some(x.w)
  {
    forall t | t in x.inside && x.k.threads[t].state == Blocked
      ensures t in Queue(x)
    {
    }
  }

  /** The threads in `gone` left the queue with code `ret`, and all else inside is as before. */
  lemma AfterRemoval(x: Clients, x': Clients, gone: set<Tid>, ret: int)
    requires ClientsOk(x) && x'.w == x.w && x'.inside == x.inside && Inv(x'.k) && x'.w in x'.k.waits
    requires ret == NO_ERROR || (ret == ERR_TIMED_OUT && forall t :: t in gone ==> t in x.inside && x.inside[t])
    requires Keeps(x.k, x'.k, {})
    requires forall t :: t in Queue(x) <==> t in Queue(x') || t in gone
    requires forall t | t in gone ::
               t !in Queue(x') && t in x'.k.threads && x'.k.threads[t].blockRet == ret
               && x'.k.threads[t].state in {Ready, Running}
    ensures ClientsOk(x')
    ensures Granted(x') == if ret == NO_ERROR then Granted(x) + gone else Granted(x)
    ensures Expired(x') == if ret == NO_ERROR then Expired(x) else Expired(x) + gone
    ensures gone !! Granted(x) && gone !! Expired(x)
  {
    hide Inv;
    forall t | t in x'.inside && t !in Queue(x')
      ensures if t in gone then x'.k.threads[t].blockRet == ret
              else t !in Queue(x) && x'.k.threads[t].blockRet == x.k.threads[t].blockRet
    {
    }
  }

  lemma AfterEntry(x: Clients, x': Clients, t: Tid, timed: bool)
    requires ClientsOk(x) && x'.w == x.w && x'.inside == x.inside[t := timed] && Inv(x'.k) && x'.w in x'.k.waits
    requires t !in x.inside && t in x'.k.threads && !x'.k.threads[t].idle
    requires Keeps(x.k, x'.k, {t}) && Queue(x') == Queue(x) + [t]
    ensures ClientsOk(x') && Granted(x') == Granted(x) && Expired(x') == Expired(x)
  {
    forall u | u in x.inside
      ensures u in Queue(x') <==> u in Queue(x)
      ensures u in x'.k.threads
      ensures u !in Queue(x) ==> x'.k.threads[u].blockRet == x.k.threads[u].blockRet
    {
    }
  }

  /** The current thread of `c` enters wait_queue_block with a non-zero timeout. */
  ghost function Enter(x: Clients, c: nat, timed: bool): Clients
    requires ClientsOk(x) && S.CanBlock(x.k, c)
  {
    x.(k := S.WaitBlock(x.k, c, x.w), inside := x.inside[x.k.current[c] := timed])
  }

  lemma EnterEffect(x: Clients, c: nat, timed: bool)
    requires ClientsOk(x) && S.CanBlock(x.k, c) && x.k.current[c] !in x.inside
    ensures var x' := Enter(x, c, timed);
            && ClientsOk(x') && Queue(x') == Queue(x) + [x.k.current[c]]
            && Granted(x') == Granted(x) && Expired(x') == Expired(x)
  {
    hide S.WaitBlock, ClientsOk, Inv, Keeps;
    ClientsFacts(x);
    BlockEffect(x.k, c, x.w);
    AfterEntry(x, Enter(x, c, timed), x.k.current[c], timed);
  }

  lemma ClientsFacts(x: Clients)
    requires ClientsOk(x)
    ensures Inv(x.k) && x.w in x.k.waits
  {
  }

  ghost function WakeFirst(x: Clients, c: nat, reschedule: bool): Clients
    requires ClientsOk(x) && (reschedule ==> S.CanBlock(x.k, c))
  {
    x.(k := S.WakeOne(x.k, c, x.w, reschedule, NO_ERROR).0)
  }

  lemma WakeFirstEffect(x: Clients, c: nat, reschedule: bool)
    requires ClientsOk(x) && (reschedule ==> S.CanBlock(x.k, c))
    ensures var x' := WakeFirst(x, c, reschedule);
            && ClientsOk(x') && Expired(x') == Expired(x)
            && (Queue(x) == [] ==> x' == x)
            && (Queue(x) != [] ==> Queue(x') == Queue(x)[1..] && Granted(x') == Granted(x) + {Queue(x)[0]}
                                   && Queue(x)[0] !in Granted(x))
  {
    if Queue(x) == [] {
      assert WakeFirst(x, c, reschedule) == x;
    } else {
      WakeFirstOf(x, c, reschedule);
    }
  }

  lemma WakeFirstOf(x: Clients, c: nat, reschedule: bool)
    requires ClientsOk(x) && (reschedule ==> S.CanBlock(x.k, c)) && Queue(x) != []
    ensures var x' := WakeFirst(x, c, reschedule);
            && ClientsOk(x') && Expired(x') == Expired(x)
            && Queue(x') == Queue(x)[1..] && Granted(x') == Granted(x) + {Queue(x)[0]}
            && Queue(x)[0] !in Granted(x)
  {
    hide S.WakeOne, ClientsOk, Inv, Keeps;
    ClientsFacts(x);
    QueuedFacts(x);
    WakeOneEffect(x.k, c, x.w, reschedule, NO_ERROR);
    assert forall t :: t in Queue(x) ==> t == Queue(x)[0] || t in Queue(x)[1..];
    AfterRemoval(x, WakeFirst(x, c, reschedule), {Queue(x)[0]}, NO_ERROR);
    assert Queue(x)[0] in {Queue(x)[0]};
  }

  ghost function WakeEvery(x: Clients, c: nat, reschedule: bool): Clients
    requires ClientsOk(x) && (reschedule ==> S.CanBlock(x.k, c))
  {
    x.(k := S.WakeAll(x.k, c, x.w, reschedule, NO_ERROR).0)
  }

  lemma WakeEveryEffect(x: Clients, c: nat, reschedule: bool)
    requires ClientsOk(x) && (reschedule ==> S.CanBlock(x.k, c))
    ensures var x' := WakeEvery(x, c, reschedule);
            && ClientsOk(x') && Queue(x') == [] && Expired(x') == Expired(x)
            && Granted(x') == Granted(x) + (set t | t in Queue(x))
            && Granted(x) !! (set t | t in Queue(x))
  {
    hide S.WakeAll, ClientsOk, Inv, Keeps;
    ClientsFacts(x);
    WakeAllEffect(x.k, c, x.w, reschedule, NO_ERROR);
    AfterRemoval(x, WakeEvery(x, c, reschedule), (set t | t in Queue(x)), NO_ERROR);
  }

  /** The timer of `t` fires: wait_queue_timeout_handler. */
  ghost function Expire(x: Clients, t: Tid): Clients
    requires ClientsOk(x) && t in x.inside
  {
    x.(k := S.Unblock(x.k, t, ERR_TIMED_OUT).0)
  }

  lemma TimeoutEffect(x: Clients, t: Tid)
    requires ClientsOk(x) && t in x.inside && x.inside[t]
    ensures var x' := Expire(x, t);
            && ClientsOk(x') && Granted(x') == Granted(x)
            && (t !in Queue(x) ==> x' == x)
            && (t in Queue(x) ==> |Queue(x')| == |Queue(x)| - 1 && Expired(x') == Expired(x) + {t} && t !in Expired(x)
                                  && forall u :: u in Queue(x') <==> u in Queue(x) && u != t)
  {
    if t in Queue(x) {
      TimeoutOf(x, t);
    } else {
      QueuedFacts(x);
      assert Expire(x, t) == x;
    }
  }

  lemma UnblockEffect(k: Kernel, t: Tid, w: Wid, ret: int)
    requires Inv(k) && w in k.waits && t in k.waits[w].list && t in k.threads
    ensures var k' := S.Unblock(k, t, ret).0;
            && w in k'.waits && |k'.waits[w].list| == |k.waits[w].list| - 1 && Keeps(k, k', {})
            && (forall u :: u in k'.waits[w].list <==> u in k.waits[w].list && u != t)
            && t in k'.threads && k'.threads[t].blockRet == ret && k'.threads[t].state in {Ready, Running}
  {
    var i := S.IndexOf(k.waits[w].list, t);
    WakeQuiet(k, -1, w, i, ret, {});
    RemoveAtMembers(k.waits[w].list, i);
  }

  lemma TimeoutOf(x: Clients, t: Tid)
    requires ClientsOk(x) && t in x.inside && x.inside[t] && t in Queue(x)
    ensures var x' := Expire(x, t);
            && ClientsOk(x') && Granted(x') == Granted(x)
            && |Queue(x')| == |Queue(x)| - 1 && Expired(x') == Expired(x) + {t} && t !in Expired(x)
            && forall u :: u in Queue(x') <==> u in Queue(x) && u != t
  {
    hide S.Unblock, Inv, Keeps;
    UnblockEffect(x.k, t, x.w, ERR_TIMED_OUT);
    AfterRemoval(x, Expire(x, t), {t}, ERR_TIMED_OUT);
    assert t in {t};
  }

  /** A thread that was removed and runs again returns from wait_queue_block. */
  ghost function Leave(x: Clients, t: Tid): Clients {
    x.(inside := x.inside - {t})
  }

  lemma LeaveEffect(x: Clients, t: Tid)
    requires ClientsOk(x) && t in x.inside && t !in Queue(x)
    ensures var x' := Leave(x, t);
            && ClientsOk(x') && Queue(x') == Queue(x)
            && Granted(x') == Granted(x) - {t} && Expired(x') == Expired(x) - {t}
            && (t in Granted(x) <==> x.k.threads[t].blockRet == NO_ERROR)
            && (t in Expired(x) <==> x.k.threads[t].blockRet == ERR_TIMED_OUT)
  {
  }

  /** Any operation elsewhere, by a thread that is not inside. */
  ghost predicate Elsewhere(x: Clients, op: Op)
    requires ClientsOk(x)
  {
    Enabled(x.k, op) && !Touches(x.k, op, x.w) && forall t :: t in Actor(x.k, op) ==> t !in x.inside
  }

  ghost function Other(x: Clients, op: Op): Clients
    requires ClientsOk(x) && Elsewhere(x, op)
  {
    x.(k := Apply(x.k, op))
  }

  lemma AfterQuiet(x: Clients, x': Clients, actor: set<Tid>)
    requires ClientsOk(x) && x'.w == x.w && x'.inside == x.inside && Inv(x'.k)
    requires Quiet(x.k, x'.k, x.w, actor) && forall t :: t in actor ==> t !in x.inside
    ensures ClientsOk(x') && Queue(x') == Queue(x) && Granted(x') == Granted(x) && Expired(x') == Expired(x)
  {
  }

  lemma ElsewhereEffect(x: Clients, op: Op)
    requires ClientsOk(x) && Elsewhere(x, op)
    ensures ClientsOk(Other(x, op)) && Queue(Other(x, op)) == Queue(x)
    ensures Granted(Other(x, op)) == Granted(x) && Expired(Other(x, op)) == Expired(x)
  {
    hide Apply, Quiet, Inv, Actor, Touches, Enabled;
    OpQuiet(x.k, op, x.w);
    AfterQuiet(x, Other(x, op), Actor(x.k, op));
  }

  // ---- runs ----

  datatype Step =
    | Enters(c: nat, timed: bool)
    | WakesFirst(c: nat, reschedule: bool)
    | WakesEvery(c: nat, reschedule: bool)
    | TimesOut(t: Tid)
    | Leaves(c: nat)
    | Others(op: Op)

  ghost predicate CanStep(x: Clients, step: Step) {
    ClientsOk(x) &&
    match step
    case Enters(c, _) => S.CanBlock(x.k, c) && x.k.current[c] !in x.inside
    case WakesFirst(c, r) => r ==> S.CanBlock(x.k, c)
    case WakesEvery(c, r) => r ==> S.CanBlock(x.k, c)
    case TimesOut(t) => t in x.inside && x.inside[t]
    case Leaves(c) => S.OnCpu(x.k, c) && x.k.current[c] in x.inside
    case Others(op) => Elsewhere(x, op)
  }

  ghost function Next(x: Clients, step: Step): Clients
    requires CanStep(x, step)
  {
    match step
    case Enters(c, timed) => Enter(x, c, timed)
    case WakesFirst(c, r) => WakeFirst(x, c, r)
    case WakesEvery(c, r) => WakeEvery(x, c, r)
    case TimesOut(t) => Expire(x, t)
    case Leaves(c) => Leave(x, x.k.current[c])
    case Others(op) => Other(x, op)
  }

  lemma RunningNotQueued(x: Clients, c: nat)
    requires ClientsOk(x) && S.OnCpu(x.k, c)
    ensures x.k.current[c] !in Queue(x)
  {
  }

  /** A removed thread keeps the code of the one that removed it until it returns with it. */
  lemma CodeStays(x: Clients, step: Step, t: Tid)
    requires CanStep(x, step) && (step.Leaves? ==> x.k.current[step.c] != t)
    ensures ClientsOk(Next(x, step))
    ensures t in Granted(x) ==> t in Granted(Next(x, step))
    ensures t in Expired(x) ==> t in Expired(Next(x, step))
  {
    match step
    case Enters(c, timed) => EnterEffect(x, c, timed);
    case WakesFirst(c, r) => WakeFirstEffect(x, c, r);
    case WakesEvery(c, r) => WakeEveryEffect(x, c, r);
    case TimesOut(u) => TimeoutEffect(x, u);
    case Leaves(c) => RunningNotQueued(x, c); LeaveEffect(x, x.k.current[c]);
    case Others(op) => ElsewhereEffect(x, op);
  }

  /** Each step is one that the state allows, as long as the clients are as they should be. */
  ghost predicate ClientsRun(xs: seq<Clients>, steps: seq<Step>) {
    && |xs| == |steps| + 1 && ClientsOk(xs[0])
    && forall i :: 0 <= i < |steps| && ClientsOk(xs[i]) ==> CanStep(xs[i], steps[i]) && xs[i + 1] == Next(xs[i], steps[i])
  }

  lemma NextOk(x: Clients, step: Step)
    requires CanStep(x, step)
    ensures ClientsOk(Next(x, step))
  {
    hide Inv, ClientsOk;
    match step
    case Enters(c, timed) => EnterEffect(x, c, timed);
    case WakesFirst(c, r) => WakeFirstEffect(x, c, r);
    case WakesEvery(c, r) => WakeEveryEffect(x, c, r);
    case TimesOut(u) => TimeoutEffect(x, u);
    case Leaves(c) => LeavesOk(x, c);
    case Others(op) => ElsewhereEffect(x, op);
  }

  lemma LeavesOk(x: Clients, c: nat)
    requires CanStep(x, Leaves(c))
    ensures ClientsOk(Leave(x, x.k.current[c]))
  {
    RunningNotQueued(x, c);
    LeaveEffect(x, x.k.current[c]);
  }

  lemma {:induction false} RunOk(xs: seq<Clients>, steps: seq<Step>, i: nat)
    requires ClientsRun(xs, steps) && i < |xs|
    ensures ClientsOk(xs[i])
    ensures i < |steps| ==> CanStep(xs[i], steps[i]) && xs[i + 1] == Next(xs[i], steps[i])
  {
    hide ClientsOk, CanStep, Next;
    if i > 0 {
      RunOk(xs, steps, i - 1);
      NextOk(xs[i - 1], steps[i - 1]);
    }
  }

  /** `t` is in the queue; `t` was removed from it, by its timer or by a waker, and has not returned. */
  ghost predicate Waits(x: Clients, t: Tid) {
    x.w in x.k.waits && t in Queue(x)
  }

  ghost predicate WasRemoved(x: Clients, t: Tid, timer: bool) {
    x.w in x.k.waits && t !in Queue(x) && t in if timer then Expired(x) else Granted(x)
  }

  /** The step takes `t` out of the queue: its own timer, a wake of the first when it is the first, or a wake of all. */
  ghost predicate Removes(x: Clients, step: Step, t: Tid) {
    match step
    case TimesOut(u) => u == t
    case WakesFirst(_, _) => x.w in x.k.waits && Queue(x) != [] && Queue(x)[0] == t
    case WakesEvery(_, _) => true
    case _ => false
  }

  /** A queued thread stays queued but for these steps, and gets the code of the one that removes it. */
  lemma QueuedStep(x: Clients, step: Step, t: Tid)
    requires CanStep(x, step) && Waits(x, t)
    ensures if Removes(x, step, t) then WasRemoved(Next(x, step), t, step.TimesOut?) else Waits(Next(x, step), t)
  {
    hide Inv, ClientsOk, S.WakeOne, S.WakeAll, S.WaitBlock, S.Unblock, Apply, Elsewhere, S.CanBlock;
    NextOk(x, step);
    ClientsFacts(Next(x, step));
    match step
    case Enters(c, timed) => EnterEffect(x, c, timed);
    case WakesFirst(c, r) => FirstOnce(x, t); WakeFirstEffect(x, c, r);
    case WakesEvery(c, r) => WakeEveryEffect(x, c, r);
    case TimesOut(u) => TimeoutEffect(x, u);
    case Leaves(c) => LeavesQueued(x, c);
    case Others(op) => ElsewhereEffect(x, op);
  }

  lemma LeavesQueued(x: Clients, c: nat)
    requires CanStep(x, Leaves(c))
    ensures ClientsOk(Leave(x, x.k.current[c])) && Queue(Leave(x, x.k.current[c])) == Queue(x)
  {
    LeavesOk(x, c);
  }

  lemma FirstOnce(x: Clients, t: Tid)
    requires ClientsOk(x) && Queue(x) != []
    ensures t in Queue(x)[1..] <==> t in Queue(x) && t != Queue(x)[0]
  {
    assert forall u :: u in Queue(x) <==> u == Queue(x)[0] || u in Queue(x)[1..];
  }

  /** Thread `t` returns from wait_queue_block in this step. */
  ghost predicate Returns(x: Clients, step: Step, t: Tid) {
    step.Leaves? && step.c < |x.k.current| && x.k.current[step.c] == t
  }

  /** A removed thread keeps its code, and is not queued again, until it returns. */
  lemma RemovedStep(x: Clients, step: Step, t: Tid, timer: bool)
    requires CanStep(x, step) && WasRemoved(x, t, timer) && !Returns(x, step, t)
    ensures WasRemoved(Next(x, step), t, timer)
  {
    CodeStays(x, step, t);
    InsidePartition(Next(x, step));
  }

  ghost predicate NeverReturns(xs: seq<Clients>, steps: seq<Step>, lo: nat, hi: nat, t: Tid)
    requires |xs| == |steps| + 1 && hi <= |steps|
  {
    forall i :: lo <= i < hi ==> !Returns(xs[i], steps[i], t)
  }

  /**
   * A thread that waits at `lo` and has not returned by `hi` was removed by at most one step, number `j`: up to it the
   * thread is queued, after it never again, and it holds the code of that step, the timer's or the waker's.
   */
  lemma {:induction false} RemovedOnce(xs: seq<Clients>, steps: seq<Step>, lo: nat, hi: nat, t: Tid) returns (j: nat)
    requires ClientsRun(xs, steps) && |xs| == |steps| + 1 && lo <= hi <= |steps|
    requires NeverReturns(xs, steps, lo, hi, t) && Waits(xs[lo], t)
    ensures lo <= j <= hi
    ensures forall i :: lo <= i <= j ==> Waits(xs[i], t)
    ensures forall i :: lo <= i < j ==> !Removes(xs[i], steps[i], t)
    ensures j < hi ==> Removes(xs[j], steps[j], t)
    ensures forall i :: j < i <= hi ==> WasRemoved(xs[i], t, steps[j].TimesOut?)
    decreases hi
  {
    hide *;
    if lo == hi {
      return hi;
    }
    StillThere(xs, steps, lo, hi, t);
    j := RemovedOnce(xs, steps, lo, hi - 1, t);
    RunOk(xs, steps, hi - 1);
    var x, step := xs[hi - 1], steps[hi - 1];
    if j < hi - 1 {
      RemovedStep(x, step, t, steps[j].TimesOut?);
    } else {
      QueuedStep(x, step, t);
      if !Removes(x, step, t) {
        j := hi;
      }
    }
  }

  lemma StillThere(xs: seq<Clients>, steps: seq<Step>, lo: nat, hi: nat, t: Tid)
    requires |xs| == |steps| + 1 && lo < hi <= |steps| && NeverReturns(xs, steps, lo, hi, t)
    ensures NeverReturns(xs, steps, lo, hi - 1, t) && !Returns(xs[hi - 1], steps[hi - 1], t)
  {
  }

  /** From wait_queue_block to its return: exactly one step removes the thread, and the call returns that step's code. */
  lemma OneRemover(xs: seq<Clients>, steps: seq<Step>, lo: nat, hi: nat, t: Tid) returns (j: nat)
    requires ClientsRun(xs, steps) && lo < hi < |steps| && NeverReturns(xs, steps, lo + 1, hi, t)
    requires steps[lo].Enters? && steps[lo].c < |xs[lo].k.current| && xs[lo].k.current[steps[lo].c] == t
    requires Returns(xs[hi], steps[hi], t)
    ensures lo < j < hi && Removes(xs[j], steps[j], t)
    ensures forall i :: lo < i <= j ==> Waits(xs[i], t)
    ensures forall i :: lo < i < j ==> !Removes(xs[i], steps[i], t)
    ensures forall i :: j < i <= hi ==> WasRemoved(xs[i], t, steps[j].TimesOut?)
    ensures t in xs[hi].k.threads
    ensures xs[hi].k.threads[t].blockRet == if steps[j].TimesOut? then ERR_TIMED_OUT else NO_ERROR
  {
    RunOk(xs, steps, lo);
    RunOk(xs, steps, hi);
    EntersQueue(xs[lo], steps[lo]);
    ReturnsRemoved(xs[hi], steps[hi], t);
    hide *;
    j := RemovedOnce(xs, steps, lo + 1, hi, t);
    CodeOf(xs[hi], t, steps[j].TimesOut?);
  }

  lemma CodeOf(x: Clients, t: Tid, timer: bool)
    requires WasRemoved(x, t, timer)
    ensures t in x.k.threads && x.k.threads[t].blockRet == if timer then ERR_TIMED_OUT else NO_ERROR
  {
  }

  lemma ReturnsRemoved(x: Clients, step: Step, t: Tid)
    requires CanStep(x, step) && Returns(x, step, t)
    ensures !Waits(x, t)
  {
    RunningNotQueued(x, step.c);
  }

  lemma EntersQueue(x: Clients, step: Step)
    requires CanStep(x, step) && step.Enters?
    ensures Waits(Next(x, step), x.k.current[step.c])
  {
    EnterEffect(x, step.c, step.timed);
  }
}

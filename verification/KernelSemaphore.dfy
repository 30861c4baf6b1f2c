/** kernel/semaphore.c on top of the scheduler, cut at the context switch in wait_queue_block. */
module KernelSemaphore {
  import opened Basics
  import opened Sched
  import S = Steps
  import opened Runs
  import opened WaitClients

  /**
   * `initial` is the value at initialization, `posts` counts the calls of sem_post, and
   * `passed` the waits that returned NO_ERROR.
   */
  datatype Semaphore = Semaphore(x: Clients, count: int, initial: nat, posts: nat, passed: nat)

  /** The waits granted so far: those that returned, and those removed from the queue by a post. */
  ghost function Grants(s: Semaphore): nat
    requires s.x.w in s.x.k.waits
  {
    s.passed + |Granted(s.x)|
  }

  ghost predicate SemaphoreOk(s: Semaphore) {
    && ClientsOk(s.x)
    && s.count == s.initial + s.posts - Grants(s) - |Queue(s.x)| - |Expired(s.x)|
    && Grants(s) <= s.initial + s.posts
  }

  datatype Step =
    | Post(c: nat, reschedule: bool)
    | Wait(c: nat, timeout: Timeout)
    | TryWait(c: nat)
    | Return(c: nat)
    | TimerFires(t: Tid)
    | Else(op: Op)

  ghost predicate CanStep(s: Semaphore, step: Step) {
    SemaphoreOk(s) &&
    match step
    case Post(c, r) => r ==> S.CanBlock(s.x.k, c)
    case Wait(c, _) => S.CanBlock(s.x.k, c) && s.x.k.current[c] !in s.x.inside
    case TryWait(c) => S.OnCpu(s.x.k, c)
    case Return(c) => S.OnCpu(s.x.k, c) && s.x.k.current[c] in s.x.inside
    case TimerFires(t) => t in s.x.inside && s.x.inside[t]
    case Else(op) => Elsewhere(s.x, op)
  }

  /** sem_post */
  ghost function PostOf(s: Semaphore, c: nat, reschedule: bool): Semaphore
    requires ClientsOk(s.x) && (reschedule ==> S.CanBlock(s.x.k, c))
  {
    var s1 := s.(count := s.count + 1, posts := s.posts + 1);
    if s1.count <= 0 then s1.(x := WakeFirst(s.x, c, reschedule)) else s1
  }

  /** sem_wait (infinite) and sem_timedwait, up to the context switch if it blocks. */
  ghost function WaitStart(s: Semaphore, c: nat, timeout: Timeout): Semaphore
    requires ClientsOk(s.x) && S.CanBlock(s.x.k, c)
  {
    var s1 := s.(count := s.count - 1);
    if s1.count < 0 then
      if timeout == Zero then s1.(count := s1.count + 1)
      else s1.(x := Enter(s.x, c, timeout == Finite))
    else s1.(passed := s.passed + 1)
  }

  /** sem_trywait: ERR_NOT_READY leaves everything as it was. */
  ghost function TryWaitOf(s: Semaphore): Semaphore {
    if s.count <= 0 then s else s.(count := s.count - 1, passed := s.passed + 1)
  }

  /** The rest of sem_wait and sem_timedwait, from the return of wait_queue_block. */
  ghost function WaitEnd(s: Semaphore, c: nat): Semaphore
    requires ClientsOk(s.x) && S.OnCpu(s.x.k, c) && s.x.k.current[c] in s.x.inside
  {
    var t := s.x.k.current[c];
    var ret := s.x.k.threads[t].blockRet;
    var s1 := s.(x := Leave(s.x, t));
    if ret < NO_ERROR then (if ret == ERR_TIMED_OUT then s1.(count := s.count + 1) else s1)
    else s1.(passed := s.passed + 1)
  }

  ghost function Next(s: Semaphore, step: Step): Semaphore
    requires CanStep(s, step)
  {
    match step
    case Post(c, r) => PostOf(s, c, r)
    case Wait(c, timeout) => WaitStart(s, c, timeout)
    case TryWait(c) => TryWaitOf(s)
    case Return(c) => WaitEnd(s, c)
    case TimerFires(t) => s.(x := Expire(s.x, t))
    case Else(op) => s.(x := Other(s.x, op))
  }

  lemma PostKeeps(s: Semaphore, c: nat, reschedule: bool)
    requires CanStep(s, Post(c, reschedule))
    ensures SemaphoreOk(PostOf(s, c, reschedule))
  {
    hide S.WakeOne, Inv;
    if s.count + 1 <= 0 {
      WakeFirstEffect(s.x, c, reschedule);
    }
  }

  lemma WaitKeeps(s: Semaphore, c: nat, timeout: Timeout)
    requires CanStep(s, Wait(c, timeout))
    ensures SemaphoreOk(WaitStart(s, c, timeout))
  {
    if s.count - 1 < 0 && timeout != Zero {
      EnterEffect(s.x, c, timeout == Finite);
    }
  }

  lemma TryKeeps(s: Semaphore)
    requires SemaphoreOk(s)
    ensures SemaphoreOk(TryWaitOf(s))
  {
  }

  lemma ReturnKeeps(s: Semaphore, c: nat)
    requires CanStep(s, Return(c))
    ensures SemaphoreOk(WaitEnd(s, c))
  {
    var t := s.x.k.current[c];
    RunningNotQueued(s.x, c);
    LeaveEffect(s.x, t);
    if s.x.k.threads[t].blockRet == NO_ERROR {
      assert Expired(s.x) - {t} == Expired(s.x);
      assert |Granted(s.x) - {t}| == |Granted(s.x)| - 1;
    } else {
      assert Granted(s.x) - {t} == Granted(s.x);
      assert |Expired(s.x) - {t}| == |Expired(s.x)| - 1;
    }
  }

  /** Every step keeps the conservation law of the count, and no more waits are granted than resources given. */
  lemma NextKeeps(s: Semaphore, step: Step)
    requires CanStep(s, step)
    ensures SemaphoreOk(Next(s, step))
  {
    hide Inv, ClientsOk;
    match step
    case Post(c, r) => PostKeeps(s, c, r);
    case Wait(c, timeout) => WaitKeeps(s, c, timeout);
    case TryWait(c) => TryKeeps(s);
    case Return(c) => ReturnKeeps(s, c);
    case TimerFires(t) => TimeoutEffect(s.x, t);
    case Else(op) => ElsewhereEffect(s.x, op);
  }

  // ---- what a caller sees ----

  /** More resources were given than are granted, waited for, or to be given back by waiters that timed out. */
  ghost predicate Available(s: Semaphore)
    requires s.x.w in s.x.k.waits
  {
    s.initial + s.posts > Grants(s) + |Queue(s.x)| + |Expired(s.x)|
  }

  /** A wait passes at once iff a resource is available; else it changes nothing with timeout 0, and queues its caller. */
  lemma WaitOutcome(s: Semaphore, c: nat, timeout: Timeout)
    requires CanStep(s, Wait(c, timeout))
    ensures var t, s' := s.x.k.current[c], WaitStart(s, c, timeout);
            && (s'.passed == s.passed + 1 <==> Available(s))
            && (Available(s) ==> s' == s.(count := s.count - 1, passed := s.passed + 1))
            && (!Available(s) && timeout == Zero ==> s' == s)
            && (!Available(s) && timeout != Zero ==>
                  && ClientsOk(s'.x) && Queue(s'.x) == Queue(s.x) + [t] && s'.passed == s.passed
                  && s'.x.inside == s.x.inside[t := timeout == Finite])
  {
    if !Available(s) && timeout != Zero {
      EnterEffect(s.x, c, timeout == Finite);
    }
  }

  /** The same for sem_trywait. */
  lemma TryWaitOutcome(s: Semaphore)
    requires SemaphoreOk(s)
    ensures TryWaitOf(s) == if Available(s) then s.(count := s.count - 1, passed := s.passed + 1) else s
  {
  }

  /** A post wakes the first waiter unless a resource is left over, counting those of waiters that timed out. */
  lemma PostOutcome(s: Semaphore, c: nat, reschedule: bool)
    requires CanStep(s, Post(c, reschedule))
    ensures var s' := PostOf(s, c, reschedule);
            && ClientsOk(s'.x) && s'.passed == s.passed && Expired(s'.x) == Expired(s.x)
            && if Queue(s.x) != [] && s.initial + s.posts < Grants(s) + |Queue(s.x)| + |Expired(s.x)|
               then s'.x == WakeFirst(s.x, c, reschedule) && Queue(s'.x) == Queue(s.x)[1..]
                    && Granted(s'.x) == Granted(s.x) + {Queue(s.x)[0]}
               else s'.x == s.x
  {
    if s.count + 1 <= 0 {
      WakeFirstEffect(s.x, c, reschedule);
    }
  }

  /** A waiter that was granted a resource passes when it returns; one that timed out gives up its place. */
  lemma ReturnOutcome(s: Semaphore, c: nat)
    requires CanStep(s, Return(c))
    ensures var t, s' := s.x.k.current[c], WaitEnd(s, c);
            && s'.x == Leave(s.x, t) && (t in Granted(s.x) || t in Expired(s.x))
            && (t in Granted(s.x) ==> s'.passed == s.passed + 1 && s'.count == s.count)
            && (t in Expired(s.x) ==> s'.passed == s.passed && s'.count == s.count + 1)
  {
    RunningNotQueued(s.x, c);
    LeaveEffect(s.x, s.x.k.current[c]);
    InsidePartition(s.x);
  }

  /** What a step is for the threads inside wait_queue_block. */
  ghost function ClientStep(s: Semaphore, step: Step): Option<WaitClients.Step>
    requires CanStep(s, step)
  {
    match step
    case Post(c, r) =>
      if Queue(s.x) != [] && s.initial + s.posts < Grants(s) + |Queue(s.x)| + |Expired(s.x)| then Some(WakesFirst(c, r))
      else None
    case Wait(c, timeout) => if Available(s) || timeout == Zero then None else Some(Enters(c, timeout == Finite))
    case TryWait(c) => None
    case Return(c) => Some(Leaves(c))
    case TimerFires(t) => Some(TimesOut(t))
    case Else(op) => Some(Others(op))
  }

  /** So what holds of waiters in general holds of those of the semaphore. */
  lemma StepOfClients(s: Semaphore, step: Step)
    requires CanStep(s, step)
    ensures match ClientStep(s, step)
            case None => Next(s, step).x == s.x
            case Some(x) => WaitClients.CanStep(s.x, x) && Next(s, step).x == WaitClients.Next(s.x, x)
  {
    hide S.WakeOne, S.WaitBlock, S.Unblock, Inv, ClientsOk, Available, Grants, Removed, Elsewhere;
    OkClients(s);
    match step
    case Post(c, r) => PostOutcome(s, c, r);
    case Wait(c, timeout) => WaitIs(s, c, timeout);
    case _ =>
  }

  lemma OkClients(s: Semaphore)
    requires SemaphoreOk(s)
    ensures ClientsOk(s.x)
  {
  }

  lemma WaitIs(s: Semaphore, c: nat, timeout: Timeout)
    requires CanStep(s, Wait(c, timeout))
    ensures WaitStart(s, c, timeout).x == if Available(s) || timeout == Zero then s.x else Enter(s.x, c, timeout == Finite)
  {
    WaitOutcome(s, c, timeout);
  }

  /** How many a post wakes. */
  lemma WokenIs(s: Semaphore, c: nat, reschedule: bool)
    requires CanStep(s, Post(c, reschedule))
    ensures S.WakeOne(s.x.k, c, s.x.w, reschedule, NO_ERROR).1 == if Queue(s.x) != [] then 1 else 0
  {
  }

  /** Every step keeps to the rules, given that the state is as it should be. */
  ghost predicate Run(ss: seq<Semaphore>, steps: seq<Step>) {
    && |ss| == |steps| + 1 && SemaphoreOk(ss[0])
    && forall i :: 0 <= i < |steps| && SemaphoreOk(ss[i]) ==> CanStep(ss[i], steps[i]) && ss[i + 1] == Next(ss[i], steps[i])
  }

  lemma {:induction false} RunStep(ss: seq<Semaphore>, steps: seq<Step>, i: nat)
    requires Run(ss, steps) && i < |ss|
    ensures SemaphoreOk(ss[i])
    ensures i < |steps| ==> CanStep(ss[i], steps[i]) && ss[i + 1] == Next(ss[i], steps[i])
  {
    hide Next, CanStep, SemaphoreOk;
    if i > 0 {
      RunStep(ss, steps, i - 1);
      NextKeeps(ss[i - 1], steps[i - 1]);
    }
  }

  /** The number of calls of sem_post in a run. */
  function Posts(steps: seq<Step>): nat {
    if steps == [] then 0 else Posts(steps[..|steps| - 1]) + if steps[|steps| - 1].Post? then 1 else 0
  }

  /** Over all runs from sem_init: grants never exceed the initial value and the posts of the run, and the count is what is left. */
  lemma {:induction false} Conservation(ss: seq<Semaphore>, steps: seq<Step>)
    requires Run(ss, steps) && ss[0].posts == 0 && ss[0].passed == 0
    ensures var s := ss[|steps|];
            && SemaphoreOk(s) && s.initial == ss[0].initial
            && Grants(s) <= s.initial + Posts(steps)
            && s.count == s.initial + Posts(steps) - Grants(s) - |Queue(s.x)| - |Expired(s.x)|
            && s.posts == Posts(steps)
  {
    hide Next, CanStep, ClientsOk;
    if steps != [] {
      var n := |steps| - 1;
      RunStep(ss, steps, n);
      assert forall i :: 0 <= i < n ==> steps[..n][i] == steps[i] && ss[..n + 1][i] == ss[i];
      Conservation(ss[..n + 1], steps[..n]);
      NextKeeps(ss[n], steps[n]);
      NextCounts(ss[n], steps[n]);
    }
  }

  lemma NextCounts(s: Semaphore, step: Step)
    requires CanStep(s, step)
    ensures Next(s, step).initial == s.initial
    ensures Next(s, step).posts == s.posts + if step.Post? then 1 else 0
  {
  }

  // ---- no lost wakeups, without finite timeouts ----

  ghost predicate Untimed(s: Semaphore) {
    forall t :: t in s.x.inside ==> !s.x.inside[t]
  }

  /** A thread waits only when nothing is available. */
  ghost predicate UntimedOk(s: Semaphore) {
    && SemaphoreOk(s) && Untimed(s)
    && (Grants(s) < s.initial + s.posts ==> Queue(s.x) == [])
  }

  lemma UntimedPost(s: Semaphore, c: nat, reschedule: bool)
    requires CanStep(s, Post(c, reschedule)) && UntimedOk(s)
    ensures UntimedOk(PostOf(s, c, reschedule))
  {
    hide S.WakeOne, Inv;
    assert Expired(s.x) == {};
    PostKeeps(s, c, reschedule);
    if s.count + 1 <= 0 {
      WakeFirstEffect(s.x, c, reschedule);
    }
  }

  lemma UntimedWait(s: Semaphore, c: nat, timeout: Timeout)
    requires CanStep(s, Wait(c, timeout)) && UntimedOk(s) && timeout != Finite
    ensures UntimedOk(WaitStart(s, c, timeout))
  {
    hide S.WaitBlock, Inv;
    assert Expired(s.x) == {};
    WaitKeeps(s, c, timeout);
    if s.count - 1 < 0 && timeout != Zero {
      EnterEffect(s.x, c, timeout == Finite);
    }
  }

  lemma UntimedReturn(s: Semaphore, c: nat)
    requires CanStep(s, Return(c)) && UntimedOk(s)
    ensures UntimedOk(WaitEnd(s, c))
  {
    var t := s.x.k.current[c];
    ReturnKeeps(s, c);
    RunningNotQueued(s.x, c);
    LeaveEffect(s.x, t);
    assert s.x.k.threads[t].blockRet == NO_ERROR;
    assert |Granted(s.x) - {t}| == |Granted(s.x)| - 1;
  }

  lemma UntimedNext(s: Semaphore, step: Step)
    requires CanStep(s, step) && UntimedOk(s) && (step.Wait? ==> step.timeout != Finite)
    ensures UntimedOk(Next(s, step))
  {
    hide ClientsOk;
    match step
    case Post(c, r) => UntimedPost(s, c, r);
    case Wait(c, timeout) => UntimedWait(s, c, timeout);
    case TryWait(c) =>
    case Return(c) => UntimedReturn(s, c);
    case TimerFires(t) =>
    case Else(op) => ElsewhereEffect(s.x, op);
  }

  /** In runs whose timeouts are 0 or INFINITE_TIME, no thread waits while a resource is available. */
  lemma {:induction false} UntimedRun(ss: seq<Semaphore>, steps: seq<Step>, i: nat)
    requires Run(ss, steps) && i < |ss| && UntimedOk(ss[0])
    requires forall j :: 0 <= j < |steps| && steps[j].Wait? ==> steps[j].timeout != Finite
    ensures UntimedOk(ss[i])
  {
    hide Next, CanStep, UntimedOk, SemaphoreOk;
    if i > 0 {
      UntimedRun(ss, steps, i - 1);
      RunStep(ss, steps, i - 1);
      UntimedNext(ss[i - 1], steps[i - 1]);
    }
  }
}

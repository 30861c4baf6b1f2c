/** kernel/event.c on top of the scheduler, cut at the context switch in wait_queue_block. */
module KernelEvent {
  import opened Basics
  import opened Sched
  import S = Steps
  import opened Runs
  import opened WaitClients

  /**
   * `initial` is the signaled state at initialization, `signals` counts the calls of
   * event_signal, and `passed` the waits that returned NO_ERROR.
   */
  datatype Event = Event(x: Clients, signaled: bool, auto: bool, initial: bool, signals: nat, passed: nat)

  /** The waits granted so far: those that returned, and those removed from the queue by a signal. */
  ghost function Grants(e: Event): nat
    requires e.x.w in e.x.k.waits
  {
    e.passed + |Granted(e.x)|
  }

  function Count(b: bool): nat {
    if b then 1 else 0
  }

  /** A signaled event has no waiters; each grant of an auto-unsignal event used up a signal. */
  ghost predicate EventOk(e: Event) {
    && ClientsOk(e.x)
    && (e.signaled ==> Queue(e.x) == [])
    && (e.auto ==> Grants(e) + Count(e.signaled) <= Count(e.initial) + e.signals)
  }

  datatype Step =
    | Signal(c: nat, reschedule: bool)
    | Unsignal
    | Wait(c: nat, timeout: Timeout)
    | Return(c: nat)
    | TimerFires(t: Tid)
    | Else(op: Op)

  ghost predicate CanStep(e: Event, step: Step) {
    EventOk(e) &&
    match step
    case Signal(c, r) => r ==> S.CanBlock(e.x.k, c)
    case Unsignal => true
    case Wait(c, _) => S.CanBlock(e.x.k, c) && e.x.k.current[c] !in e.x.inside
    case Return(c) => S.OnCpu(e.x.k, c) && e.x.k.current[c] in e.x.inside
    case TimerFires(t) => t in e.x.inside && e.x.inside[t]
    case Else(op) => Elsewhere(e.x, op)
  }

  /** event_signal; wait_queue_wake_one wakes nobody exactly when the queue is empty. */
  ghost function SignalOf(e: Event, c: nat, reschedule: bool): Event
    requires ClientsOk(e.x) && (reschedule ==> S.CanBlock(e.x.k, c))
  {
    var e1 := e.(signals := e.signals + 1);
    if e.signaled then e1
    else if e.auto then
      var woken := S.WakeOne(e.x.k, c, e.x.w, reschedule, NO_ERROR).1;
      e1.(x := WakeFirst(e.x, c, reschedule), signaled := woken <= 0)
    else
      e1.(x := WakeEvery(e.x, c, reschedule), signaled := true)
  }

  /** event_wait_timeout, up to the context switch if it blocks. */
  ghost function WaitStart(e: Event, c: nat, timeout: Timeout): Event
    requires ClientsOk(e.x) && S.CanBlock(e.x.k, c)
  {
    if e.signaled then e.(signaled := !e.auto, passed := e.passed + 1)
    else if timeout == Zero then e
    else e.(x := Enter(e.x, c, timeout == Finite))
  }

  /** The rest of event_wait_timeout, from the return of wait_queue_block. */
  ghost function WaitEnd(e: Event, c: nat): Event
    requires ClientsOk(e.x) && S.OnCpu(e.x.k, c) && e.x.k.current[c] in e.x.inside
  {
    var t := e.x.k.current[c];
    e.(x := Leave(e.x, t), passed := if e.x.k.threads[t].blockRet < NO_ERROR then e.passed else e.passed + 1)
  }

  ghost function Next(e: Event, step: Step): Event
    requires CanStep(e, step)
  {
    match step
    case Signal(c, r) => SignalOf(e, c, r)
    case Unsignal => e.(signaled := false)
    case Wait(c, timeout) => WaitStart(e, c, timeout)
    case Return(c) => WaitEnd(e, c)
    case TimerFires(t) => e.(x := Expire(e.x, t))
    case Else(op) => e.(x := Other(e.x, op))
  }

  lemma SignalKeeps(e: Event, c: nat, reschedule: bool)
    requires CanStep(e, Signal(c, reschedule))
    ensures EventOk(SignalOf(e, c, reschedule))
  {
    hide S.WakeAll, Inv;
    if !e.signaled && e.auto {
      WakeFirstEffect(e.x, c, reschedule);
    } else if !e.signaled {
      WakeEveryEffect(e.x, c, reschedule);
    }
  }

  /** A signal of an unsignaled event takes every waiter off the queue, or the first one if the event is auto-unsignal. */
  lemma SignalReleases(e: Event, c: nat, reschedule: bool)
    requires CanStep(e, Signal(c, reschedule)) && !e.signaled
    ensures var e' := SignalOf(e, c, reschedule);
            && EventOk(e') && Expired(e'.x) == Expired(e.x)
            && (!e.auto ==> e'.signaled && Queue(e'.x) == []
                            && Granted(e'.x) == Granted(e.x) + set t | t in Queue(e.x))
            && (e.auto && Queue(e.x) == [] ==> e'.signaled && e'.x == e.x)
            && (e.auto && Queue(e.x) != [] ==> !e'.signaled && Queue(e'.x) == Queue(e.x)[1..]
                                               && Granted(e'.x) == Granted(e.x) + {Queue(e.x)[0]})
  {
    SignalKeeps(e, c, reschedule);
    if e.auto {
      WakeFirstEffect(e.x, c, reschedule);
    } else {
      WakeEveryEffect(e.x, c, reschedule);
    }
  }

  lemma ReturnKeeps(e: Event, c: nat)
    requires CanStep(e, Return(c))
    ensures EventOk(WaitEnd(e, c))
  {
    var t := e.x.k.current[c];
    RunningNotQueued(e.x, c);
    LeaveEffect(e.x, t);
    if e.x.k.threads[t].blockRet == NO_ERROR {
      assert |Granted(e.x) - {t}| == |Granted(e.x)| - 1;
    } else {
      assert Granted(e.x) - {t} == Granted(e.x);
    }
  }

  lemma NextKeeps(e: Event, step: Step)
    requires CanStep(e, step)
    ensures EventOk(Next(e, step))
  {
    match step
    case Signal(c, r) => SignalKeeps(e, c, r);
    case Unsignal =>
    case Wait(c, timeout) =>
      if !e.signaled && timeout != Zero {
        EnterEffect(e.x, c, timeout == Finite);
      }
    case Return(c) => ReturnKeeps(e, c);
    case TimerFires(t) => TimeoutEffect(e.x, t);
    case Else(op) => ElsewhereEffect(e.x, op);
  }

  // ---- what a caller sees ----

  /** A wait passes at once iff the event is signaled, and takes the signal only of an auto-unsignal event. */
  lemma WaitOutcome(e: Event, c: nat, timeout: Timeout)
    requires CanStep(e, Wait(c, timeout))
    ensures var t, e' := e.x.k.current[c], WaitStart(e, c, timeout);
            && (e'.passed == e.passed + 1 <==> e.signaled) && (e'.signaled <==> e.signaled && !e.auto)
            && (e.signaled ==> e'.x == e.x)
            && (!e.signaled && timeout == Zero ==> e' == e)
            && (!e.signaled && timeout != Zero ==>
                  && ClientsOk(e'.x) && Queue(e'.x) == Queue(e.x) + [t] && e'.passed == e.passed
                  && e'.x.inside == e.x.inside[t := timeout == Finite])
  {
    if !e.signaled && timeout != Zero {
      EnterEffect(e.x, c, timeout == Finite);
    }
  }

  /** A waiter that a signal released passes when it returns; one that timed out does not. */
  lemma ReturnOutcome(e: Event, c: nat)
    requires CanStep(e, Return(c))
    ensures var t, e' := e.x.k.current[c], WaitEnd(e, c);
            && e'.x == Leave(e.x, t) && e'.signaled == e.signaled && (t in Granted(e.x) || t in Expired(e.x))
            && e'.passed == if t in Granted(e.x) then e.passed + 1 else e.passed
  {
    RunningNotQueued(e.x, c);
    LeaveEffect(e.x, e.x.k.current[c]);
    InsidePartition(e.x);
  }

  /** A signal of a signaled event is not remembered, and wakes nobody; event_unsignal takes the signal away. */
  lemma SignalOnce(e: Event, c: nat, reschedule: bool)
    requires CanStep(e, Signal(c, reschedule)) && e.signaled
    ensures SignalOf(e, c, reschedule).signaled && SignalOf(e, c, reschedule).x == e.x
    ensures var e' := Next(e, Unsignal);
            !e'.signaled && e'.x == e.x && e'.passed == e.passed
  {
  }

  /** What a step is for the threads inside wait_queue_block. */
  ghost function ClientStep(e: Event, step: Step): Option<WaitClients.Step>
    requires CanStep(e, step)
  {
    match step
    case Signal(c, r) =>
      if e.signaled then None else Some(if e.auto then WakesFirst(c, r) else WakesEvery(c, r))
    case Unsignal => None
    case Wait(c, timeout) => if e.signaled || timeout == Zero then None else Some(Enters(c, timeout == Finite))
    case Return(c) => Some(Leaves(c))
    case TimerFires(t) => Some(TimesOut(t))
    case Else(op) => Some(Others(op))
  }

  /** So what holds of waiters in general holds of those of the event. */
  lemma StepOfClients(e: Event, step: Step)
    requires CanStep(e, step)
    ensures match ClientStep(e, step)
            case None => Next(e, step).x == e.x
            case Some(s) => WaitClients.CanStep(e.x, s) && Next(e, step).x == WaitClients.Next(e.x, s)
  {
    hide S.WakeOne, S.WakeAll, S.WaitBlock, S.Unblock, Inv;
  }

  /** Until it is unsignaled, a signaled event without auto-unsignal stays signaled, every wait passes, and nobody queues. */
  lemma StaysSignaled(e: Event, step: Step)
    requires CanStep(e, step) && e.signaled && !e.auto && !step.Unsignal?
    ensures var e' := Next(e, step);
            && EventOk(e') && e'.signaled && !e'.auto && Queue(e'.x) == []
            && (step.Wait? ==> e'.passed == e.passed + 1 && e'.x == e.x)
  {
    NextKeeps(e, step);
  }

  /** Until it is signaled, an unsignaled event lets nobody pass but those that a signal released before. */
  lemma StaysUnsignaled(e: Event, step: Step)
    requires CanStep(e, step) && !e.signaled && !step.Signal?
    ensures var e' := Next(e, step);
            EventOk(e') && !e'.signaled && Grants(e') == Grants(e)
  {
    NextKeeps(e, step);
    hide ClientsOk, Inv;
    match step
    case Unsignal =>
    case Wait(c, timeout) =>
      if timeout != Zero {
        EnterFacts(e, c, timeout);
      }
    case Return(c) => ReturnGrants(e, c);
    case TimerFires(t) => TimeoutEffect(e.x, t);
    case Else(op) => ElsewhereEffect(e.x, op);
  }

  lemma EnterFacts(e: Event, c: nat, timeout: Timeout)
    requires CanStep(e, Wait(c, timeout)) && !e.signaled && timeout != Zero
    ensures Granted(WaitStart(e, c, timeout).x) == Granted(e.x) && WaitStart(e, c, timeout).passed == e.passed
  {
    EnterEffect(e.x, c, timeout == Finite);
  }

  lemma ReturnGrants(e: Event, c: nat)
    requires CanStep(e, Return(c))
    ensures Grants(WaitEnd(e, c)) == Grants(e)
  {
    var t := e.x.k.current[c];
    ReturnOutcome(e, c);
    RunningNotQueued(e.x, c);
    LeaveEffect(e.x, t);
    if t in Granted(e.x) {
      assert |Granted(e.x) - {t}| == |Granted(e.x)| - 1;
    } else {
      assert Granted(e.x) - {t} == Granted(e.x);
    }
  }

  /** Every step keeps to the rules, given that the state is as it should be. */
  ghost predicate Run(es: seq<Event>, steps: seq<Step>) {
    && |es| == |steps| + 1 && EventOk(es[0])
    && forall i :: 0 <= i < |steps| && EventOk(es[i]) ==> CanStep(es[i], steps[i]) && es[i + 1] == Next(es[i], steps[i])
  }

  lemma {:induction false} RunStep(es: seq<Event>, steps: seq<Step>, i: nat)
    requires Run(es, steps) && i < |es|
    ensures EventOk(es[i])
    ensures i < |steps| ==> CanStep(es[i], steps[i]) && es[i + 1] == Next(es[i], steps[i])
  {
    hide Next, CanStep, EventOk;
    if i > 0 {
      RunStep(es, steps, i - 1);
      NextKeeps(es[i - 1], steps[i - 1]);
    }
  }

  /** A latch: from a signaled event without auto-unsignal, in every run without event_unsignal, nobody ever waits. */
  lemma {:induction false} Latched(es: seq<Event>, steps: seq<Step>, i: nat, j: nat)
    requires Run(es, steps) && i <= j < |es| && EventOk(es[i]) && es[i].signaled && !es[i].auto
    requires forall k :: i <= k < j ==> !steps[k].Unsignal?
    ensures EventOk(es[j]) && es[j].signaled && !es[j].auto && Queue(es[j].x) == []
    ensures forall k :: i <= k < j && steps[k].Wait? ==> es[k + 1].passed == es[k].passed + 1
    decreases j
  {
    hide CanStep, Next, EventOk;
    if i < j {
      Latched(es, steps, i, j - 1);
      RunStep(es, steps, j - 1);
      StaysSignaled(es[j - 1], steps[j - 1]);
    } else {
      NobodyWaits(es[i]);
    }
  }

  lemma NobodyWaits(e: Event)
    requires EventOk(e) && e.signaled
    ensures e.x.w in e.x.k.waits && Queue(e.x) == []
  {
  }

  /** The number of calls of event_signal in a run. */
  function Signals(steps: seq<Step>): nat {
    if steps == [] then 0 else Signals(steps[..|steps| - 1]) + if steps[|steps| - 1].Signal? then 1 else 0
  }

  /** Over all runs from event_init: signaled implies no waiters, and each grant of an auto-unsignal event took a signal. */
  lemma {:induction false} Conservation(es: seq<Event>, steps: seq<Step>)
    requires Run(es, steps) && es[0].signals == 0 && es[0].passed == 0
    ensures var e := es[|steps|];
            && EventOk(e) && e.auto == es[0].auto && e.initial == es[0].initial && e.signals == Signals(steps)
            && (e.signaled ==> Queue(e.x) == [])
            && (e.auto ==> Grants(e) <= Count(es[0].initial) + Signals(steps))
  {
    hide Next, CanStep, ClientsOk;
    if steps != [] {
      var n := |steps| - 1;
      RunStep(es, steps, n);
      assert forall i :: 0 <= i < n ==> steps[..n][i] == steps[i] && es[..n + 1][i] == es[i];
      Conservation(es[..n + 1], steps[..n]);
      NextKeeps(es[n], steps[n]);
      NextCounts(es[n], steps[n]);
    }
  }

  lemma NextCounts(e: Event, step: Step)
    requires CanStep(e, step)
    ensures Next(e, step).auto == e.auto && Next(e, step).initial == e.initial
    ensures Next(e, step).signals == e.signals + if step.Signal? then 1 else 0
  {
  }
}

/** kernel/timer.c in place: timer structures, the queue of one CPU, and its hardware one-shot. */
module TimerQueues {
  import opened Timers
  import opened TimerTicks
  import opened TimerRuns
  import opened Basics

  type Head = Option<Id>

  /** timer_t */
  class TimerStruct {
    const id: Id
    var scheduled: int
    var periodic: int
    /** whether `callback` is set */
    var callback: bool

    /** timer_initialize */
    constructor (t: Id)
      ensures id == t && Record() == Timer(0, 0, false)
    {
      id, scheduled, periodic, callback := t, 0, 0, false;
    }

    function Record(): Timer
      reads this
    {
      Timer(scheduled, periodic, callback)
    }
  }

  class TimerQueue {
    var queue: seq<Id>
    const timers: map<Id, TimerStruct>
    /** platform_set_oneshot_timer and platform_stop_timer */
    var hw: Hardware
    /** the unbounded times that the scheduled times stand for */
    ghost var due: map<Id, int>

    ghost predicate Valid(lo: int)
      reads this, timers.Values
    {
      (forall t :: t in timers ==> timers[t].id == t) && QueueOk(View(), lo)
    }

    ghost function TimersOf(): map<Id, Timer>
      reads timers.Values
    {
      map t | t in timers :: timers[t].Record()
    }

    ghost function View(): State
      reads this, timers.Values
    {
      State(queue, TimersOf(), due, hw)
    }

    /** An empty queue over initialized timers. */
    constructor (all: map<Id, TimerStruct>)
      requires forall t :: t in all ==> all[t].id == t && all[t].Record() == Timer(0, 0, false)
      ensures timers == all && queue == [] && (forall lo :: Valid(lo)) && HardwareOk(View()) && CallbacksOk(View())
    {
      queue, timers, hw, due := [], all, Stopped, map t | t in all :: 0;
    }

    twostate lemma OnlyTimer(t: Id)
      requires t in timers && (forall u :: u in timers ==> timers[u].id == u)
      requires forall u :: u in timers && u != t ==> unchanged(timers[u])
      ensures TimersOf() == old(TimersOf())[t := timers[t].Record()]
    {
      forall u | u in timers && u != t
        ensures timers[u].Record() == old(timers[u].Record())
      {
      }
    }

    /** list_peek_head_type */
    function PeekHead(): Head
      reads this`queue
    {
      if queue == [] then None else Some(queue[0])
    }

    /** Stores to the fields of one timer. */
    method Store(t: Id, scheduled: int, periodic: int, callback: bool)
      requires t in timers && forall u :: u in timers ==> timers[u].id == u
      modifies timers[t]
      ensures View() == old(View()).(timers := old(View()).timers[t := Timer(scheduled, periodic, callback)])
    {
      var timer := timers[t];
      timer.scheduled := scheduled;
      timer.periodic := periodic;
      timer.callback := callback;
      OnlyTimer(t);
    }

    ghost method StoreDue(t: Id, d: int)
      modifies this`due
      ensures View() == old(View()).(due := old(View()).due[t := d])
    {
      due := due[t := d];
    }

    /** platform_set_oneshot_timer and platform_stop_timer */
    method SetHardware(h: Hardware)
      modifies this`hw
      ensures View() == old(View()).(hw := h)
    {
      hw := h;
    }

    /** list_delete, if the timer is in the queue */
    method RemoveFromQueue(t: Id)
      modifies this`queue
      ensures View() == old(View()).(queue := Remove(old(View()).queue, t))
    {
      if t in queue {
        queue := Remove(queue, t);
      } else {
        RemoveAbsent(queue, t);
      }
    }

    lemma ViewIs(lo: int)
      requires Valid(lo)
      ensures QueueOk(View(), lo) && View().queue == queue && View().due == due && due.Keys == timers.Keys
      ensures View().timers.Keys == timers.Keys && (forall t :: t in timers ==> timers[t].id == t)
      ensures forall t :: t in queue ==> t in timers && t in due
      ensures forall t :: t in timers ==> View().timers[t] == timers[t].Record()
    {
    }

    lemma TimerIs(t: Id)
      ensures View().queue == queue && View().timers.Keys == timers.Keys
      ensures t in timers ==> View().timers[t] == timers[t].Record()
    {
    }

    lemma ValidIs(lo: int)
      requires QueueOk(View(), lo) && forall t :: t in timers ==> timers[t].id == t
      ensures Valid(lo)
    {
    }

    /** insert_timer_in_queue */
    method InsertTimerInQueue(t: Id)
      requires t in timers && (forall u :: u in timers ==> timers[u].id == u) && forall u :: u in queue ==> u in timers
      modifies this`queue
      ensures View() == Inserted(old(View()), t)
    {
      ghost var k := View();
      var i := 0;
      while i < |queue|
        invariant i <= |queue| && View() == k && k.queue == queue
        invariant forall j :: 0 <= j < i ==> !TimeGt(timers[queue[j]].scheduled, timers[t].scheduled)
      {
        if TimeGt(timers[queue[i]].scheduled, timers[t].scheduled) {
          // list_add_before
          queue := InsertAt(queue, i, t);
          return;
        }
        i := i + 1;
      }
      // list_add_tail
      queue := InsertAt(queue, |queue|, t);
    }

    /** timer_set, called at time `now` */
    method TimerSet(ghost lo: int, t: Id, now: int, delay: int, period: int)
      requires Valid(lo) && t in timers && t !in queue && delay >= 0 && period >= 0
      requires InWindow(lo, now) && InWindow(lo, now + delay)
      modifies this, timers.Values
      ensures Valid(lo) && View() == SetTimer(old(View()), t, now, delay, period)
    {
      hide QueueOk, Inserted, TimerQueue.View, TimerQueue.Valid;
      ViewIs(lo);
      SetTimerKeeps(View(), lo, t, now, delay, period);
      Store(t, (now + delay) % WRAP, period, true);
      StoreDue(t, now + delay);
      InsertTimerInQueue(t);
      TimerIs(t);
      if queue[0] == t {
        SetHardware(Armed(now + delay, now));
      }
      ValidIs(lo);
    }

    /** timer_cancel, called at time `now` */
    method TimerCancel(ghost lo: int, t: Id, now: int)
      requires Valid(lo) && t in timers && InWindow(lo, now)
      modifies this, timers.Values
      ensures Valid(lo) && View() == CancelTimer(old(View()), t, now)
    {
      hide QueueOk, Remove, TimeLt, TimerQueue.View, TimerQueue.Valid;
      ViewIs(lo);
      CancelTimerKeeps(View(), lo, t, now);
      var oldhead := PeekHead();
      RemoveFromQueue(t);
      TimerIs(t);
      Store(t, timers[t].scheduled, 0, false);
      TimerIs(t);
      var newhead := PeekHead();
      if newhead == None {
        SetHardware(Stopped);
      } else if newhead != oldhead {
        assert newhead.value in queue;
        TimerIs(newhead.value);
        var scheduled := timers[newhead.value].scheduled;
        var delay := if TimeLt(scheduled, now % WRAP) then 0 else (scheduled - now % WRAP) % WRAP;
        SetHardware(Armed(now + delay, now));
      }
      ValidIs(lo);
    }

    /** timer_set_oneshot */
    method TimerSetOneshot(ghost lo: int, t: Id, now: int, delay: int)
      requires Valid(lo) && t in timers && t !in queue && delay >= 0
      requires InWindow(lo, now) && InWindow(lo, now + AtLeastOne(delay))
      modifies this, timers.Values
      ensures Valid(lo) && View() == SetTimer(old(View()), t, now, AtLeastOne(delay), 0)
    {
      var d := delay;
      if d == 0 {
        d := 1;
      }
      TimerSet(lo, t, now, d, 0);
    }

    /** timer_set_periodic */
    method TimerSetPeriodic(ghost lo: int, t: Id, now: int, period: int)
      requires Valid(lo) && t in timers && t !in queue && period >= 0
      requires InWindow(lo, now) && InWindow(lo, now + AtLeastOne(period))
      modifies this, timers.Values
      ensures Valid(lo) && View() == SetTimer(old(View()), t, now, AtLeastOne(period), AtLeastOne(period))
    {
      var p := period;
      if p == 0 {
        p := 1;
      }
      TimerSet(lo, t, now, p, p);
    }

    /** A timer callback: it sets and cancels timers. */
    method RunCallback(ghost lo: int, ghost now: int, acts: seq<Action>)
      requires Valid(lo) && InWindow(lo, now) && PeriodsOk(View(), lo, now)
      requires QueueOk(View(), lo) && LegalActs(View(), lo, now, acts)
      modifies this, timers.Values
      ensures Valid(lo) && old(QueueOk(View(), lo)) && View() == RunActs(old(View()), lo, now, acts)
      decreases |acts|
    {
      hide QueueOk, TimerQueue.View, TimerQueue.Valid, PeriodsOk;
      if acts != [] {
        ViewIs(lo);
        ActKeeps(View(), lo, now, acts[0]);
        RunAction(lo, now, acts[0]);
        RunCallback(lo, now, acts[1..]);
      }
    }

    method RunAction(ghost lo: int, ghost now: int, a: Action)
      requires Valid(lo) && QueueOk(View(), lo) && LegalAct(View(), lo, now, a)
      modifies this, timers.Values
      ensures Valid(lo) && old(QueueOk(View(), lo)) && View() == Act(old(View()), lo, now, a)
    {
      hide QueueOk, TimerQueue.View, TimerQueue.Valid, SetTimer, CancelTimer;
      ViewIs(lo);
      match a
      case SetOneshot(t, at, delay) => TimerSetOneshot(lo, t, at, delay);
      case SetPeriodic(t, at, period) => TimerSetPeriodic(lo, t, at, period);
      case Cancel(t, at) => TimerCancel(lo, t, at);
    }

    /** One turn of the loop of timer_tick: the head leaves the queue, runs its callback, and may be requeued. */
    method Process(ghost lo: int, now: int, acts: seq<Action>) returns (t: Id)
      requires Valid(lo) && Ready(View(), lo, now) && IsDue(View(), now) && LegalFire(View(), lo, now, acts)
      modifies this, timers.Values
      ensures t == old(queue[0]) && Valid(lo) && old(Ready(View(), lo, now))
      ensures View() == Fire(old(View()), lo, now, acts)
    {
      ghost var k := View();
      HeadOf(k, lo, now);
      FireIs(k, lo, now, acts);
      ViewIs(lo);
      hide *;
      t := queue[0];
      assert timers[t].callback;
      DropHead();
      ValidIs(lo);
      TimerIs(t);
      var periodic := timers[t].periodic > 0;
      RunCallback(lo, now, acts);
      ViewIs(lo);
      TimerIs(t);
      if periodic && t !in queue && timers[t].periodic > 0 {
        Requeue(lo, t, now);
      }
      ValidIs(lo);
    }

    method Requeue(ghost lo: int, t: Id, now: int)
      requires Valid(lo) && t in timers && t !in queue
      modifies this, timers.Values
      ensures t in old(View()).timers && (forall u :: u in old(View()).queue ==> u in old(View()).timers)
      ensures View() == Requeued(old(View()), t, now)
    {
      hide QueueOk, TimerQueue.View, TimerQueue.Valid, Inserted;
      ViewIs(lo);
      ghost var next := now + timers[t].periodic;
      Store(t, (now + timers[t].periodic) % WRAP, timers[t].periodic, timers[t].callback);
      StoreDue(t, next);
      InsertTimerInQueue(t);
    }

    /** list_delete of the head */
    method DropHead()
      requires queue != []
      modifies this`queue
      ensures View() == Popped(old(View()))
    {
      queue := queue[1..];
    }

    /** timer_tick; the callbacks end at time `end`. */
    method TimerTick(ghost lo: int, now: int, script: nat -> seq<Action>, end: int) returns (fired: seq<Id>)
      requires Valid(lo) && Ready(View(), lo, now) && TickOk(View(), lo, now, script, 0) && now <= end
      modifies this, timers.Values
      ensures Valid(lo) && old(Ready(View(), lo, now))
      ensures var (s, f) := Loop(old(View()), lo, now, script, 0);
              (forall t :: t in s.queue ==> t in s.timers) && fired == f && View() == Rearmed(s, now, end)
    {
      hide *;
      ReadyFacts(View(), lo, now);
      ghost var k := View();
      var n: nat := 0;
      fired := [];
      while true
        invariant Valid(lo) && Ready(View(), lo, now) && TickOk(View(), lo, now, script, n)
        invariant forall t :: t in View().queue ==> t in View().due && t in View().timers
        invariant Loop(View(), lo, now, script, n).0 == Loop(k, lo, now, script, 0).0
        invariant fired + Loop(View(), lo, now, script, n).1 == Loop(k, lo, now, script, 0).1
        decreases |DueOf(View().queue, View().due, now)|
      {
        ViewIs(lo);
        var head := PeekHead();
        HeadIs(lo, now);
        if head == None {
          break;
        }
        if TimeLt(now % WRAP, timers[head.value].scheduled) {
          break;
        }
        LoopStep(View(), lo, now, script, n);
        var t := Process(lo, now, script(n));
        ReadyFacts(View(), lo, now);
        fired := fired + [t];
        n := n + 1;
      }
      LoopEnd(View(), lo, now, script, n, 0);
      Rearm(lo, now, end);
    }

    /** One event of a run: the calls in place are the steps of `TimerRuns`. */
    method Happen(ghost x: Clocked, e: Event) returns (fired: seq<Id>)
      requires (forall t :: t in timers ==> timers[t].id == t) && View() == x.s && CanHappen(x, e)
      modifies this, timers.Values
      ensures (forall t :: t in timers ==> timers[t].id == t)
      ensures View() == Next(x, e).s && ClockedOk(Next(x, e)) && fired == FiredBy(x, e)
    {
      NextKeeps(x, e);
      EventFacts(x, e);
      hide *;
      fired := [];
      match e
      case Call(a) =>
        ValidIs(Base(x.s, a.at));
        RunAction(Base(x.s, a.at), a.at, a);
        ViewIs(Base(x.s, a.at));
      case Tick(now, script, end) =>
        ValidIs(Base(x.s, now));
        fired := TimerTick(Base(x.s, now), now, script, end);
        ViewIs(Base(x.s, now));
    }

    lemma HeadIs(lo: int, now: int)
      requires Valid(lo)
      ensures WRAP > 0 && forall t :: t in View().queue ==> t in View().timers
      ensures PeekHead() == None ==> !IsDue(View(), now)
      ensures PeekHead() != None ==>
                && PeekHead().value in timers && queue != [] && PeekHead().value == queue[0]
                && (IsDue(View(), now) <==> !TimeLt(now % WRAP, timers[PeekHead().value].scheduled))
    {
      if queue != [] {
        assert queue[0] in queue;
      }
    }

    /** The end of timer_tick */
    method Rearm(ghost lo: int, now: int, end: int)
      requires Valid(lo)
      modifies this`hw
      ensures Valid(lo) && View() == Rearmed(old(View()), now, end)
    {
      var head := PeekHead();
      if head != None {
        assert head.value in queue;
        hw := Armed(end + (timers[head.value].scheduled - now % WRAP) % WRAP, end);
      }
    }
  }

  lemma FireIs(k: State, lo: int, now: int, acts: seq<Action>)
    requires Ready(k, lo, now) && IsDue(k, now) && LegalFire(k, lo, now, acts)
    ensures k.queue != [] && k.queue[0] in k.timers && k.timers[k.queue[0]].callback
    ensures InWindow(lo, now) && QueueOk(Popped(k), lo) && PeriodsOk(Popped(k), lo, now)
    ensures LegalActs(Popped(k), lo, now, acts)
    ensures var s := RunActs(Popped(k), lo, now, acts);
            var h := k.queue[0];
            && QueueOk(s, lo) && QueueOk(Fire(k, lo, now, acts), lo) && h in s.timers
            && (forall t :: t in s.queue ==> t in s.timers)
            && Fire(k, lo, now, acts) ==
               if k.timers[h].periodic > 0 && h !in s.queue && s.timers[h].periodic > 0 then Requeued(s, h, now) else s
  {
    FireKeeps(k, lo, now, acts);
    PoppedOk(k, lo, now);
    RunActsKeeps(Popped(k), lo, now, acts);
    assert k.queue[0] in k.queue;
  }

  lemma EventFacts(x: Clocked, e: Event)
    requires CanHappen(x, e)
    ensures forall t :: t in x.s.queue ==> t in x.s.due
    ensures match e
            case Call(a) =>
              && QueueOk(x.s, Base(x.s, a.at)) && LegalAct(x.s, Base(x.s, a.at), a.at, a)
              && Next(x, e).s == Act(x.s, Base(x.s, a.at), a.at, a) && FiredBy(x, e) == []
            case Tick(now, script, end) =>
              && now <= end && QueueOk(x.s, Base(x.s, now)) && Ready(x.s, Base(x.s, now), now)
              && TickOk(x.s, Base(x.s, now), now, script, 0)
              && var (s, fired) := Loop(x.s, Base(x.s, now), now, script, 0);
                 && (forall t :: t in s.queue ==> t in s.timers)
                 && Next(x, e).s == Rearmed(s, now, end) && FiredBy(x, e) == fired
  {
    if e.Call? {
      WindowAt(x, e.a.at);
    } else {
      TickFires(x.s, Base(x.s, e.now), e.now, e.script, 0);
    }
  }
}

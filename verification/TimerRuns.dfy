/**
 * Runs of timer_set, timer_cancel and timer_tick on one CPU, with a clock that does not go
 * back.  The window of half the 32-bit range moves on with the clock.
 */
module TimerRuns {
  import opened Basics
  import opened Timers
  import opened TimerTicks

  /**
   * `clock` is the time of the last event; `late` is the time that the callbacks took in the tick
   * that armed the hardware, and None if timer_set or timer_cancel armed it.
   */
  datatype Clocked = Clocked(s: State, clock: int, late: Option<int>)

  /** A timer is set or cancelled outside of callbacks, or timer_tick runs from `now` to `end`. */
  datatype Event =
    | Call(a: Action)
    | Tick(now: int, script: nat -> seq<Action>, end: int)

  /** The window starts at the head's time if the head is overdue, and else at the clock. */
  ghost function Base(s: State, clock: int): int
    requires forall t :: t in s.queue ==> t in s.due
  {
    if s.queue != [] && s.due[s.queue[0]] < clock then s.due[s.queue[0]] else clock
  }

  /** How the hardware is set: for the head as outside a tick, or late by what the callbacks took. */
  ghost predicate ArmedOk(x: Clocked)
    requires forall t :: t in x.s.queue ==> t in x.s.due
  {
    x.s.queue != [] ==>
      && x.s.hw.Armed?
      && match x.late
         case None => HardwareOk(x.s)
         case Some(l) =>
           l >= 0 && x.s.hw.deadline == x.s.due[x.s.queue[0]] + l && x.s.due[x.s.queue[0]] > x.s.hw.at - l
  }

  ghost predicate ClockedOk(x: Clocked) {
    && (forall t :: t in x.s.queue ==> t in x.s.due)
    && QueueOk(x.s, Base(x.s, x.clock)) && CallbacksOk(x.s) && ArmedOk(x)
  }

  /** Sorted in a window, the queue is sorted in the later window that starts at its own base. */
  lemma WindowMoves(s: State, lo: int, clock: int)
    requires QueueOk(s, lo) && lo <= clock && (forall t :: t in s.queue ==> t in s.due)
    ensures lo <= Base(s, clock) <= clock && QueueOk(s, Base(s, clock))
  {
    forall t | t in s.queue
      ensures InWindow(Base(s, clock), s.due[t])
    {
      var i :| 0 <= i < |s.queue| && s.queue[i] == t;
      assert s.due[s.queue[0]] <= s.due[s.queue[i]];
      assert s.queue[0] in s.queue;
    }
  }

  // ---- events ----

  /** The rules for callers and callbacks; all times lie within half the range of the window. */
  ghost predicate CanHappen(x: Clocked, e: Event) {
    ClockedOk(x) &&
    match e
    case Call(a) => x.clock <= a.at && LegalAct(x.s, Base(x.s, a.at), a.at, a)
    case Tick(now, script, end) =>
      && x.clock <= now <= end && Ready(x.s, Base(x.s, now), now)
      && TickOk(x.s, Base(x.s, now), now, script, 0)
  }

  lemma WindowAt(x: Clocked, now: int)
    requires ClockedOk(x) && x.clock <= now
    ensures QueueOk(x.s, Base(x.s, now)) && Base(x.s, x.clock) <= Base(x.s, now) <= now
  {
    WindowMoves(x.s, Base(x.s, x.clock), now);
  }

  /** What the loop of the tick leaves and fires. */
  ghost function LoopOf(x: Clocked, e: Event): (State, seq<Id>)
    requires e.Tick? && CanHappen(x, e)
  {
    Loop(x.s, Base(x.s, e.now), e.now, e.script, 0)
  }

  /** The timers whose callbacks run. */
  ghost function FiredBy(x: Clocked, e: Event): seq<Id>
    requires CanHappen(x, e)
  {
    if e.Tick? then LoopOf(x, e).1 else []
  }

  ghost function Next(x: Clocked, e: Event): Clocked
    requires CanHappen(x, e)
  {
    match e
    case Call(a) =>
      WindowAt(x, a.at);
      var s' := Act(x.s, Base(x.s, a.at), a.at, a);
      var same := x.s.queue != [] && s'.queue != [] && s'.queue[0] == x.s.queue[0];
      Clocked(s', a.at, if same then x.late else None)
    case Tick(now, script, end) =>
      TickFires(x.s, Base(x.s, now), now, script, 0);
      ReadyFacts(LoopOf(x, e).0, Base(x.s, now), now);
      var s' := Rearmed(LoopOf(x, e).0, now, end);
      Clocked(s', end, if s'.queue == [] then None else Some(end - now))
  }

  // ---- what every event keeps ----

  lemma SetArms(x: Clocked, t: Id, at: int, delay: int, period: int)
    requires ClockedOk(x) && x.clock <= at && t in x.s.timers && t !in x.s.queue && delay >= 0 && period >= 0
    requires InWindow(Base(x.s, at), at) && InWindow(Base(x.s, at), at + delay)
    ensures forall u :: u in x.s.queue ==> u in x.s.timers
    ensures var s' := SetTimer(x.s, t, at, delay, period);
            && QueueOk(s', Base(x.s, at)) && (forall u :: u in s'.queue ==> u in s'.due) && s'.queue != []
            && if x.s.queue != [] && s'.queue[0] == x.s.queue[0]
               then s'.hw == x.s.hw && s'.due[s'.queue[0]] == x.s.due[x.s.queue[0]]
               else HardwareOk(s')
  {
    WindowAt(x, at);
    SetTimerKeeps(x.s, Base(x.s, at), t, at, delay, period);
    var s' := SetTimer(x.s, t, at, delay, period);
    var p :| 0 <= p <= |x.s.queue| && s'.queue == InsertAt(x.s.queue, p, t);
    InsertAtIndex(x.s.queue, p, t);
    if p == 0 {
      assert s'.queue[0] == t;
    } else {
      assert s'.queue[0] == x.s.queue[0];
      assert x.s.queue[0] in x.s.queue;
    }
  }

  lemma CancelArms(x: Clocked, t: Id, at: int)
    requires ClockedOk(x) && x.clock <= at && t in x.s.timers && InWindow(Base(x.s, at), at)
    ensures forall u :: u in x.s.queue ==> u in x.s.timers
    ensures var s' := CancelTimer(x.s, t, at);
            && QueueOk(s', Base(x.s, at)) && (forall u :: u in s'.queue ==> u in s'.due) && s'.due == x.s.due
            && (s'.queue != [] ==>
                  && x.s.queue != []
                  && if s'.queue[0] == x.s.queue[0] then s'.hw == x.s.hw else HardwareOk(s'))
  {
    WindowAt(x, at);
    CancelTimerKeeps(x.s, Base(x.s, at), t, at);
    hide Sorted, NoDup, Remove, DelayTo;
    var q' := CancelTimer(x.s, t, at).queue;
    if q' != [] {
      assert q'[0] in q';
      DelayIs(x.s.due[q'[0]], at);
    }
  }

  lemma CallKeeps(x: Clocked, a: Action)
    requires CanHappen(x, Call(a))
    ensures ClockedOk(Next(x, Call(a))) && Base(x.s, a.at) <= Base(Next(x, Call(a)).s, a.at)
  {
    var lo := Base(x.s, a.at);
    WindowAt(x, a.at);
    ActCallbacks(x.s, lo, a.at, a);
    if a.Cancel? {
      CancelArms(x, a.t, a.at);
    } else {
      var delay := AtLeastOne(if a.SetOneshot? then a.delay else a.period);
      SetArms(x, a.t, a.at, delay, if a.SetOneshot? then 0 else delay);
    }
    var s' := Next(x, Call(a)).s;
    assert QueueOk(s', lo);
    WindowMoves(s', lo, a.at);
  }

  lemma TickKeeps(x: Clocked, now: int, script: nat -> seq<Action>, end: int)
    requires CanHappen(x, Tick(now, script, end))
    ensures var x' := Next(x, Tick(now, script, end));
            && ClockedOk(x') && Base(x.s, now) <= now <= Base(x'.s, end)
            && (x'.s.queue != [] ==> x'.s.due[x'.s.queue[0]] > now)
  {
    var lo := Base(x.s, now);
    WindowAt(x, now);
    TickFires(x.s, lo, now, script, 0);
    var s1 := Loop(x.s, lo, now, script, 0).0;
    RearmedIff(s1, lo, now, end);
    var s' := Rearmed(s1, now, end);
    WindowMoves(s', lo, end);
  }

  lemma NextKeeps(x: Clocked, e: Event)
    requires CanHappen(x, e)
    ensures ClockedOk(Next(x, e)) && x.clock <= Next(x, e).clock
    ensures Base(x.s, x.clock) <= Base(Next(x, e).s, Next(x, e).clock)
  {
    match e
    case Call(a) =>
      WindowAt(x, a.at);
      CallKeeps(x, a);
    case Tick(now, script, end) =>
      WindowAt(x, now);
      TickKeeps(x, now, script, end);
  }

  // ---- runs ----

  ghost predicate Run(xs: seq<Clocked>, es: seq<Event>) {
    && |xs| == |es| + 1 && ClockedOk(xs[0])
    && forall i :: 0 <= i < |es| && ClockedOk(xs[i]) ==> CanHappen(xs[i], es[i]) && xs[i + 1] == Next(xs[i], es[i])
  }

  lemma {:induction false} RunStep(xs: seq<Clocked>, es: seq<Event>, i: nat)
    requires Run(xs, es) && i < |xs|
    ensures ClockedOk(xs[i])
    ensures i < |es| ==> CanHappen(xs[i], es[i]) && xs[i + 1] == Next(xs[i], es[i])
  {
    hide CanHappen, Next, ClockedOk;
    if i > 0 {
      RunStep(xs, es, i - 1);
      NextKeeps(xs[i - 1], es[i - 1]);
    }
  }

  /** In every state outside a tick the queue is sorted within a window, and the windows move on. */
  lemma {:induction false} RunKeeps(xs: seq<Clocked>, es: seq<Event>, i: nat, j: nat)
    requires Run(xs, es) && i <= j < |xs|
    ensures ClockedOk(xs[i]) && ClockedOk(xs[j]) && xs[i].clock <= xs[j].clock
    ensures Base(xs[i].s, xs[i].clock) <= Base(xs[j].s, xs[j].clock)
    decreases j
  {
    hide CanHappen, Next, ClockedOk, Base;
    RunStep(xs, es, j);
    if i < j {
      RunKeeps(xs, es, i, j - 1);
      RunStep(xs, es, j - 1);
      NextKeeps(xs[j - 1], es[j - 1]);
    }
  }

  /** No timers queued, none periodic, the hardware in any state. */
  lemma InitOk(ids: set<Id>, hw: Hardware, clock: int)
    ensures ClockedOk(Clocked(State([], map t | t in ids :: Timer(0, 0, false), map t | t in ids :: 0, hw), clock, None))
  {
  }

  // ---- the hardware ----

  /** The hardware is set for the head exactly if the tick that armed it, if any did, took no time. */
  lemma HardwareIff(x: Clocked)
    requires ClockedOk(x)
    ensures HardwareOk(x.s) <==> x.s.queue == [] || x.late == None || x.late == Some(0)
  {
  }

  /** No callback takes time. */
  ghost predicate Prompt(es: seq<Event>) {
    forall i :: 0 <= i < |es| && es[i].Tick? ==> es[i].end == es[i].now
  }

  /** In a run without slow callbacks the hardware is set for the head in every state. */
  lemma {:induction false} HardwareFollowsHead(xs: seq<Clocked>, es: seq<Event>, i: nat)
    requires Run(xs, es) && i < |xs| && Prompt(es) && HardwareOk(xs[0].s)
    ensures (forall t :: t in xs[i].s.queue ==> t in xs[i].s.due) && HardwareOk(xs[i].s)
  {
    NotLate(xs, es, i);
    RunKeeps(xs, es, i, i);
    HardwareIff(xs[i]);
  }

  lemma {:induction false} NotLate(xs: seq<Clocked>, es: seq<Event>, i: nat)
    requires Run(xs, es) && i < |xs| && Prompt(es) && HardwareOk(xs[0].s)
    ensures xs[i].s.queue == [] || xs[i].late == None || xs[i].late == Some(0)
  {
    if i == 0 {
      HardwareIff(xs[0]);
    } else {
      NotLate(xs, es, i - 1);
      RunStep(xs, es, i - 1);
      LateAfter(xs[i - 1], es[i - 1]);
    }
  }

  lemma LateAfter(x: Clocked, e: Event)
    requires CanHappen(x, e)
    ensures Next(x, e).late == None || (e.Call? && x.s.queue != [] && Next(x, e).late == x.late)
            || (e.Tick? && Next(x, e).late == Some(e.end - e.now))
  {
  }

  /** One timer, and callbacks that take 3 ms in the tick at 10 and do nothing else. */
  ghost function One(): Clocked {
    Clocked(State([], map[0 := Timer(0, 0, false)], map[0 := 0], Stopped), 0, None)
  }

  ghost function OneAt(due: int, hw: Hardware): State {
    State([0], map[0 := Timer(due, 10, true)], map[0 := due], hw)
  }

  lemma QuietTickOk(s: State, lo: int, now: int, script: nat -> seq<Action>, n: nat)
    requires Ready(s, lo, now) && forall k: nat :: script(k) == []
    ensures TickOk(s, lo, now, script, n)
    decreases |DueOf(s.queue, s.due, now)|
  {
    if IsDue(s, now) {
      PoppedOk(s, lo, now);
      FireKeeps(s, lo, now, script(n));
      QuietTickOk(Fire(s, lo, now, script(n)), lo, now, script, n + 1);
    }
  }

  lemma SetOne()
    ensures CanHappen(One(), Call(SetPeriodic(0, 0, 10)))
    ensures Next(One(), Call(SetPeriodic(0, 0, 10))) == Clocked(OneAt(10, Armed(10, 0)), 0, None)
  {
    var s := One().s.(timers := map[0 := Timer(10, 10, true)], due := map[0 := 10]);
    assert Inserted(s, 0).queue == [0];
  }

  lemma FireOne()
    ensures var s := OneAt(10, Armed(10, 0));
            && Ready(s, 10, 10) && IsDue(s, 10) && LegalFire(s, 10, 10, [])
            && Fire(s, 10, 10, []) == OneAt(20, Armed(10, 0))
  {
    var s := OneAt(10, Armed(10, 0));
    assert s.queue[1..] == [];
    PoppedOk(s, 10, 10);
    var s1 := Rescheduled(Popped(s), 0, 10);
    assert s1.timers == map[0 := Timer(20, 10, true)] && s1.due == map[0 := 20];
    assert Inserted(s1, 0).queue == [0];
  }

  lemma TickOne(script: nat -> seq<Action>)
    requires forall k: nat :: script(k) == []
    ensures var s := OneAt(10, Armed(10, 0));
            && Ready(s, 10, 10) && TickOk(s, 10, 10, script, 0)
            && Loop(s, 10, 10, script, 0) == (OneAt(20, Armed(10, 0)), [0])
  {
    var s := OneAt(10, Armed(10, 0));
    FireOne();
    QuietTickOk(s, 10, 10, script, 0);
    hide *;
    LoopStep(s, 10, 10, script, 0);
    NotYet();
    LoopEnd(OneAt(20, Armed(10, 0)), 10, 10, script, 1, 0);
    HeadIsOne();
    var done: seq<Id> := [];
    assert [0] + done == [0];
  }

  lemma HeadIsOne()
    ensures OneAt(10, Armed(10, 0)).queue == [0]
  {
  }

  lemma NotYet()
    ensures !IsDue(OneAt(20, Armed(10, 0)), 10)
  {
  }

  /** A run of two events after which the hardware is set 3 ms too late for the head. */
  lemma LateHardware() returns (xs: seq<Clocked>, es: seq<Event>)
    ensures Run(xs, es) && |es| == 2 && ClockedOk(xs[0]) && ClockedOk(xs[1])
    ensures HardwareOk(xs[0].s) && HardwareOk(xs[1].s)
    ensures xs[2].s == OneAt(20, Armed(23, 13)) && xs[2].late == Some(3)
    ensures !HardwareOk(xs[2].s)
  {
    var script: nat -> seq<Action> := _ => [];
    var x0, x1, x2 := One(), Clocked(OneAt(10, Armed(10, 0)), 0, None), Clocked(OneAt(20, Armed(23, 13)), 13, Some(3));
    var e0, e1 := Call(SetPeriodic(0, 0, 10)), Tick(10, script, 13);
    SetOne();
    TickOne(script);
    assert ClockedOk(x1);
    hide Ready, TickOk, Loop, QueueOk;
    assert CanHappen(x1, e1) && Next(x1, e1) == x2;
    xs, es := [x0, x1, x2], [e0, e1];
  }

  // ---- a cancelled timer ----

  /** The event sets `t`, itself or in a callback. */
  ghost predicate SetsTimer(x: Clocked, e: Event, t: Id)
    requires CanHappen(x, e)
  {
    match e
    case Call(a) => !a.Cancel? && a.t == t
    case Tick(_, script, _) => !NeverSet(script, 0, |FiredBy(x, e)|, t)
  }

  /** An idle timer does not fire in a tick, and stays idle until it is set. */
  lemma IdleNext(x: Clocked, e: Event, t: Id)
    requires CanHappen(x, e) && Idle(x.s, t)
    ensures t !in FiredBy(x, e)
    ensures !SetsTimer(x, e, t) ==> Idle(Next(x, e).s, t)
  {
    match e
    case Call(a) =>
      WindowAt(x, a.at);
      if a.Cancel? || a.t != t {
        IdleAfterAct(x.s, Base(x.s, a.at), a.at, a, t);
      }
    case Tick(now, script, end) =>
      NotQueuedNotFired(x, e, t);
      if NeverSet(script, 0, |FiredBy(x, e)|, t) {
        IdleThroughTick(x.s, Base(x.s, now), now, script, 0, t);
      }
  }

  lemma NotQueuedNotFired(x: Clocked, e: Event, t: Id)
    requires CanHappen(x, e) && t !in x.s.queue
    ensures t !in FiredBy(x, e)
  {
    if e.Tick? && t in FiredBy(x, e) {
      var i :| 0 <= i < |FiredBy(x, e)| && FiredBy(x, e)[i] == t;
      FiredAreDue(x.s, Base(x.s, e.now), e.now, e.script, 0, i);
    }
  }

  /** timer_cancel outside of callbacks makes a timer idle. */
  lemma CancelMakesIdle(x: Clocked, a: Action)
    requires CanHappen(x, Call(a)) && a.Cancel?
    ensures Idle(Next(x, Call(a)).s, a.t)
  {
    WindowAt(x, a.at);
    CancelIdles(x.s, Base(x.s, a.at), a.at, a);
  }

  /** So does a cancel in the `k`-th callback of a tick, its own or another, if nothing in the tick sets it afterwards. */
  lemma TickCancelMakesIdle(x: Clocked, now: int, script: nat -> seq<Action>, end: int, k: nat, j: nat)
    requires CanHappen(x, Tick(now, script, end)) && k < |FiredBy(x, Tick(now, script, end))|
    requires j < |script(k)| && script(k)[j].Cancel? && script(k)[j].t !in Sets(script(k)[j + 1..])
    requires NeverSet(script, k + 1, |FiredBy(x, Tick(now, script, end))|, script(k)[j].t)
    ensures Idle(Next(x, Tick(now, script, end)).s, script(k)[j].t)
    ensures script(k)[j].t !in FiredBy(x, Tick(now, script, end))[k + 1..]
  {
    assert 0 + k == k;
    CancelledInTick(x.s, Base(x.s, now), now, script, 0, k, j);
  }

  /** A timer that is idle, as after a cancel, fires in no later tick until an event after that sets it. */
  lemma {:induction false} IdleUntilSet(xs: seq<Clocked>, es: seq<Event>, i: nat, j: nat, t: Id)
    requires Run(xs, es) && i <= j < |xs| && Idle(xs[i].s, t)
    requires forall k :: i <= k < j ==> CanHappen(xs[k], es[k]) && !SetsTimer(xs[k], es[k], t)
    ensures Idle(xs[j].s, t) && (j < |es| ==> CanHappen(xs[j], es[j]) && t !in FiredBy(xs[j], es[j]))
    decreases j
  {
    hide CanHappen, Next, FiredBy, SetsTimer, Idle;
    if i < j {
      IdleUntilSet(xs, es, i, j - 1, t);
      RunStep(xs, es, j - 1);
      IdleNext(xs[j - 1], es[j - 1], t);
    }
    if j < |es| {
      RunStep(xs, es, j);
      IdleNext(xs[j], es[j], t);
    }
  }

  // ---- a timer that is set ----

  /** The event sets or cancels `t`, itself or in a callback. */
  ghost predicate Touches(x: Clocked, e: Event, t: Id)
    requires CanHappen(x, e)
  {
    match e
    case Call(a) => a.t == t
    case Tick(_, script, _) => !NeverMentioned(script, 0, |FiredBy(x, e)|, t)
  }

  /** timer_set queues the timer for the time of the call plus the delay, at least one. */
  lemma SetQueues(x: Clocked, a: Action)
    requires CanHappen(x, Call(a)) && !a.Cancel?
    ensures QueuedFor(Next(x, Call(a)).s, a.t, a.at + AtLeastOne(if a.SetOneshot? then a.delay else a.period))
  {
    var delay := AtLeastOne(if a.SetOneshot? then a.delay else a.period);
    WindowAt(x, a.at);
    SetTimerKeeps(x.s, Base(x.s, a.at), a.t, a.at, delay, if a.SetOneshot? then 0 else delay);
    SetMembers(x.s, Base(x.s, a.at), a.t, a.at, delay, if a.SetOneshot? then 0 else delay);
  }

  /** It stays queued through events that do not touch it and ticks before its time; these do not fire it. */
  lemma QueuedNext(x: Clocked, e: Event, t: Id, d: int)
    requires CanHappen(x, e) && QueuedFor(x.s, t, d) && !Touches(x, e, t) && (e.Tick? ==> e.now < d)
    ensures QueuedFor(Next(x, e).s, t, d) && t !in FiredBy(x, e)
  {
    match e
    case Call(a) =>
      WindowAt(x, a.at);
      UnmentionedByOne(x.s, Base(x.s, a.at), a.at, a, t);
      ActKeepsDue(x, a);
    case Tick(now, script, end) =>
      StaysQueued(x.s, Base(x.s, now), now, script, 0, t);
      if t in FiredBy(x, e) {
        var i :| 0 <= i < |FiredBy(x, e)| && FiredBy(x, e)[i] == t;
        FiredAreDue(x.s, Base(x.s, now), now, script, 0, i);
      }
  }

  lemma ActKeepsDue(x: Clocked, a: Action)
    requires CanHappen(x, Call(a))
    ensures x.s.due.Keys <= Next(x, Call(a)).s.due.Keys
  {
    WindowAt(x, a.at);
    if a.Cancel? {
      CancelIs(x.s, a.t, a.at);
    }
  }

  /** A tick at or after its time fires it, unless an earlier callback of the tick cancels it. */
  lemma FiresIff(x: Clocked, now: int, script: nat -> seq<Action>, end: int, t: Id, d: int)
    requires CanHappen(x, Tick(now, script, end)) && QueuedFor(x.s, t, d) && d <= now
    ensures (forall u :: u in x.s.queue ==> u in x.s.due)
    ensures var fired := FiredBy(x, Tick(now, script, end));
            && NoDup(fired)
            && (t in fired <==> NotCancelled(DueOf(x.s.queue, x.s.due, now), fired, script, 0, t))
  {
    var lo := Base(x.s, now);
    ReadyFacts(x.s, lo, now);
    TickFires(x.s, lo, now, script, 0);
    FiredOnce(x.s, lo, now, script, 0);
    DueOfNoDup(x.s.queue, x.s.due, now);
    LiveIff(DueOf(x.s.queue, x.s.due, now), script, 0, t);
  }

  lemma {:induction false} StaysSet(xs: seq<Clocked>, es: seq<Event>, i: nat, j: nat, t: Id, d: int)
    requires Run(xs, es) && i <= j < |xs| && QueuedFor(xs[i].s, t, d)
    requires forall k :: i <= k < j ==>
               CanHappen(xs[k], es[k]) && !Touches(xs[k], es[k], t) && (es[k].Tick? ==> es[k].now < d)
    ensures QueuedFor(xs[j].s, t, d)
    ensures forall k :: i <= k < j ==> CanHappen(xs[k], es[k]) && t !in FiredBy(xs[k], es[k])
    decreases j
  {
    hide CanHappen, Next, FiredBy, Touches, QueuedFor;
    if i < j {
      StaysSet(xs, es, i, j - 1, t, d);
      RunStep(xs, es, j - 1);
      QueuedNext(xs[j - 1], es[j - 1], t, d);
    }
  }

  /**
   * A timer that is queued for `d` and left alone fires in the first tick at or after `d`, unless an
   * earlier callback of that tick cancels it, and in no tick before.
   */
  lemma FiresWhenDue(xs: seq<Clocked>, es: seq<Event>, i: nat, j: nat, t: Id, d: int)
    requires Run(xs, es) && i <= j < |es| && QueuedFor(xs[i].s, t, d)
    requires forall k :: i <= k < j ==>
               CanHappen(xs[k], es[k]) && !Touches(xs[k], es[k], t) && (es[k].Tick? ==> es[k].now < d)
    requires es[j].Tick? && d <= es[j].now
    ensures forall k :: i <= k < j ==> CanHappen(xs[k], es[k]) && t !in FiredBy(xs[k], es[k])
    ensures CanHappen(xs[j], es[j]) && (forall u :: u in xs[j].s.queue ==> u in xs[j].s.due)
    ensures NoDup(FiredBy(xs[j], es[j]))
    ensures t in FiredBy(xs[j], es[j]) <==>
            NotCancelled(DueOf(xs[j].s.queue, xs[j].s.due, es[j].now), FiredBy(xs[j], es[j]), es[j].script, 0, t)
  {
    StaysSet(xs, es, i, j, t, d);
    RunStep(xs, es, j);
    FiresIff(xs[j], es[j].now, es[j].script, es[j].end, t, d);
  }
}

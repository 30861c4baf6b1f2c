/**
 * timer_tick of kernel/timer.c: the callbacks may set and cancel timers while the queue
 * is being scanned.  `script(n)` is what the n-th callback of the tick does; `at` is the
 * clock when it does it.
 */
module TimerTicks {
  import opened Basics
  import opened Timers

  datatype Action =
    | SetOneshot(t: Id, at: int, delay: int)
    | SetPeriodic(t: Id, at: int, period: int)
    | Cancel(t: Id, at: int)

  /** The timer is not in the queue, or the source panics; times stay within half the range. */
  ghost predicate LegalAct(s: State, lo: int, now: int, a: Action) {
    && a.t in s.timers && now <= a.at && InWindow(lo, a.at)
    && match a
       case SetOneshot(t, at, delay) => t !in s.queue && delay >= 0 && InWindow(lo, at + AtLeastOne(delay))
       case SetPeriodic(t, at, period) => t !in s.queue && period >= 0 && InWindow(lo, at + AtLeastOne(period))
       case Cancel(_, _) => true
  }

  ghost function Act(s: State, lo: int, now: int, a: Action): State
    requires QueueOk(s, lo) && LegalAct(s, lo, now, a)
  {
    match a
    case SetOneshot(t, at, delay) => SetTimer(s, t, at, AtLeastOne(delay), 0)
    case SetPeriodic(t, at, period) => SetTimer(s, t, at, AtLeastOne(period), AtLeastOne(period))
    case Cancel(t, at) => CancelTimer(s, t, at)
  }

  /** A periodic timer requeued at `now` stays within half the range. */
  ghost predicate PeriodsOk(s: State, lo: int, now: int) {
    forall t :: t in s.timers ==> InWindow(lo, now + s.timers[t].periodic)
  }

  // ---- the due timers ----

  /** The timers of `q` that are due, in queue order. */
  function DueOf(q: seq<Id>, due: map<Id, int>, now: int): (d: seq<Id>)
    requires forall t :: t in q ==> t in due
    ensures forall t :: t in d <==> t in q && due[t] <= now
  {
    if q == [] then []
    else
      assert forall t :: t in q <==> t == q[0] || t in q[1..];
      if due[q[0]] <= now then [q[0]] + DueOf(q[1..], due, now) else DueOf(q[1..], due, now)
  }

  lemma {:induction false} DueOfConcat(a: seq<Id>, b: seq<Id>, due: map<Id, int>, now: int)
    requires forall t :: t in a + b ==> t in due
    ensures (forall t :: t in a ==> t in due) && (forall t :: t in b ==> t in due)
    ensures DueOf(a + b, due, now) == DueOf(a, due, now) + DueOf(b, due, now)
  {
    assert forall t :: t in a || t in b ==> t in a + b;
    if a == [] {
      assert a + b == b;
    } else {
      assert (a + b)[1..] == a[1..] + b;
      assert forall t :: t in a[1..] + b ==> t in a + b;
      DueOfConcat(a[1..], b, due, now);
      var da, db := DueOf(a[1..], due, now), DueOf(b, due, now);
      assert [a[0]] + (da + db) == [a[0]] + da + db;
    }
  }

  lemma {:induction false} DueOfAgree(q: seq<Id>, due: map<Id, int>, due': map<Id, int>, now: int)
    requires forall t :: t in q ==> t in due && t in due' && due[t] == due'[t]
    ensures DueOf(q, due, now) == DueOf(q, due', now)
  {
    if q != [] {
      assert forall t :: t in q[1..] ==> t in q;
      DueOfAgree(q[1..], due, due', now);
    }
  }

  lemma DueOfInsert(q: seq<Id>, p: nat, t: Id, due: map<Id, int>, now: int)
    requires p <= |q| && t in due && due[t] > now && forall u :: u in q ==> u in due
    ensures forall u :: u in InsertAt(q, p, t) ==> u in due
    ensures DueOf(InsertAt(q, p, t), due, now) == DueOf(q, due, now)
  {
    InsertAtIndex(q, p, t);
    assert InsertAt(q, p, t) == q[..p] + ([t] + q[p..]);
    assert q == q[..p] + q[p..];
    assert DueOf([t], due, now) == [];
    hide InsertAt, DueOf;
    DueOfConcat(q[..p], [t] + q[p..], due, now);
    DueOfConcat([t], q[p..], due, now);
    DueOfConcat(q[..p], q[p..], due, now);
  }

  lemma {:induction false} DueOfRemove(q: seq<Id>, t: Id, due: map<Id, int>, now: int)
    requires forall u :: u in q ==> u in due
    ensures DueOf(Remove(q, t), due, now) == Remove(DueOf(q, due, now), t)
  {
    if q != [] {
      assert forall u :: u in q[1..] ==> u in q;
      DueOfRemove(q[1..], t, due, now);
      var r := Remove(q[1..], t);
      if q[0] != t {
        assert ([q[0]] + r)[1..] == r;
        var d := DueOf(q[1..], due, now);
        assert ([q[0]] + d)[1..] == d;
      } else {
        var d := DueOf(q[1..], due, now);
        assert ([q[0]] + d)[1..] == d;
      }
    }
  }

  lemma {:induction false} NoneDue(q: seq<Id>, due: map<Id, int>, now: int)
    requires forall t :: t in q ==> t in due && due[t] > now
    ensures DueOf(q, due, now) == []
  {
    if q != [] {
      assert forall t :: t in q[1..] ==> t in q;
      NoneDue(q[1..], due, now);
    }
  }

  /** In a sorted queue the head is due iff any timer is, and then it is the first of them. */
  lemma HeadDue(s: State, lo: int, now: int)
    requires QueueOk(s, lo) && InWindow(lo, now)
    ensures IsDue(s, now) <==> DueOf(s.queue, s.due, now) != []
    ensures IsDue(s, now) ==>
              DueOf(s.queue, s.due, now) == [s.queue[0]] + DueOf(s.queue[1..], s.due, now)
    ensures IsDue(s, now) <==> s.queue != [] && s.due[s.queue[0]] <= now
  {
    var q := s.queue;
    if q != [] {
      assert q[0] in q;
      DiffIs(now, s.due[q[0]]);
      if s.due[q[0]] > now {
        forall t | t in q
          ensures s.due[t] > now
        {
          var i :| 0 <= i < |q| && q[i] == t;
        }
        NoneDue(q, s.due, now);
      }
    }
  }

  /** The loop of timer_tick goes on: the head is not after `now`. */
  predicate IsDue(s: State, now: int)
    requires forall t :: t in s.queue ==> t in s.timers
  {
    s.queue != [] && !TimeLt(now % WRAP, s.timers[s.queue[0]].scheduled)
  }

  // ---- one callback ----

  lemma ActKeeps(s: State, lo: int, now: int, a: Action)
    requires QueueOk(s, lo) && InWindow(lo, now) && LegalAct(s, lo, now, a) && PeriodsOk(s, lo, now)
    ensures var s' := Act(s, lo, now, a);
            && QueueOk(s', lo) && PeriodsOk(s', lo, now) && s'.timers.Keys == s.timers.Keys
            && DueOf(s'.queue, s'.due, now) ==
               if a.Cancel? then Remove(DueOf(s.queue, s.due, now), a.t) else DueOf(s.queue, s.due, now)
  {
    match a
    case Cancel(t, at) =>
      CancelTimerKeeps(s, lo, t, at);
      CancelIs(s, t, at);
      DueOfRemove(s.queue, t, s.due, now);
    case SetOneshot(t, at, delay) =>
      SetDue(s, lo, now, t, at, AtLeastOne(delay), 0);
    case SetPeriodic(t, at, period) =>
      SetDue(s, lo, now, t, at, AtLeastOne(period), AtLeastOne(period));
  }

  /** A timer set by a callback is not due in this tick. */
  lemma SetDue(s: State, lo: int, now: int, t: Id, at: int, delay: int, period: int)
    requires QueueOk(s, lo) && InWindow(lo, now) && now <= at && t in s.timers && t !in s.queue
    requires InWindow(lo, at) && InWindow(lo, at + delay) && delay >= 1 && 0 <= period <= delay && PeriodsOk(s, lo, now)
    ensures var s' := SetTimer(s, t, at, delay, period);
            && QueueOk(s', lo) && PeriodsOk(s', lo, now) && s'.timers.Keys == s.timers.Keys
            && DueOf(s'.queue, s'.due, now) == DueOf(s.queue, s.due, now)
  {
    SetTimerKeeps(s, lo, t, at, delay, period);
    var s' := SetTimer(s, t, at, delay, period);
    assert s'.timers == s.timers[t := Timer((at + delay) % WRAP, period, true)];
    QueueMembers(s, lo);
    QueueMembers(s', lo);
    var p :| 0 <= p <= |s.queue| && s'.queue == InsertAt(s.queue, p, t);
    hide QueueOk, SetTimer, InsertAt, DueOf;
    DueOfInsert(s.queue, p, t, s'.due, now);
    DueOfAgree(s.queue, s.due, s'.due, now);
  }

  ghost predicate LegalActs(s: State, lo: int, now: int, acts: seq<Action>)
    requires QueueOk(s, lo) && InWindow(lo, now) && PeriodsOk(s, lo, now)
    decreases |acts|
  {
    acts != [] ==>
      && LegalAct(s, lo, now, acts[0])
      && (ActKeeps(s, lo, now, acts[0]); LegalActs(Act(s, lo, now, acts[0]), lo, now, acts[1..]))
  }

  ghost function RunActs(s: State, lo: int, now: int, acts: seq<Action>): State
    requires QueueOk(s, lo) && InWindow(lo, now) && PeriodsOk(s, lo, now) && LegalActs(s, lo, now, acts)
    decreases |acts|
  {
    if acts == [] then s
    else
      ActKeeps(s, lo, now, acts[0]);
      RunActs(Act(s, lo, now, acts[0]), lo, now, acts[1..])
  }

  /** The timers that `acts` cancel. */
  function Cancels(acts: seq<Action>): set<Id> {
    set a | a in acts && a.Cancel? :: a.t
  }

  /** The timers that `acts` set or cancel. */
  function Mentions(acts: seq<Action>): set<Id> {
    set a | a in acts :: a.t
  }

  function Without(q: seq<Id>, gone: set<Id>): (r: seq<Id>)
    ensures forall t :: t in r <==> t in q && t !in gone
    ensures |r| <= |q|
  {
    if q == [] then []
    else
      assert forall t :: t in q <==> t == q[0] || t in q[1..];
      if q[0] in gone then Without(q[1..], gone) else [q[0]] + Without(q[1..], gone)
  }

  lemma {:induction false} WithoutNone(q: seq<Id>)
    ensures Without(q, {}) == q
  {
    if q != [] {
      WithoutNone(q[1..]);
    }
  }

  lemma {:induction false} WithoutRemoved(q: seq<Id>, t: Id, gone: set<Id>)
    ensures Without(Remove(q, t), gone) == Without(q, gone + {t})
  {
    if q != [] {
      WithoutRemoved(q[1..], t, gone);
      if q[0] != t {
        assert ([q[0]] + Remove(q[1..], t))[1..] == Remove(q[1..], t);
      }
    }
  }

  lemma {:induction false} RunActsKeeps(s: State, lo: int, now: int, acts: seq<Action>)
    requires QueueOk(s, lo) && InWindow(lo, now) && PeriodsOk(s, lo, now) && LegalActs(s, lo, now, acts)
    ensures var s' := RunActs(s, lo, now, acts);
            && QueueOk(s', lo) && PeriodsOk(s', lo, now) && s'.timers.Keys == s.timers.Keys
            && DueOf(s'.queue, s'.due, now) == Without(DueOf(s.queue, s.due, now), Cancels(acts))
    decreases |acts|
  {
    hide QueueOk, LegalAct, Act;
    QueueMembers(s, lo);
    var d := DueOf(s.queue, s.due, now);
    if acts == [] {
      WithoutNone(d);
      assert Cancels(acts) == {};
    } else {
      var a := acts[0];
      ActKeeps(s, lo, now, a);
      var s1 := Act(s, lo, now, a);
      RunActsKeeps(s1, lo, now, acts[1..]);
      CancelsFirst(acts);
      if a.Cancel? {
        QueueMembers(s1, lo);
        WithoutRemoved(d, a.t, Cancels(acts[1..]));
      } else {
        assert Cancels(acts) == Cancels(acts[1..]);
      }
    }
  }

  lemma QueueMembers(s: State, lo: int)
    requires QueueOk(s, lo)
    ensures forall t :: t in s.queue ==> t in s.due && t in s.timers
  {
  }

  lemma CancelsFirst(acts: seq<Action>)
    requires acts != []
    ensures Cancels(acts) == Cancels(acts[1..]) + if acts[0].Cancel? then {acts[0].t} else {}
    ensures Mentions(acts) == Mentions(acts[1..]) + {acts[0].t}
  {
    assert acts == [acts[0]] + acts[1..];
  }

  // ---- the loop ----

  ghost function Popped(s: State): State
    requires s.queue != []
  {
    s.(queue := s.queue[1..])
  }

  lemma PoppedOk(s: State, lo: int, now: int)
    requires QueueOk(s, lo) && PeriodsOk(s, lo, now) && s.queue != []
    ensures QueueOk(Popped(s), lo) && PeriodsOk(Popped(s), lo, now) && s.queue[0] !in Popped(s).queue
  {
    assert forall t :: t in s.queue[1..] ==> t in s.queue;
  }

  /** A periodic timer goes back into the queue, one period after `now`. */
  function Requeued(s: State, t: Id, now: int): State
    requires t in s.timers && forall u :: u in s.queue ==> u in s.timers
  {
    Inserted(Rescheduled(s, t, now), t)
  }

  function Rescheduled(s: State, t: Id, now: int): State
    requires t in s.timers
  {
    var next := now + s.timers[t].periodic;
    s.(timers := s.timers[t := s.timers[t].(scheduled := next % WRAP)], due := s.due[t := next])
  }

  ghost predicate LegalFire(s: State, lo: int, now: int, acts: seq<Action>)
    requires QueueOk(s, lo) && InWindow(lo, now) && PeriodsOk(s, lo, now)
  {
    s.queue != [] && (PoppedOk(s, lo, now); LegalActs(Popped(s), lo, now, acts))
  }

  /** The head runs its callback, and is requeued if it was periodic and still is. */
  ghost function Fire(s: State, lo: int, now: int, acts: seq<Action>): State
    requires QueueOk(s, lo) && InWindow(lo, now) && PeriodsOk(s, lo, now) && LegalFire(s, lo, now, acts)
  {
    PoppedOk(s, lo, now);
    RunActsKeeps(Popped(s), lo, now, acts);
    var h := s.queue[0];
    var s1 := RunActs(Popped(s), lo, now, acts);
    if s.timers[h].periodic > 0 && h !in s1.queue && s1.timers[h].periodic > 0 then Requeued(s1, h, now) else s1
  }

  lemma RescheduledOk(s: State, lo: int, t: Id, now: int)
    requires QueueOk(s, lo) && PeriodsOk(s, lo, now) && t in s.timers && t !in s.queue
    ensures var s1 := Rescheduled(s, t, now);
            && QueueOk(s1, lo) && PeriodsOk(s1, lo, now) && s1.timers.Keys == s.timers.Keys && s1.queue == s.queue
            && s1.due == s.due[t := now + s.timers[t].periodic]
            && s1.timers == s.timers[t := s.timers[t].(scheduled := (now + s.timers[t].periodic) % WRAP)]
  {
  }

  lemma InsertedNotDue(s: State, lo: int, t: Id, now: int)
    requires QueueOk(s, lo) && t in s.timers && t !in s.queue
    requires s.timers[t].callback && InWindow(lo, s.due[t]) && s.timers[t].scheduled == s.due[t] % WRAP
    requires s.due[t] > now
    ensures var s' := Inserted(s, t);
            && QueueOk(s', lo) && s'.timers == s.timers && s'.due == s.due
            && (forall u :: u in s'.queue <==> u in s.queue || u == t)
            && DueOf(s'.queue, s'.due, now) == DueOf(s.queue, s.due, now)
  {
    InsertedKeeps(s, lo, t);
    var p := Position(s.queue, s.timers, s.timers[t].scheduled);
    InsertAtIndex(s.queue, p, t);
    DueOfInsert(s.queue, p, t, s.due, now);
  }

  lemma RequeuedKeeps(s: State, lo: int, t: Id, now: int)
    requires QueueOk(s, lo) && InWindow(lo, now) && PeriodsOk(s, lo, now)
    requires t in s.timers && t !in s.queue && s.timers[t].periodic > 0 && s.timers[t].callback
    ensures var s' := Requeued(s, t, now);
            && QueueOk(s', lo) && PeriodsOk(s', lo, now) && s'.timers.Keys == s.timers.Keys
            && DueOf(s'.queue, s'.due, now) == DueOf(s.queue, s.due, now)
            && t in s'.queue && s'.due == s.due[t := now + s.timers[t].periodic]
            && s'.timers == s.timers[t := s.timers[t].(scheduled := (now + s.timers[t].periodic) % WRAP)]
            && (forall u :: u in s'.queue <==> u in s.queue || u == t)
  {
    hide Sorted, NoDup, Inserted, Rescheduled;
    RescheduledOk(s, lo, t, now);
    InsertedNotDue(Rescheduled(s, t, now), lo, t, now);
    DueOfAgree(s.queue, s.due, Rescheduled(s, t, now).due, now);
  }

  /** A callback is never called after it was cancelled: a timer that is periodic has one. */
  ghost predicate CallbacksOk(s: State) {
    forall t :: t in s.timers && s.timers[t].periodic > 0 ==> s.timers[t].callback
  }

  lemma {:induction false} RunActsCallbacks(s: State, lo: int, now: int, acts: seq<Action>)
    requires QueueOk(s, lo) && InWindow(lo, now) && PeriodsOk(s, lo, now) && LegalActs(s, lo, now, acts)
    requires CallbacksOk(s)
    ensures CallbacksOk(RunActs(s, lo, now, acts))
    decreases |acts|
  {
    if acts != [] {
      ActKeeps(s, lo, now, acts[0]);
      ActCallbacks(s, lo, now, acts[0]);
      hide QueueOk, Act, LegalAct, CallbacksOk;
      RunActsCallbacks(Act(s, lo, now, acts[0]), lo, now, acts[1..]);
    }
  }

  lemma ActCallbacks(s: State, lo: int, now: int, a: Action)
    requires QueueOk(s, lo) && LegalAct(s, lo, now, a) && CallbacksOk(s)
    ensures CallbacksOk(Act(s, lo, now, a))
  {
    if a.Cancel? {
      CancelIs(s, a.t, a.at);
    }
  }

  ghost predicate Ready(s: State, lo: int, now: int) {
    QueueOk(s, lo) && InWindow(lo, now) && PeriodsOk(s, lo, now) && CallbacksOk(s)
  }

  lemma FireKeeps(s: State, lo: int, now: int, acts: seq<Action>)
    requires Ready(s, lo, now) && IsDue(s, now) && LegalFire(s, lo, now, acts)
    ensures var s' := Fire(s, lo, now, acts);
            var d := DueOf(s.queue, s.due, now);
            && Ready(s', lo, now) && s'.timers.Keys == s.timers.Keys && d != [] && d[0] == s.queue[0]
            && DueOf(s'.queue, s'.due, now) == Without(d[1..], Cancels(acts))
  {
    hide QueueOk, LegalActs, RunActs;
    var h := s.queue[0];
    HeadDue(s, lo, now);
    PoppedOk(s, lo, now);
    RunActsKeeps(Popped(s), lo, now, acts);
    RunActsCallbacks(Popped(s), lo, now, acts);
    var s1 := RunActs(Popped(s), lo, now, acts);
    QueueMembers(s, lo);
    assert DueOf(s.queue, s.due, now)[1..] == DueOf(s.queue[1..], s.due, now);
    if s.timers[h].periodic > 0 && h !in s1.queue && s1.timers[h].periodic > 0 {
      RequeuedKeeps(s1, lo, h, now);
    }
  }

  /** Every callback of the tick keeps to the rules. */
  ghost predicate TickOk(s: State, lo: int, now: int, script: nat -> seq<Action>, n: nat)
    requires Ready(s, lo, now)
    decreases |DueOf(s.queue, s.due, now)|
  {
    IsDue(s, now) ==>
      && LegalFire(s, lo, now, script(n))
      && (FireKeeps(s, lo, now, script(n)); TickOk(Fire(s, lo, now, script(n)), lo, now, script, n + 1))
  }

  /** The loop of timer_tick: the state it ends in, and the timers it fired. */
  ghost function Loop(s: State, lo: int, now: int, script: nat -> seq<Action>, n: nat): (State, seq<Id>)
    requires Ready(s, lo, now) && TickOk(s, lo, now, script, n)
    decreases |DueOf(s.queue, s.due, now)|
  {
    if !IsDue(s, now) then (s, [])
    else
      FireKeeps(s, lo, now, script(n));
      var (s', fired) := Loop(Fire(s, lo, now, script(n)), lo, now, script, n + 1);
      (s', [s.queue[0]] + fired)
  }

  /** The due timers that fire: each unless a callback before it cancels it. */
  function Live(d: seq<Id>, script: nat -> seq<Action>, n: nat): seq<Id>
    decreases |d|
  {
    if d == [] then [] else [d[0]] + Live(Without(d[1..], Cancels(script(n))), script, n + 1)
  }

  /** The tick fires the due timers in order, each unless cancelled before its turn; it ends with none due. */
  lemma {:induction false} TickFires(s: State, lo: int, now: int, script: nat -> seq<Action>, n: nat)
    requires Ready(s, lo, now) && TickOk(s, lo, now, script, n)
    ensures var (s', fired) := Loop(s, lo, now, script, n);
            && fired == Live(DueOf(s.queue, s.due, now), script, n)
            && Ready(s', lo, now) && s'.timers.Keys == s.timers.Keys
            && DueOf(s'.queue, s'.due, now) == []
            && (s'.queue != [] ==> s'.due[s'.queue[0]] > now)
    decreases |DueOf(s.queue, s.due, now)|
  {
    QueueMembers(s, lo);
    HeadDue(s, lo, now);
    hide QueueOk, PeriodsOk, LegalFire, Fire;
    if IsDue(s, now) {
      FireKeeps(s, lo, now, script(n));
      TickFires(Fire(s, lo, now, script(n)), lo, now, script, n + 1);
    }
  }

  // ---- which timers fire ----

  /** `a` comes before `b` in `q`, which has no duplicates. */
  predicate Before(q: seq<Id>, a: Id, b: Id) {
    q != [] && if q[0] == a then b in q[1..] else Before(q[1..], a, b)
  }

  lemma {:induction false} BeforeMembers(q: seq<Id>, a: Id, b: Id)
    requires Before(q, a, b)
    ensures a in q && b in q
  {
    if q[0] != a {
      BeforeMembers(q[1..], a, b);
    }
  }

  lemma {:induction false} WithoutOrder(q: seq<Id>, gone: set<Id>, a: Id, b: Id)
    requires NoDup(q) && a !in gone && b !in gone
    ensures Before(Without(q, gone), a, b) <==> Before(q, a, b)
  {
    if q != [] {
      assert NoDup(q[1..]);
      hide NoDup;
      WithoutOrder(q[1..], gone, a, b);
      if q[0] !in gone {
        assert Without(q, gone)[1..] == Without(q[1..], gone);
      }
    }
  }

  lemma {:induction false} WithoutNoDup(q: seq<Id>, gone: set<Id>)
    requires NoDup(q)
    ensures NoDup(Without(q, gone))
  {
    if q != [] {
      WithoutNoDup(q[1..], gone);
      var w := Without(q[1..], gone);
      assert forall i :: 0 <= i < |w| ==> w[i] in w;
      assert q[0] !in w;
    }
  }

  lemma {:induction false} LiveMembers(d: seq<Id>, script: nat -> seq<Action>, n: nat)
    requires NoDup(d)
    ensures forall x :: x in Live(d, script, n) ==> x in d
    ensures NoDup(Live(d, script, n))
    decreases |d|
  {
    if d != [] {
      WithoutNoDup(d[1..], Cancels(script(n)));
      LiveMembers(Without(d[1..], Cancels(script(n))), script, n + 1);
      var rest := Live(Without(d[1..], Cancels(script(n))), script, n + 1);
      assert forall i :: 0 <= i < |rest| ==> rest[i] in rest;
      assert d[0] !in rest;
    }
  }

  /** No callback that ran before `x`'s turn cancelled it. */
  ghost predicate NotCancelled(d: seq<Id>, fired: seq<Id>, script: nat -> seq<Action>, n: nat, x: Id) {
    forall k :: 0 <= k < |fired| && Before(d, fired[k], x) ==> x !in Cancels(script(n + k))
  }

  /** Of the due timers exactly those fire that no earlier callback cancelled, each once. */
  lemma {:induction false} LiveIff(d: seq<Id>, script: nat -> seq<Action>, n: nat, x: Id)
    requires NoDup(d)
    ensures NoDup(Live(d, script, n))
    ensures x in Live(d, script, n) <==> x in d && NotCancelled(d, Live(d, script, n), script, n, x)
    decreases |d|
  {
    LiveMembers(d, script, n);
    if d != [] {
      var gone := Cancels(script(n));
      var w := Without(d[1..], gone);
      WithoutNoDup(d[1..], gone);
      LiveIff(w, script, n + 1, x);
      LiveMembers(w, script, n + 1);
      LiveStep(d, script, n, x);
    }
  }

  lemma LiveStep(d: seq<Id>, script: nat -> seq<Action>, n: nat, x: Id)
    requires NoDup(d) && d != []
    requires var w := Without(d[1..], Cancels(script(n)));
             var rest := Live(w, script, n + 1);
             && (forall y :: y in rest ==> y in w)
             && (x in rest <==> x in w && NotCancelled(w, rest, script, n + 1, x))
    ensures x in Live(d, script, n) <==> x in d && NotCancelled(d, Live(d, script, n), script, n, x)
  {
    var gone := Cancels(script(n));
    var w := Without(d[1..], gone);
    var rest := Live(w, script, n + 1);
    var fired := Live(d, script, n);
    assert fired == [d[0]] + rest;
    assert forall y :: y in fired <==> y == d[0] || y in rest;
    assert forall y :: y in d <==> y == d[0] || y in d[1..];
    hide *;
    if x == d[0] {
      FirstFires(d, fired, script, n);
    } else if x in gone {
      FirstCancels(d, fired, script, n, x);
    } else {
      OrderKept(d, w, rest, gone, x);
      SplitRange(d, w, rest, fired, script, n, x);
    }
  }

  lemma FirstCancels(d: seq<Id>, fired: seq<Id>, script: nat -> seq<Action>, n: nat, x: Id)
    requires d != [] && fired != [] && fired[0] == d[0] && x != d[0] && x in Cancels(script(n))
    ensures x in d ==> !NotCancelled(d, fired, script, n, x)
  {
    if x in d {
      assert x in d[1..];
      assert Before(d, fired[0], x) && n + 0 == n;
    }
  }

  lemma OrderKept(d: seq<Id>, w: seq<Id>, rest: seq<Id>, gone: set<Id>, x: Id)
    requires NoDup(d) && d != [] && w == Without(d[1..], gone) && x != d[0] && x !in gone
    requires forall y :: y in rest ==> y in w
    ensures forall k :: 0 <= k < |rest| ==> (Before(d, rest[k], x) <==> Before(w, rest[k], x))
  {
    forall k | 0 <= k < |rest|
      ensures Before(d, rest[k], x) <==> Before(w, rest[k], x)
    {
      assert rest[k] in rest && rest[k] in w && rest[k] != d[0];
      WithoutOrder(d[1..], gone, rest[k], x);
    }
  }

  lemma FirstFires(d: seq<Id>, fired: seq<Id>, script: nat -> seq<Action>, n: nat)
    requires NoDup(d) && d != []
    ensures NotCancelled(d, fired, script, n, d[0])
  {
    forall y | Before(d, y, d[0])
      ensures false
    {
      if y != d[0] {
        BeforeMembers(d[1..], y, d[0]);
      }
    }
  }

  lemma SplitRange(d: seq<Id>, w: seq<Id>, rest: seq<Id>, fired: seq<Id>, script: nat -> seq<Action>, n: nat, x: Id)
    requires d != [] && fired == [d[0]] + rest && x !in Cancels(script(n))
    requires forall k :: 0 <= k < |rest| ==> (Before(d, rest[k], x) <==> Before(w, rest[k], x))
    ensures NotCancelled(d, fired, script, n, x) <==> NotCancelled(w, rest, script, n + 1, x)
  {
    if NotCancelled(w, rest, script, n + 1, x) {
      forall k | 0 <= k < |fired| && Before(d, fired[k], x)
        ensures x !in Cancels(script(n + k))
      {
        if k > 0 {
          assert fired[k] == rest[k - 1] && n + 1 + (k - 1) == n + k;
        }
      }
    }
    if NotCancelled(d, fired, script, n, x) {
      forall k | 0 <= k < |rest| && Before(w, rest[k], x)
        ensures x !in Cancels(script(n + 1 + k))
      {
        assert fired[k + 1] == rest[k] && n + (k + 1) == n + 1 + k;
      }
    }
  }

  // ---- what happens to periodic timers ----

  lemma {:induction false} Unmentioned(s: State, lo: int, now: int, acts: seq<Action>, t: Id)
    requires QueueOk(s, lo) && InWindow(lo, now) && PeriodsOk(s, lo, now) && LegalActs(s, lo, now, acts)
    requires t in s.timers && t !in Mentions(acts)
    ensures var s' := RunActs(s, lo, now, acts);
            && QueueOk(s', lo) && t in s'.timers && s'.timers[t] == s.timers[t] && s'.due[t] == s.due[t]
            && (t in s'.queue <==> t in s.queue)
    decreases |acts|
  {
    if acts != [] {
      ActKeeps(s, lo, now, acts[0]);
      CancelsFirst(acts);
      UnmentionedByOne(s, lo, now, acts[0], t);
      hide QueueOk, Act, LegalAct;
      Unmentioned(Act(s, lo, now, acts[0]), lo, now, acts[1..], t);
    }
  }

  lemma UnmentionedByOne(s: State, lo: int, now: int, a: Action, t: Id)
    requires QueueOk(s, lo) && LegalAct(s, lo, now, a) && t in s.timers && t != a.t
    ensures var s' := Act(s, lo, now, a);
            && t in s'.timers && s'.timers[t] == s.timers[t] && s'.due[t] == s.due[t]
            && (t in s'.queue <==> t in s.queue)
  {
    if a.Cancel? {
      CancelIs(s, a.t, a.at);
    } else {
      SetMembers(s, lo, a.t, a.at, if a.SetOneshot? then AtLeastOne(a.delay) else AtLeastOne(a.period),
                 if a.SetOneshot? then 0 else AtLeastOne(a.period));
    }
  }

  lemma SetMembers(s: State, lo: int, t: Id, at: int, delay: int, period: int)
    requires QueueOk(s, lo) && InWindow(lo, at) && InWindow(lo, at + delay) && t in s.timers && t !in s.queue
    requires delay >= 0 && period >= 0
    ensures forall u :: u in SetTimer(s, t, at, delay, period).queue <==> u in s.queue || u == t
  {
    SetTimerKeeps(s, lo, t, at, delay, period);
    var p :| 0 <= p <= |s.queue| && SetTimer(s, t, at, delay, period).queue == InsertAt(s.queue, p, t);
    InsertAtIndex(s.queue, p, t);
  }

  /** `t` is queued for `due`. */
  ghost predicate QueuedFor(s: State, t: Id, due: int) {
    t in s.queue && t in s.due && s.due[t] == due
  }

  /** A timer that no callback touches keeps its place in the queue until it is due. */
  lemma FireLeaves(s: State, lo: int, now: int, acts: seq<Action>, t: Id)
    requires Ready(s, lo, now) && IsDue(s, now) && LegalFire(s, lo, now, acts)
    requires t in s.queue && t != s.queue[0] && t !in Mentions(acts)
    ensures var s' := Fire(s, lo, now, acts);
            t in s'.timers && s'.timers[t] == s.timers[t] && t in s'.due && QueuedFor(s', t, s.due[t])
  {
    var h := s.queue[0];
    PoppedOk(s, lo, now);
    RunActsKeeps(Popped(s), lo, now, acts);
    RunActsCallbacks(Popped(s), lo, now, acts);
    Unmentioned(Popped(s), lo, now, acts, t);
    var s1 := RunActs(Popped(s), lo, now, acts);
    hide QueueOk, LegalActs, RunActs, Requeued;
    if s.timers[h].periodic > 0 && h !in s1.queue && s1.timers[h].periodic > 0 {
      RequeuedKeeps(s1, lo, h, now);
    }
  }

  /** A periodic timer whose callback does not touch it is queued again, one period on. */
  lemma FireRequeues(s: State, lo: int, now: int, acts: seq<Action>)
    requires Ready(s, lo, now) && IsDue(s, now) && LegalFire(s, lo, now, acts)
    requires s.queue[0] in s.timers && s.timers[s.queue[0]].periodic > 0 && s.queue[0] !in Mentions(acts)
    ensures QueuedFor(Fire(s, lo, now, acts), s.queue[0], now + s.timers[s.queue[0]].periodic)
  {
    var h := s.queue[0];
    PoppedOk(s, lo, now);
    RunActsKeeps(Popped(s), lo, now, acts);
    RunActsCallbacks(Popped(s), lo, now, acts);
    Unmentioned(Popped(s), lo, now, acts, h);
    var s1 := RunActs(Popped(s), lo, now, acts);
    hide QueueOk, LegalActs, RunActs, Requeued;
    RequeuedKeeps(s1, lo, h, now);
  }

  ghost predicate NeverMentioned(script: nat -> seq<Action>, from: nat, to: nat, t: Id) {
    forall k :: from <= k < to ==> t !in Mentions(script(k))
  }

  lemma NeverNext(script: nat -> seq<Action>, from: nat, to: nat, t: Id)
    requires NeverMentioned(script, from, to, t) && from < to
    ensures t !in Mentions(script(from)) && NeverMentioned(script, from + 1, to, t)
  {
  }

  /** One turn of the loop. */
  lemma LoopStep(s: State, lo: int, now: int, script: nat -> seq<Action>, n: nat)
    requires Ready(s, lo, now) && TickOk(s, lo, now, script, n) && IsDue(s, now)
    ensures LegalFire(s, lo, now, script(n))
    ensures var s1 := Fire(s, lo, now, script(n));
            && Ready(s1, lo, now) && TickOk(s1, lo, now, script, n + 1) && s.queue != []
            && |DueOf(s1.queue, s1.due, now)| < |DueOf(s.queue, s.due, now)|
            && Loop(s, lo, now, script, n).0 == Loop(s1, lo, now, script, n + 1).0
            && Loop(s, lo, now, script, n).1 == [s.queue[0]] + Loop(s1, lo, now, script, n + 1).1
  {
    hide QueueOk, PeriodsOk, LegalFire, Fire;
    FireKeeps(s, lo, now, script(n));
  }

  lemma {:induction false} StaysQueued(s: State, lo: int, now: int, script: nat -> seq<Action>, n: nat, t: Id)
    requires Ready(s, lo, now) && TickOk(s, lo, now, script, n)
    requires t in s.queue && t in s.due && s.due[t] > now
    requires NeverMentioned(script, n, n + |Loop(s, lo, now, script, n).1|, t)
    ensures QueuedFor(Loop(s, lo, now, script, n).0, t, s.due[t])
    decreases |DueOf(s.queue, s.due, now)|
  {
    hide *;
    ReadyFacts(s, lo, now);
    if IsDue(s, now) {
      LoopStep(s, lo, now, script, n);
      var s1 := Fire(s, lo, now, script(n));
      HeadOf(s, lo, now);
      NeverNext(script, n, n + |Loop(s, lo, now, script, n).1|, t);
      FireLeaves(s, lo, now, script(n), t);
      QueuedForIs(s1, t, s.due[t]);
      StaysQueued(s1, lo, now, script, n + 1, t);
    } else {
      LoopEnd(s, lo, now, script, n, t);
    }
  }

  lemma ReadyFacts(s: State, lo: int, now: int)
    requires Ready(s, lo, now)
    ensures QueueOk(s, lo) && InWindow(lo, now) && PeriodsOk(s, lo, now)
    ensures forall t :: t in s.queue ==> t in s.timers && t in s.due
  {
  }

  lemma HeadOf(s: State, lo: int, now: int)
    requires Ready(s, lo, now) && IsDue(s, now)
    ensures s.queue != [] && s.queue[0] in s.due && s.due[s.queue[0]] <= now && s.queue[0] in s.timers
  {
    HeadDue(s, lo, now);
    assert s.queue[0] in s.queue;
  }

  lemma QueuedForIs(s: State, t: Id, due: int)
    requires QueuedFor(s, t, due)
    ensures t in s.queue && t in s.due && s.due[t] == due
  {
  }

  lemma LoopEnd(s: State, lo: int, now: int, script: nat -> seq<Action>, n: nat, t: Id)
    requires Ready(s, lo, now) && TickOk(s, lo, now, script, n) && !IsDue(s, now)
    ensures Loop(s, lo, now, script, n) == (s, [])
    ensures t in s.queue && t in s.due ==> QueuedFor(s, t, s.due[t])
  {
  }

  lemma {:induction false} DueOfNoDup(q: seq<Id>, due: map<Id, int>, now: int)
    requires NoDup(q) && forall t :: t in q ==> t in due
    ensures NoDup(DueOf(q, due, now))
  {
    if q != [] {
      assert forall t :: t in q[1..] ==> t in q;
      DueOfNoDup(q[1..], due, now);
      var d := DueOf(q[1..], due, now);
      assert forall i :: 0 <= i < |d| ==> d[i] in d;
      assert q[0] !in d;
    }
  }

  /** No timer fires twice in a tick. */
  lemma FiredOnce(s: State, lo: int, now: int, script: nat -> seq<Action>, n: nat)
    requires Ready(s, lo, now) && TickOk(s, lo, now, script, n)
    ensures NoDup(Loop(s, lo, now, script, n).1)
  {
    TickFires(s, lo, now, script, n);
    DueOfNoDup(s.queue, s.due, now);
    LiveMembers(DueOf(s.queue, s.due, now), script, n);
  }

  /** A callback can only set a queued timer after cancelling it. */
  lemma {:induction false} QueuedUnmentioned(s: State, lo: int, now: int, acts: seq<Action>, t: Id)
    requires QueueOk(s, lo) && InWindow(lo, now) && PeriodsOk(s, lo, now) && LegalActs(s, lo, now, acts)
    requires t in s.queue && t !in Cancels(acts)
    ensures t !in Mentions(acts)
    decreases |acts|
  {
    if acts != [] {
      ActKeeps(s, lo, now, acts[0]);
      CancelsFirst(acts);
      assert t != acts[0].t;
      UnmentionedByOne(s, lo, now, acts[0], t);
      hide QueueOk, Act, LegalAct;
      QueuedUnmentioned(Act(s, lo, now, acts[0]), lo, now, acts[1..], t);
    }
  }

  lemma FiredAreDue(s: State, lo: int, now: int, script: nat -> seq<Action>, n: nat, i: nat)
    requires Ready(s, lo, now) && TickOk(s, lo, now, script, n) && i < |Loop(s, lo, now, script, n).1|
    ensures var t := Loop(s, lo, now, script, n).1[i];
            t in s.queue && t in s.due && s.due[t] <= now
  {
    QueueMembers(s, lo);
    TickFires(s, lo, now, script, n);
    DueOfNoDup(s.queue, s.due, now);
    LiveMembers(DueOf(s.queue, s.due, now), script, n);
    assert Loop(s, lo, now, script, n).1[i] in Live(DueOf(s.queue, s.due, now), script, n);
  }

  lemma LaterUnmentioned(s: State, lo: int, now: int, acts: seq<Action>, t: Id)
    requires Ready(s, lo, now) && IsDue(s, now) && LegalFire(s, lo, now, acts)
    requires var s' := Fire(s, lo, now, acts);
             t in s'.queue && t in s'.due && s'.due[t] <= now
    ensures t in s.queue && t != s.queue[0] && t !in Mentions(acts)
  {
    HeadDue(s, lo, now);
    FireKeeps(s, lo, now, acts);
    QueueMembers(Fire(s, lo, now, acts), lo);
    PoppedOk(s, lo, now);
    var d := DueOf(s.queue, s.due, now);
    assert t in DueOf(Fire(s, lo, now, acts).queue, Fire(s, lo, now, acts).due, now);
    assert t in Without(d[1..], Cancels(acts));
    assert d[1..] == DueOf(s.queue[1..], s.due, now);
    QueuedUnmentioned(Popped(s), lo, now, acts, t);
  }

  /** After the tick a periodic timer that fired, and that no callback from its own on touched, is due one period on. */
  lemma {:induction false} PeriodicRequeued(s: State, lo: int, now: int, script: nat -> seq<Action>, n: nat, i: nat)
    requires Ready(s, lo, now) && TickOk(s, lo, now, script, n)
    requires var fired := Loop(s, lo, now, script, n).1;
             && i < |fired| && fired[i] in s.queue && fired[i] in s.timers && s.timers[fired[i]].periodic > 0
             && NeverMentioned(script, n + i, n + |fired|, fired[i])
    ensures var (s', fired) := Loop(s, lo, now, script, n);
            QueuedFor(s', fired[i], now + s.timers[fired[i]].periodic)
    decreases |DueOf(s.queue, s.due, now)|
  {
    hide *;
    ReadyFacts(s, lo, now);
    var t := Loop(s, lo, now, script, n).1[i];
    var m := n + |Loop(s, lo, now, script, n).1|;
    SomethingFired(s, lo, now, script, n);
    LoopStep(s, lo, now, script, n);
    HeadOf(s, lo, now);
    var s1 := Fire(s, lo, now, script(n));
    if i == 0 {
      NeverNext(script, n, m, t);
      FireRequeues(s, lo, now, script(n));
      QueuedForIs(s1, t, now + s.timers[t].periodic);
      PeriodAfter(s, lo, now, t);
      StaysQueued(s1, lo, now, script, n + 1, t);
    } else {
      FiredAreDue(s1, lo, now, script, n + 1, i - 1);
      LaterUnmentioned(s, lo, now, script(n), t);
      FireLeaves(s, lo, now, script(n), t);
      PeriodicRequeued(s1, lo, now, script, n + 1, i - 1);
    }
  }

  lemma SomethingFired(s: State, lo: int, now: int, script: nat -> seq<Action>, n: nat)
    requires Ready(s, lo, now) && TickOk(s, lo, now, script, n) && Loop(s, lo, now, script, n).1 != []
    ensures IsDue(s, now)
  {
  }

  lemma PeriodAfter(s: State, lo: int, now: int, t: Id)
    requires Ready(s, lo, now) && t in s.timers && s.timers[t].periodic > 0
    ensures now + s.timers[t].periodic > now
  {
  }

  lemma FirstOf(s: State, lo: int, now: int, acts: seq<Action>)
    requires QueueOk(s, lo) && InWindow(lo, now) && PeriodsOk(s, lo, now) && LegalActs(s, lo, now, acts)
    requires acts != []
    ensures LegalAct(s, lo, now, acts[0])
    ensures var s1 := Act(s, lo, now, acts[0]);
            && QueueOk(s1, lo) && PeriodsOk(s1, lo, now) && LegalActs(s1, lo, now, acts[1..])
            && RunActs(s, lo, now, acts) == RunActs(s1, lo, now, acts[1..])
            && RunActs(s1, lo, now, []) == s1
  {
    hide QueueOk, Act, LegalAct;
    ActKeeps(s, lo, now, acts[0]);
  }

  /** `t` is neither queued nor periodic. */
  ghost predicate Idle(s: State, t: Id) {
    t !in s.queue && t in s.timers && s.timers[t].periodic == 0
  }

  lemma CancelIdles(s: State, lo: int, now: int, a: Action)
    requires QueueOk(s, lo) && LegalAct(s, lo, now, a) && a.Cancel?
    ensures Idle(Act(s, lo, now, a), a.t)
  {
    CancelIs(s, a.t, a.at);
  }

  /** The timers that `acts` set. */
  function Sets(acts: seq<Action>): set<Id> {
    set a | a in acts && !a.Cancel? :: a.t
  }

  lemma IdleAfterAct(s: State, lo: int, now: int, a: Action, t: Id)
    requires QueueOk(s, lo) && LegalAct(s, lo, now, a) && Idle(s, t) && (a.Cancel? || a.t != t)
    ensures Idle(Act(s, lo, now, a), t)
  {
    if a.t == t {
      CancelIdles(s, lo, now, a);
    } else {
      UnmentionedByOne(s, lo, now, a, t);
    }
  }

  /** An idle timer stays idle until it is set. */
  lemma {:induction false} IdleAfterActs(s: State, lo: int, now: int, acts: seq<Action>, t: Id)
    requires QueueOk(s, lo) && InWindow(lo, now) && PeriodsOk(s, lo, now) && LegalActs(s, lo, now, acts)
    requires Idle(s, t) && t !in Sets(acts)
    ensures Idle(RunActs(s, lo, now, acts), t)
    decreases |acts|
  {
    if acts != [] {
      SetsFirst(acts);
      hide *;
      FirstOf(s, lo, now, acts);
      IdleAfterAct(s, lo, now, acts[0], t);
      IdleAfterActs(Act(s, lo, now, acts[0]), lo, now, acts[1..], t);
    }
  }

  lemma SetsFirst(acts: seq<Action>)
    requires acts != []
    ensures Sets(acts) == Sets(acts[1..]) + if acts[0].Cancel? then {} else {acts[0].t}
  {
    assert acts == [acts[0]] + acts[1..];
  }

  /** A timer that a callback cancels, and does not set afterwards, is idle when the callback ends. */
  lemma {:induction false} CancelledByActs(s: State, lo: int, now: int, acts: seq<Action>, j: nat)
    requires QueueOk(s, lo) && InWindow(lo, now) && PeriodsOk(s, lo, now) && LegalActs(s, lo, now, acts)
    requires j < |acts| && acts[j].Cancel? && acts[j].t !in Sets(acts[j + 1..])
    ensures Idle(RunActs(s, lo, now, acts), acts[j].t)
    decreases |acts|
  {
    hide *;
    FirstOf(s, lo, now, acts);
    var s1 := Act(s, lo, now, acts[0]);
    if j == 0 {
      CancelIdles(s, lo, now, acts[0]);
      IdleAfterActs(s1, lo, now, acts[1..], acts[0].t);
    } else {
      assert acts[1..][j - 1 + 1..] == acts[j + 1..];
      CancelledByActs(s1, lo, now, acts[1..], j - 1);
    }
  }

  /** One turn of the loop from the state that the callback leaves: an idle timer is not requeued. */
  lemma IdleAfterFire(s: State, lo: int, now: int, acts: seq<Action>, t: Id)
    requires Ready(s, lo, now) && IsDue(s, now) && LegalFire(s, lo, now, acts)
    requires QueueOk(Popped(s), lo) && PeriodsOk(Popped(s), lo, now) && LegalActs(Popped(s), lo, now, acts)
    requires Idle(RunActs(Popped(s), lo, now, acts), t)
    ensures Idle(Fire(s, lo, now, acts), t)
  {
    var h := s.queue[0];
    PoppedOk(s, lo, now);
    RunActsKeeps(Popped(s), lo, now, acts);
    RunActsCallbacks(Popped(s), lo, now, acts);
    var s1 := RunActs(Popped(s), lo, now, acts);
    hide QueueOk, LegalActs, RunActs, Requeued;
    if s.timers[h].periodic > 0 && h !in s1.queue && s1.timers[h].periodic > 0 {
      RequeuedKeeps(s1, lo, h, now);
    }
  }

  /** A timer that a callback cancels last, its own callback or another, is idle after that turn of the loop. */
  lemma CancelledByFire(s: State, lo: int, now: int, acts: seq<Action>, j: nat)
    requires Ready(s, lo, now) && IsDue(s, now) && LegalFire(s, lo, now, acts)
    requires j < |acts| && acts[j].Cancel? && acts[j].t !in Sets(acts[j + 1..])
    ensures Idle(Fire(s, lo, now, acts), acts[j].t)
  {
    PoppedOk(s, lo, now);
    CancelledByActs(Popped(s), lo, now, acts, j);
    IdleAfterFire(s, lo, now, acts, acts[j].t);
  }

  lemma IdleThroughFire(s: State, lo: int, now: int, acts: seq<Action>, t: Id)
    requires Ready(s, lo, now) && IsDue(s, now) && LegalFire(s, lo, now, acts)
    requires Idle(s, t) && t !in Sets(acts)
    ensures Idle(Fire(s, lo, now, acts), t)
  {
    PoppedOk(s, lo, now);
    assert Idle(Popped(s), t);
    IdleAfterActs(Popped(s), lo, now, acts, t);
    IdleAfterFire(s, lo, now, acts, t);
  }

  ghost predicate NeverSet(script: nat -> seq<Action>, from: nat, to: nat, t: Id) {
    forall k :: from <= k < to ==> t !in Sets(script(k))
  }

  lemma NeverSetNext(script: nat -> seq<Action>, from: nat, to: nat, t: Id)
    requires NeverSet(script, from, to, t) && from < to
    ensures t !in Sets(script(from)) && NeverSet(script, from + 1, to, t)
  {
  }

  lemma IdleIs(s: State, t: Id)
    requires Idle(s, t)
    ensures t !in s.queue
  {
  }

  /** An idle timer that no callback sets is idle when the tick ends, and does not fire. */
  lemma {:induction false} IdleThroughTick(s: State, lo: int, now: int, script: nat -> seq<Action>, n: nat, t: Id)
    requires Ready(s, lo, now) && TickOk(s, lo, now, script, n) && Idle(s, t)
    requires NeverSet(script, n, n + |Loop(s, lo, now, script, n).1|, t)
    ensures Idle(Loop(s, lo, now, script, n).0, t) && t !in Loop(s, lo, now, script, n).1
    decreases |DueOf(s.queue, s.due, now)|
  {
    hide *;
    ReadyFacts(s, lo, now);
    if IsDue(s, now) {
      LoopStep(s, lo, now, script, n);
      HeadOf(s, lo, now);
      IdleIs(s, t);
      NeverSetNext(script, n, n + |Loop(s, lo, now, script, n).1|, t);
      IdleThroughFire(s, lo, now, script(n), t);
      IdleThroughTick(Fire(s, lo, now, script(n)), lo, now, script, n + 1, t);
    } else {
      LoopEnd(s, lo, now, script, n, t);
    }
  }

  /**
   * A timer that the `k`-th callback of the tick cancels, and that nothing sets afterwards, fires
   * no more in this tick and is idle when it ends; the callback may be its own.
   */
  lemma {:induction false} CancelledInTick(s: State, lo: int, now: int, script: nat -> seq<Action>, n: nat, k: nat, j: nat)
    requires Ready(s, lo, now) && TickOk(s, lo, now, script, n) && k < |Loop(s, lo, now, script, n).1|
    requires j < |script(n + k)| && script(n + k)[j].Cancel?
    requires script(n + k)[j].t !in Sets(script(n + k)[j + 1..])
    requires NeverSet(script, n + k + 1, n + |Loop(s, lo, now, script, n).1|, script(n + k)[j].t)
    ensures var t := script(n + k)[j].t;
            Idle(Loop(s, lo, now, script, n).0, t) && t !in Loop(s, lo, now, script, n).1[k + 1..]
    decreases |DueOf(s.queue, s.due, now)|
  {
    hide *;
    ReadyFacts(s, lo, now);
    SomethingFired(s, lo, now, script, n);
    LoopStep(s, lo, now, script, n);
    var s1 := Fire(s, lo, now, script(n));
    if k == 0 {
      CancelledByFire(s, lo, now, script(n), j);
      IdleThroughTick(s1, lo, now, script, n + 1, script(n)[j].t);
    } else {
      assert n + k == n + 1 + (k - 1);
      CancelledInTick(s1, lo, now, script, n + 1, k - 1, j);
    }
  }

  // ---- timers that a callback sets, and timers that are done ----

  function Max(a: int, b: int): int { if a < b then b else a }

  /** What one action of a callback does to its timer. */
  lemma ActOutcome(s: State, lo: int, now: int, a: Action)
    requires QueueOk(s, lo) && LegalAct(s, lo, now, a)
    ensures var s' := Act(s, lo, now, a);
            && a.t in s'.timers
            && (a.SetOneshot? ==> QueuedFor(s', a.t, a.at + Max(a.delay, 1)) && s'.timers[a.t].periodic == 0)
            && (a.SetPeriodic? ==> QueuedFor(s', a.t, a.at + Max(a.period, 1)) && s'.timers[a.t].periodic == Max(a.period, 1))
            && (a.Cancel? ==> Idle(s', a.t))
  {
    if a.Cancel? {
      CancelIdles(s, lo, now, a);
    } else {
      var delay := Max(if a.SetOneshot? then a.delay else a.period, 1);
      var period := if a.SetOneshot? then 0 else delay;
      SetTimerKeeps(s, lo, a.t, a.at, delay, period);
      SetMembers(s, lo, a.t, a.at, delay, period);
      SetOutcome(s, lo, a.t, a.at, delay, period);
    }
  }

  /** The time for which an action sets its timer. */
  function SetFor(a: Action): int {
    match a
    case SetOneshot(_, at, delay) => at + Max(delay, 1)
    case SetPeriodic(_, at, period) => at + Max(period, 1)
    case Cancel(_, at) => at
  }

  /** A timer that a callback sets, and does not mention afterwards, is queued for that time when the callback ends. */
  lemma {:induction false} SetByActs(s: State, lo: int, now: int, acts: seq<Action>, j: nat)
    requires QueueOk(s, lo) && InWindow(lo, now) && PeriodsOk(s, lo, now) && LegalActs(s, lo, now, acts)
    requires j < |acts| && !acts[j].Cancel? && acts[j].t !in Mentions(acts[j + 1..])
    ensures QueuedFor(RunActs(s, lo, now, acts), acts[j].t, SetFor(acts[j]))
    decreases |acts|
  {
    FirstOf(s, lo, now, acts);
    var s1 := Act(s, lo, now, acts[0]);
    hide QueueOk, Act, LegalAct, LegalActs, RunActs;
    if j == 0 {
      ActOutcome(s, lo, now, acts[0]);
      Unmentioned(s1, lo, now, acts[1..], acts[0].t);
      DueKept(s1, lo, now, acts[1..]);
    } else {
      assert acts[1..][j - 1 + 1..] == acts[j + 1..];
      SetByActs(s1, lo, now, acts[1..], j - 1);
    }
  }

  lemma DueKept(s: State, lo: int, now: int, acts: seq<Action>)
    requires QueueOk(s, lo) && InWindow(lo, now) && PeriodsOk(s, lo, now) && LegalActs(s, lo, now, acts)
    ensures RunActs(s, lo, now, acts).due.Keys == RunActs(s, lo, now, acts).timers.Keys == s.timers.Keys
  {
    RunActsKeeps(s, lo, now, acts);
  }

  /** It stays so, also the timer whose callback it is: a timer set by its own callback is not requeued. */
  lemma SetByFire(s: State, lo: int, now: int, acts: seq<Action>, j: nat)
    requires Ready(s, lo, now) && IsDue(s, now) && LegalFire(s, lo, now, acts)
    requires j < |acts| && !acts[j].Cancel? && acts[j].t !in Mentions(acts[j + 1..])
    ensures QueuedFor(Fire(s, lo, now, acts), acts[j].t, SetFor(acts[j]))
  {
    var h := s.queue[0];
    PoppedOk(s, lo, now);
    SetByActs(Popped(s), lo, now, acts, j);
    RunActsKeeps(Popped(s), lo, now, acts);
    RunActsCallbacks(Popped(s), lo, now, acts);
    var s1 := RunActs(Popped(s), lo, now, acts);
    hide QueueOk, LegalActs, RunActs, Requeued;
    if s.timers[h].periodic > 0 && h !in s1.queue && s1.timers[h].periodic > 0 {
      RequeuedKeeps(s1, lo, h, now);
    }
  }

  /** A one-shot timer that fires, and that no callback from its own on sets, is idle when the tick ends. */
  lemma {:induction false} OneshotDone(s: State, lo: int, now: int, script: nat -> seq<Action>, n: nat, i: nat)
    requires Ready(s, lo, now) && TickOk(s, lo, now, script, n)
    requires var fired := Loop(s, lo, now, script, n).1;
             && i < |fired| && fired[i] in s.queue && fired[i] in s.timers && s.timers[fired[i]].periodic == 0
             && NeverSet(script, n + i, n + |fired|, fired[i])
    ensures Idle(Loop(s, lo, now, script, n).0, Loop(s, lo, now, script, n).1[i])
    decreases |DueOf(s.queue, s.due, now)|
  {
    hide *;
    ReadyFacts(s, lo, now);
    var t := Loop(s, lo, now, script, n).1[i];
    var m := n + |Loop(s, lo, now, script, n).1|;
    SomethingFired(s, lo, now, script, n);
    LoopStep(s, lo, now, script, n);
    HeadOf(s, lo, now);
    var s1 := Fire(s, lo, now, script(n));
    if i == 0 {
      NeverSetNext(script, n, m, t);
      HeadDone(s, lo, now, script(n));
      IdleThroughTick(s1, lo, now, script, n + 1, t);
    } else {
      FiredAreDue(s1, lo, now, script, n + 1, i - 1);
      LaterUnmentioned(s, lo, now, script(n), t);
      FireLeaves(s, lo, now, script(n), t);
      OneshotDone(s1, lo, now, script, n + 1, i - 1);
    }
  }

  lemma HeadDone(s: State, lo: int, now: int, acts: seq<Action>)
    requires Ready(s, lo, now) && IsDue(s, now) && LegalFire(s, lo, now, acts)
    requires s.queue[0] in s.timers && s.timers[s.queue[0]].periodic == 0 && s.queue[0] !in Sets(acts)
    ensures Idle(Fire(s, lo, now, acts), s.queue[0])
  {
    PoppedOk(s, lo, now);
    assert Idle(Popped(s), s.queue[0]);
    IdleAfterActs(Popped(s), lo, now, acts, s.queue[0]);
    IdleAfterFire(s, lo, now, acts, s.queue[0]);
  }

  // ---- the hardware timer after the tick ----

  /** The end of timer_tick, at time `end`: the hardware is set relative to `now`. */
  ghost function Rearmed(s: State, now: int, end: int): State
    requires forall t :: t in s.queue ==> t in s.timers
  {
    if s.queue == [] then s else s.(hw := Armed(end + (s.timers[s.queue[0]].scheduled - now % WRAP) % WRAP, end))
  }

  /**
   * The hardware fires late by the time that the callbacks took; it is set exactly for
   * the head, as outside the tick, iff they took none.
   */
  lemma RearmedIff(s: State, lo: int, now: int, end: int)
    requires Ready(s, lo, now) && now <= end && DueOf(s.queue, s.due, now) == []
    ensures QueueOk(Rearmed(s, now, end), lo)
    ensures s.queue != [] ==> Rearmed(s, now, end).hw == Armed(s.due[s.queue[0]] + (end - now), end)
    ensures HardwareOk(Rearmed(s, now, end)) <==> s.queue == [] || end == now
    ensures Rearmed(s, now, end).(hw := s.hw) == s && (s.queue == [] ==> Rearmed(s, now, end) == s)
  {
    HeadDue(s, lo, now);
    if s.queue != [] {
      assert s.queue[0] in s.queue;
      ModDiff(s.due[s.queue[0]], now);
      SmallMod(s.due[s.queue[0]] - now);
    }
  }
}

/**
 * The timer queue of kernel/timer.c as a value.  Times are 32-bit and wrap; `due` holds
 * the unbounded time that each scheduled time stands for.
 */
module Timers {
  import opened Basics

  type Id = nat

  const WRAP: int := 0x1_0000_0000
  const HALF: int := 0x8000_0000

  datatype Timer = Timer(scheduled: int, periodic: int, callback: bool)

  /** The hardware one-shot timer: when it fires, and when it was set. */
  datatype Hardware = Stopped | Armed(deadline: int, at: int)

  datatype State = State(queue: seq<Id>, timers: map<Id, Timer>, due: map<Id, int>, hw: Hardware)

  // ---- comparing times ----

  /** (int32_t)(a - b) */
  function Diff(a: int, b: int): int {
    var d := (a - b) % WRAP;
    if d >= HALF then d - WRAP else d
  }

  predicate TimeGt(a: int, b: int) {
    Diff(a, b) > 0
  }

  predicate TimeLt(a: int, b: int) {
    Diff(a, b) < 0
  }

  /** Within half the range the 32-bit difference is the difference. */
  lemma DiffIs(a: int, b: int)
    requires -HALF < a - b < HALF
    ensures Diff(a % WRAP, b % WRAP) == a - b
  {
    ModDiff(a, b);
    if a >= b {
      SmallMod(a - b);
    } else {
      SmallMod(a - b + WRAP);
      ModShift(a - b);
    }
  }

  lemma ModDiff(a: int, b: int)
    ensures (a % WRAP - b % WRAP) % WRAP == (a - b) % WRAP
  {
  }

  lemma ModShift(a: int)
    ensures (a + WRAP) % WRAP == a % WRAP
  {
  }

  lemma SmallMod(a: int)
    requires 0 <= a < WRAP
    ensures a % WRAP == a
  {
  }

  // ---- the queue ----

  /** All times of interest lie within half the 32-bit range, from `lo` on. */
  predicate InWindow(lo: int, t: int) {
    lo <= t < lo + HALF
  }

  ghost predicate Sorted(q: seq<Id>, due: map<Id, int>)
    requires forall t :: t in q ==> t in due
  {
    forall i, j :: 0 <= i < j < |q| ==> due[q[i]] <= due[q[j]]
  }

  /** The queue holds distinct timers with a callback, in the order of their times. */
  ghost predicate QueueOk(s: State, lo: int) {
    && s.timers.Keys == s.due.Keys && NoDup(s.queue)
    && (forall t :: t in s.queue ==>
          t in s.due && s.timers[t].callback && InWindow(lo, s.due[t]) && s.timers[t].scheduled == s.due[t] % WRAP)
    && Sorted(s.queue, s.due)
    && (forall t :: t in s.timers ==> s.timers[t].periodic >= 0)
  }

  /** A non-empty queue means that the hardware is set for the head, or was set when the head was already overdue. */
  ghost predicate HardwareOk(s: State)
    requires forall t :: t in s.queue ==> t in s.due
  {
    s.queue != [] ==>
      s.hw.Armed? && s.hw.deadline == if s.due[s.queue[0]] < s.hw.at then s.hw.at else s.due[s.queue[0]]
  }

  /** Where insert_timer_in_queue puts a timer: before the first entry that is later. */
  function Position(q: seq<Id>, timers: map<Id, Timer>, scheduled: int): (i: nat)
    requires forall t :: t in q ==> t in timers
    ensures i <= |q| && (i < |q| ==> TimeGt(timers[q[i]].scheduled, scheduled))
    ensures forall j :: 0 <= j < i ==> !TimeGt(timers[q[j]].scheduled, scheduled)
  {
    if q == [] || TimeGt(timers[q[0]].scheduled, scheduled) then 0 else 1 + Position(q[1..], timers, scheduled)
  }

  function InsertAt(q: seq<Id>, i: nat, t: Id): seq<Id>
    requires i <= |q|
  {
    q[..i] + [t] + q[i..]
  }

  /** `q` without `t` */
  function Remove(q: seq<Id>, t: Id): (r: seq<Id>)
    ensures forall u :: u in r <==> u in q && u != t
  {
    if q == [] then []
    else
      assert forall u :: u in q <==> u == q[0] || u in q[1..];
      if q[0] == t then Remove(q[1..], t) else [q[0]] + Remove(q[1..], t)
  }

  lemma {:induction false} RemoveAbsent(q: seq<Id>, t: Id)
    requires t !in q
    ensures Remove(q, t) == q
  {
    if q != [] {
      RemoveAbsent(q[1..], t);
    }
  }

  lemma {:induction false} RemoveNoDup(q: seq<Id>, t: Id)
    requires NoDup(q)
    ensures NoDup(Remove(q, t))
  {
    if q != [] {
      RemoveNoDup(q[1..], t);
      var r := Remove(q[1..], t);
      assert forall i :: 0 <= i < |r| ==> r[i] in r;
      assert q[0] !in r;
    }
  }

  lemma {:induction false} RemoveSorted(q: seq<Id>, t: Id, due: map<Id, int>)
    requires (forall u :: u in q ==> u in due) && Sorted(q, due)
    ensures Sorted(Remove(q, t), due)
  {
    if q != [] {
      RemoveSorted(q[1..], t, due);
      var r := Remove(q[1..], t);
      forall i | 0 <= i < |r|
        ensures due[q[0]] <= due[r[i]]
      {
        assert r[i] in q[1..];
      }
    }
  }

  /** insert_timer_in_queue on a timer whose time is set */
  function Inserted(s: State, t: Id): State
    requires t in s.timers && forall u :: u in s.queue ==> u in s.timers
  {
    s.(queue := InsertAt(s.queue, Position(s.queue, s.timers, s.timers[t].scheduled), t))
  }

  /** The queue stays sorted, and the timer follows those with the same time. */
  lemma InsertedKeeps(s: State, lo: int, t: Id)
    requires QueueOk(s, lo) && t in s.timers && t !in s.queue
    requires s.timers[t].callback && InWindow(lo, s.due[t]) && s.timers[t].scheduled == s.due[t] % WRAP
    ensures var p := Position(s.queue, s.timers, s.timers[t].scheduled);
            && QueueOk(Inserted(s, t), lo) && Inserted(s, t).queue == InsertAt(s.queue, p, t)
            && (forall i :: 0 <= i < p ==> s.due[s.queue[i]] <= s.due[t])
            && (forall i :: p <= i < |s.queue| ==> s.due[s.queue[i]] > s.due[t])
  {
    var q := s.queue;
    var p := Position(q, s.timers, s.timers[t].scheduled);
    forall i | 0 <= i < |q|
      ensures TimeGt(s.timers[q[i]].scheduled, s.timers[t].scheduled) <==> s.due[q[i]] > s.due[t]
    {
      assert q[i] in q;
      DiffIs(s.due[q[i]], s.due[t]);
    }
    InsertAtOrder(q, p, t, s.due);
  }

  lemma InsertAtIndex(q: seq<Id>, p: nat, t: Id)
    requires p <= |q|
    ensures |InsertAt(q, p, t)| == |q| + 1
    ensures forall i :: 0 <= i <= |q| ==> InsertAt(q, p, t)[i] == if i < p then q[i] else if i == p then t else q[i - 1]
    ensures forall u :: u in InsertAt(q, p, t) <==> u in q || u == t
  {
    var r := InsertAt(q, p, t);
    forall u | u in q
      ensures u in r
    {
      var i :| 0 <= i < |q| && q[i] == u;
      assert r[if i < p then i else i + 1] == u;
    }
    assert r[p] == t;
  }

  lemma InsertAtNoDup(q: seq<Id>, p: nat, t: Id)
    requires p <= |q| && NoDup(q) && t !in q
    ensures NoDup(InsertAt(q, p, t))
  {
    var r := InsertAt(q, p, t);
    forall i, j | 0 <= i < j < |r|
      ensures r[i] != r[j]
    {
      assert r[i] == if i < p then q[i] else if i == p then t else q[i - 1];
      assert r[j] == if j < p then q[j] else if j == p then t else q[j - 1];
      assert i != p ==> r[i] in q;
      assert j != p ==> r[j] in q;
    }
  }

  lemma InsertAtOrder(q: seq<Id>, p: nat, t: Id, due: map<Id, int>)
    requires p <= |q| && NoDup(q) && t !in q && t in due && (forall u :: u in q ==> u in due) && Sorted(q, due)
    requires forall i :: 0 <= i < p ==> due[q[i]] <= due[t]
    requires p < |q| ==> due[q[p]] > due[t]
    ensures NoDup(InsertAt(q, p, t))
    ensures forall u :: u in InsertAt(q, p, t) <==> u in q || u == t
    ensures Sorted(InsertAt(q, p, t), due)
    ensures forall i :: p <= i < |q| ==> due[q[i]] > due[t]
  {
    hide NoDup;
    InsertAtIndex(q, p, t);
    InsertAtNoDup(q, p, t);
    var r := InsertAt(q, p, t);
    assert forall i :: p <= i < |q| ==> due[q[i]] > due[t];
    forall i, j | 0 <= i < j < |r|
      ensures due[r[i]] <= due[r[j]]
    {
      assert r[i] == if i < p then q[i] else if i == p then t else q[i - 1];
      assert r[j] == if j < p then q[j] else if j == p then t else q[j - 1];
    }
  }

  // ---- timer_set and timer_cancel ----

  /** timer_set at time `now`; the timer is not in the queue, or the source panics. */
  function SetTimer(s: State, t: Id, now: int, delay: int, period: int): State
    requires t in s.timers && forall u :: u in s.queue ==> u in s.timers
  {
    var s1 := s.(timers := s.timers[t := Timer((now + delay) % WRAP, period, true)], due := s.due[t := now + delay]);
    var s2 := Inserted(s1, t);
    if s2.queue[0] == t then s2.(hw := Armed(now + delay, now)) else s2
  }

  /** timer_set_oneshot and timer_set_periodic allow no zero delay. */
  function AtLeastOne(delay: int): int {
    if delay == 0 then 1 else delay
  }

  /** How long until the time of timer `t`, or 0 if it is overdue. */
  function DelayTo(scheduled: int, now: int): int {
    if TimeLt(scheduled, now % WRAP) then 0 else (scheduled - now % WRAP) % WRAP
  }

  /** timer_cancel at time `now` */
  function CancelTimer(s: State, t: Id, now: int): State
    requires t in s.timers && forall u :: u in s.queue ==> u in s.timers
  {
    var s1 := s.(queue := Remove(s.queue, t), timers := s.timers[t := s.timers[t].(periodic := 0, callback := false)]);
    if s1.queue == [] then s1.(hw := Stopped)
    else if s1.queue[0] != s.queue[0] then
      assert s1.queue[0] in s1.queue;
      s1.(hw := Armed(now + DelayTo(s1.timers[s1.queue[0]].scheduled, now), now))
    else s1
  }

  lemma SetTimerKeeps(s: State, lo: int, t: Id, now: int, delay: int, period: int)
    requires QueueOk(s, lo) && t in s.timers && t !in s.queue && delay >= 0 && period >= 0
    requires InWindow(lo, now) && InWindow(lo, now + delay)
    ensures QueueOk(SetTimer(s, t, now, delay, period), lo)
    ensures HardwareOk(s) ==> HardwareOk(SetTimer(s, t, now, delay, period))
    ensures SetTimer(s, t, now, delay, period).due == s.due[t := now + delay]
    ensures exists p :: 0 <= p <= |s.queue| && SetTimer(s, t, now, delay, period).queue == InsertAt(s.queue, p, t)
  {
    var s1 := s.(timers := s.timers[t := Timer((now + delay) % WRAP, period, true)], due := s.due[t := now + delay]);
    assert QueueOk(s1, lo);
    InsertedKeeps(s1, lo, t);
    var s2 := Inserted(s1, t);
    if s2.queue[0] != t {
      assert s2.queue[0] == s.queue[0];
    }
  }

  /** What a set leaves: the timer's fields, and everything else as it was unless the timer became the head. */
  lemma SetOutcome(s: State, lo: int, t: Id, now: int, delay: int, period: int)
    requires QueueOk(s, lo) && t in s.timers && t !in s.queue && delay >= 0 && period >= 0
    requires InWindow(lo, now) && InWindow(lo, now + delay)
    ensures var s' := SetTimer(s, t, now, delay, period);
            && t in s'.timers && s'.timers[t].periodic == period && s'.timers[t].callback && s'.timers.Keys == s.timers.Keys
            && (forall u :: u in s.timers && u != t ==> s'.timers[u] == s.timers[u] && s'.due[u] == s.due[u])
            && s'.queue != [] && (s'.queue[0] == t <==> forall u :: u in s.queue ==> now + delay < s.due[u])
            && s'.hw == if s'.queue[0] == t then Armed(now + delay, now) else s.hw
  {
    hide *;
    SetFirst(s, lo, t, now, delay, period);
    SetIs(s, lo, t, now, delay, period);
  }

  lemma SetFirst(s: State, lo: int, t: Id, now: int, delay: int, period: int)
    requires QueueOk(s, lo) && t in s.timers && t !in s.queue && delay >= 0 && period >= 0
    requires InWindow(lo, now) && InWindow(lo, now + delay)
    ensures (forall u :: u in s.queue ==> u in s.timers && u in s.due) && SetTimer(s, t, now, delay, period).queue != []
    ensures SetTimer(s, t, now, delay, period).queue[0] == t <==> forall u :: u in s.queue ==> now + delay < s.due[u]
  {
    var s1 := s.(timers := s.timers[t := Timer((now + delay) % WRAP, period, true)], due := s.due[t := now + delay]);
    assert QueueOk(s1, lo);
    InsertedKeeps(s1, lo, t);
    hide QueueOk, Sorted, NoDup;
    InsertedFirst(s1.queue, Position(s1.queue, s1.timers, s1.timers[t].scheduled), t, s1.due);
  }

  lemma SetIs(s: State, lo: int, t: Id, now: int, delay: int, period: int)
    requires QueueOk(s, lo) && t in s.timers && (forall u :: u in s.queue ==> u in s.timers)
    ensures var s' := SetTimer(s, t, now, delay, period);
            && s'.timers == s.timers[t := Timer((now + delay) % WRAP, period, true)] && s'.due == s.due[t := now + delay]
            && s'.queue != [] && s.timers.Keys == s.due.Keys
            && s'.hw == if s'.queue[0] == t then Armed(now + delay, now) else s.hw
  {
  }

  lemma InsertedFirst(q: seq<Id>, p: nat, t: Id, due: map<Id, int>)
    requires p <= |q| && t !in q && t in due && forall u :: u in q ==> u in due
    requires forall i :: 0 <= i < p ==> due[q[i]] <= due[t]
    requires forall i :: p <= i < |q| ==> due[q[i]] > due[t]
    ensures InsertAt(q, p, t) != []
    ensures InsertAt(q, p, t)[0] == t <==> forall u :: u in q ==> due[t] < due[u]
  {
    InsertAtIndex(q, p, t);
    if p > 0 {
      assert q[0] in q;
    } else {
      forall u | u in q
        ensures due[t] < due[u]
      {
        var i :| 0 <= i < |q| && q[i] == u;
      }
    }
  }

  /** Taking one timer out leaves the others in order. */
  lemma {:induction false} RemoveSplit(a: seq<Id>, t: Id, b: seq<Id>)
    requires t !in a && t !in b
    ensures Remove(a + [t] + b, t) == a + b
  {
    if a == [] {
      assert a + [t] + b == [t] + b && ([t] + b)[1..] == b && a + b == b;
      RemoveAbsent(b, t);
    } else {
      assert (a + [t] + b)[1..] == a[1..] + [t] + b;
      RemoveSplit(a[1..], t, b);
      assert [a[0]] + (a[1..] + b) == a + b;
    }
  }

  lemma DelayIs(due: int, now: int)
    requires -HALF < due - now < HALF
    ensures DelayTo(due % WRAP, now) == if due < now then 0 else due - now
  {
    DiffIs(due, now);
    if due >= now {
      ModDiff(due, now);
      SmallMod(due - now);
    }
  }

  lemma CancelIs(s: State, t: Id, now: int)
    requires t in s.timers && forall u :: u in s.queue ==> u in s.timers
    ensures CancelTimer(s, t, now).due == s.due && CancelTimer(s, t, now).queue == Remove(s.queue, t)
    ensures CancelTimer(s, t, now).timers == s.timers[t := s.timers[t].(periodic := 0, callback := false)]
  {
  }

  /** What a cancel leaves: a timer without period and callback, and the hardware for the new head if there is one. */
  lemma CancelOutcome(s: State, lo: int, t: Id, now: int)
    requires QueueOk(s, lo) && t in s.timers && InWindow(lo, now)
    ensures var s' := CancelTimer(s, t, now);
            && t in s'.timers && s'.timers[t].periodic == 0 && !s'.timers[t].callback && s'.timers.Keys == s.timers.Keys
            && (forall u :: u in s.timers && u != t ==> s'.timers[u] == s.timers[u]) && s'.due == s.due
            && (forall u :: u in s'.queue <==> u in s.queue && u != t)
            && (s'.queue == [] ==> s'.hw == Stopped)
            && (s'.queue != [] && s.queue[0] != t ==> s'.hw == s.hw)
            && (s'.queue != [] && s.queue[0] == t ==>
                  s'.hw == Armed(if s.due[s'.queue[0]] < now then now else s.due[s'.queue[0]], now))
  {
    var q' := Remove(s.queue, t);
    CancelIs(s, t, now);
    if q' != [] {
      assert q'[0] in q';
      DelayIs(s.due[q'[0]], now);
      if s.queue[0] == t {
        assert q'[0] != t;
      } else {
        assert q'[0] == s.queue[0];
      }
    }
  }

  lemma CancelQueueOk(s: State, lo: int, t: Id, now: int)
    requires QueueOk(s, lo) && t in s.timers
    ensures QueueOk(CancelTimer(s, t, now), lo) && t !in CancelTimer(s, t, now).queue
  {
    hide NoDup, Sorted, Remove, CancelTimer;
    RemoveNoDup(s.queue, t);
    RemoveSorted(s.queue, t, s.due);
    CancelIs(s, t, now);
  }

  lemma CancelTimerKeeps(s: State, lo: int, t: Id, now: int)
    requires QueueOk(s, lo) && t in s.timers && InWindow(lo, now)
    ensures QueueOk(CancelTimer(s, t, now), lo) && t !in CancelTimer(s, t, now).queue
    ensures HardwareOk(s) ==> HardwareOk(CancelTimer(s, t, now))
    ensures CancelTimer(s, t, now).due == s.due && CancelTimer(s, t, now).queue == Remove(s.queue, t)
  {
    CancelQueueOk(s, lo, t, now);
    CancelIs(s, t, now);
    hide Sorted, NoDup, Remove, DelayTo;
    var q' := Remove(s.queue, t);
    if q' != [] {
      assert q'[0] in q';
      DelayIs(s.due[q'[0]], now);
    }
  }
}

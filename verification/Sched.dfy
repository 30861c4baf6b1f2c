/**
 * The scheduler state of kernel/thread.c as a value, its invariant, and the effect of
 * each queue operation on it.
 *
 * The run-queue bitmap is the set of its 1 bits; a wait queue is its list and its count.
 */
module Sched {
  import opened Basics

  type Tid = nat
  type Wid = nat

  const NUM_PRIORITIES: nat := 32
  const IDLE_PRIORITY: int := 0
  const HIGHEST_PRIORITY: int := 31
  const QUANTUM: int := 5

  const NO_ERROR: int := 0
  const ERR_NOT_BLOCKED: int := -12
  const ERR_TIMED_OUT: int := -13

  datatype State = Suspended | Ready | Running | Blocked | Sleeping | Death

  datatype Thread = Thread(
    state: State,
    priority: int,
    quantum: int,
    realTime: bool,
    idle: bool,
    pinnedCpu: int,
    currCpu: int,
    blockingOn: Option<Wid>,
    blockRet: int)

  datatype WaitQueue = WaitQueue(list: seq<Tid>, count: int)

  datatype Kernel = Kernel(
    runQueue: seq<seq<Tid>>,
    bitmap: set<nat>,
    threads: map<Tid, Thread>,
    waits: map<Wid, WaitQueue>,
    current: seq<Tid>,
    idle: seq<Tid>)

  // ---- the invariant ----

  /** A thread is in the run queue of its priority iff it is ready and not idle; the bitmap says which queues are non-empty. */
  ghost predicate RunQueuesOk(k: Kernel) {
    && |k.runQueue| == NUM_PRIORITIES
    && (forall p :: p in k.bitmap ==> p < NUM_PRIORITIES)
    && (forall p :: 0 <= p < NUM_PRIORITIES ==> NoDup(k.runQueue[p]) && (p in k.bitmap <==> k.runQueue[p] != []))
    && (forall p, t {:trigger t in k.runQueue[p]} :: 0 <= p < NUM_PRIORITIES ==>
          (t in k.runQueue[p] <==>
           t in k.threads && k.threads[t].state == Ready && !k.threads[t].idle && k.threads[t].priority == p))
    && (forall t :: t in k.threads ==> 0 <= k.threads[t].priority < NUM_PRIORITIES)
  }

  /** A thread is in a wait queue iff it is blocked on it; the count is the length of the list. */
  ghost predicate WaitQueuesOk(k: Kernel) {
    && (forall w :: w in k.waits ==> NoDup(k.waits[w].list) && k.waits[w].count == |k.waits[w].list|)
    && (forall w, t {:trigger t in k.waits[w].list} :: w in k.waits ==>
          (t in k.waits[w].list <==>
           t in k.threads && k.threads[t].state == Blocked && k.threads[t].blockingOn == Some(w)))
    && (forall t :: t in k.threads ==>
          && (k.threads[t].state == Blocked <==> k.threads[t].blockingOn.Some?)
          && (k.threads[t].blockingOn.Some? ==> k.threads[t].blockingOn.value in k.waits))
  }

  /** Each CPU has its current thread, running unless the CPU is switching; an idle thread only on its own CPU. */
  ghost predicate CurrentOk(k: Kernel, sw: int) {
    forall c :: 0 <= c < |k.current| ==>
      && k.current[c] in k.threads && k.threads[k.current[c]].currCpu == c
      && (k.threads[k.current[c]].state == Running <==> c != sw)
      && (k.threads[k.current[c]].idle ==> c < |k.idle| && k.current[c] == k.idle[c])
  }

  /** Nothing runs but the current threads. */
  ghost predicate RunningOk(k: Kernel) {
    forall t :: t in k.threads && k.threads[t].state == Running ==>
      0 <= k.threads[t].currCpu < |k.current| && k.current[k.threads[t].currCpu] == t
  }

  /** One idle thread per CPU, ready or running. */
  ghost predicate IdleOk(k: Kernel) {
    && |k.idle| == |k.current|
    && (forall c :: 0 <= c < |k.idle| ==>
          && k.idle[c] in k.threads && k.threads[k.idle[c]].idle
          && k.threads[k.idle[c]].pinnedCpu == c)
    && (forall t :: t in k.threads && k.threads[t].idle ==>
          && 0 <= k.threads[t].pinnedCpu < |k.idle| && k.idle[k.threads[t].pinnedCpu] == t
          && k.threads[t].state in {Ready, Running})
  }

  /** CPU `sw`, if any, is in the middle of a switch. */
  ghost predicate CpusOk(k: Kernel, sw: int) {
    CurrentOk(k, sw) && RunningOk(k) && IdleOk(k)
  }

  ghost predicate Consistent(k: Kernel, sw: int) {
    RunQueuesOk(k) && WaitQueuesOk(k) && CpusOk(k, sw)
  }

  /** The state between any two critical sections. */
  ghost predicate Inv(k: Kernel) {
    Consistent(k, -1)
  }

  // ---- lists ----

  function RemoveAt<T>(l: seq<T>, i: nat): seq<T>
    requires i < |l|
  {
    l[..i] + l[i + 1..]
  }

  lemma RemoveAtMembers(l: seq<Tid>, i: nat)
    requires i < |l| && NoDup(l)
    ensures NoDup(RemoveAt(l, i)) && |RemoveAt(l, i)| == |l| - 1
    ensures forall t :: t in RemoveAt(l, i) <==> t in l && t != l[i]
  {
    forall t
      ensures t in RemoveAt(l, i) <==> t in l && t != l[i]
    {
      if t in l && t != l[i] {
        var j :| 0 <= j < |l| && l[j] == t;
        assert RemoveAt(l, i)[if j < i then j else j - 1] == t;
      }
    }
  }

  // ---- the primitive changes ----

  function SetThread(k: Kernel, t: Tid, th: Thread): Kernel {
    k.(threads := k.threads[t := th])
  }

  function WithQueue(k: Kernel, p: nat, l: seq<Tid>): Kernel
    requires p < |k.runQueue|
  {
    k.(runQueue := k.runQueue[p := l], bitmap := if l == [] then k.bitmap - {p} else k.bitmap + {p})
  }

  /** insert_in_run_queue_head and insert_in_run_queue_tail, with the state change before them. */
  function Enqueue(k: Kernel, t: Tid, head: bool): Kernel
    requires t in k.threads && 0 <= k.threads[t].priority < |k.runQueue|
  {
    var p := k.threads[t].priority;
    var k1 := SetThread(k, t, k.threads[t].(state := Ready));
    WithQueue(k1, p, if head then [t] + k.runQueue[p] else k.runQueue[p] + [t])
  }

  /** The current thread of CPU `c` stops running; it is in no queue yet. */
  function Park(k: Kernel, c: nat): Kernel
    requires c < |k.current| && k.current[c] in k.threads
  {
    var t := k.current[c];
    SetThread(k, t, k.threads[t].(state := if k.threads[t].idle then Ready else Suspended))
  }

  /** A thread that is in no queue enters a wait queue. */
  function WaitAdd(k: Kernel, w: Wid, t: Tid): Kernel
    requires w in k.waits && t in k.threads
  {
    SetThread(k, t, k.threads[t].(state := Blocked, blockingOn := Some(w), blockRet := NO_ERROR))
      .(waits := k.waits[w := WaitQueue(k.waits[w].list + [t], k.waits[w].count + 1)])
  }

  /** The thread at index `i` leaves a wait queue; it is in no queue yet. */
  function WaitRemove(k: Kernel, w: Wid, i: nat, ret: int): Kernel
    requires w in k.waits && i < |k.waits[w].list| && k.waits[w].list[i] in k.threads
  {
    var t := k.waits[w].list[i];
    SetThread(k, t, k.threads[t].(state := Suspended, blockingOn := None, blockRet := ret))
      .(waits := k.waits[w := WaitQueue(RemoveAt(k.waits[w].list, i), k.waits[w].count - 1)])
  }

  lemma EnqueueKeepsRunQueues(k: Kernel, t: Tid, head: bool)
    requires RunQueuesOk(k) && t in k.threads && !k.threads[t].idle && k.threads[t].state != Ready
    ensures RunQueuesOk(Enqueue(k, t, head))
  {
    assert t !in k.runQueue[k.threads[t].priority];
  }

  lemma EnqueueKeeps(k: Kernel, sw: int, t: Tid, head: bool)
    requires Consistent(k, sw) && t in k.threads && !k.threads[t].idle
    requires k.threads[t].state in {Suspended, Sleeping}
    ensures Consistent(Enqueue(k, t, head), sw)
  {
    var k' := Enqueue(k, t, head);
    EnqueueKeepsRunQueues(k, t, head);
    assert WaitQueuesOk(k');
    assert CpusOk(k', sw);
  }

  lemma ParkKeeps(k: Kernel, c: nat)
    requires Inv(k) && c < |k.current|
    ensures Consistent(Park(k, c), c)
  {
    var k' := Park(k, c);
    assert RunQueuesOk(k');
    assert WaitQueuesOk(k');
    assert CpusOk(k', c);
  }

  lemma WaitAddKeeps(k: Kernel, sw: int, w: Wid, t: Tid)
    requires Consistent(k, sw) && w in k.waits && t in k.threads && !k.threads[t].idle
    requires k.threads[t].state == Suspended
    ensures Consistent(WaitAdd(k, w, t), sw)
  {
    var k' := WaitAdd(k, w, t);
    assert t !in k.waits[w].list;
    assert RunQueuesOk(k');
    assert WaitQueuesOk(k');
    assert CpusOk(k', sw);
  }

  lemma WaitRemoveKeeps(k: Kernel, sw: int, w: Wid, i: nat, ret: int)
    requires Consistent(k, sw) && w in k.waits && i < |k.waits[w].list|
    ensures k.waits[w].list[i] in k.threads && !k.threads[k.waits[w].list[i]].idle
    ensures Consistent(WaitRemove(k, w, i, ret), sw)
  {
    var t := k.waits[w].list[i];
    assert t in k.waits[w].list;
    RemoveAtMembers(k.waits[w].list, i);
    var k' := WaitRemove(k, w, i, ret);
    assert RunQueuesOk(k');
    assert WaitQueuesOk(k');
    assert CpusOk(k', sw);
  }

  // ---- choosing and switching to the next thread ----

  predicate Eligible(k: Kernel, t: Tid, cpu: nat) {
    t in k.threads && (k.threads[t].pinnedCpu < 0 || k.threads[t].pinnedCpu == cpu)
  }

  /** The index of the first eligible thread, or the length if there is none. */
  function FirstEligible(k: Kernel, l: seq<Tid>, cpu: nat): (i: nat)
    ensures i <= |l| && (i < |l| ==> Eligible(k, l[i], cpu))
    ensures forall j :: 0 <= j < i ==> !Eligible(k, l[j], cpu)
  {
    if l == [] || Eligible(k, l[0], cpu) then 0 else 1 + FirstEligible(k, l[1..], cpu)
  }

  predicate HasEligible(k: Kernel, p: nat, cpu: nat)
    requires p < |k.runQueue|
  {
    FirstEligible(k, k.runQueue[p], cpu) < |k.runQueue[p]|
  }

  /** The highest priority below `p` with an eligible thread, or -1. */
  function TopPriority(k: Kernel, p: nat, cpu: nat): (q: int)
    requires p <= |k.runQueue|
    ensures -1 <= q < p && (q >= 0 ==> HasEligible(k, q, cpu))
    ensures forall r :: q < r < p ==> !HasEligible(k, r, cpu)
  {
    if p == 0 then -1 else if HasEligible(k, p - 1, cpu) then p - 1 else TopPriority(k, p - 1, cpu)
  }

  /** get_top_thread: the thread chosen, and the state with it off its queue. */
  function GetTop(k: Kernel, cpu: nat): (Kernel, Tid)
    requires cpu < |k.idle|
  {
    var p := TopPriority(k, |k.runQueue|, cpu);
    if p < 0 then (k, k.idle[cpu])
    else
      var i := FirstEligible(k, k.runQueue[p], cpu);
      (WithQueue(k, p, RemoveAt(k.runQueue[p], i)), k.runQueue[p][i])
  }

  /** Index `i` of queue `p` holds the first eligible thread of the highest priority that has one. */
  ghost predicate FirstOfHighest(k: Kernel, cpu: nat, p: nat, i: nat) {
    && p < |k.runQueue| && i < |k.runQueue[p]| && Eligible(k, k.runQueue[p][i], cpu)
    && (forall j :: 0 <= j < i ==> !Eligible(k, k.runQueue[p][j], cpu))
    && (forall r, j :: p < r < |k.runQueue| && 0 <= j < |k.runQueue[r]| ==> !Eligible(k, k.runQueue[r][j], cpu))
  }

  lemma NotEligibleBeyond(k: Kernel, p: nat, cpu: nat, r: nat, j: nat)
    requires p <= |k.runQueue| && TopPriority(k, p, cpu) < r < p && j < |k.runQueue[r]|
    ensures !Eligible(k, k.runQueue[r][j], cpu)
  {
    assert !HasEligible(k, r, cpu);
  }

  /** What get_top_thread promises: it takes the first eligible thread of the highest priority, else idle. */
  lemma GetTopChooses(k: Kernel, cpu: nat)
    requires |k.runQueue| == NUM_PRIORITIES && cpu < |k.idle|
    ensures var (k', t) := GetTop(k, cpu);
            || (exists p: nat, i: nat ::
                  FirstOfHighest(k, cpu, p, i) && t == k.runQueue[p][i]
                  && k' == WithQueue(k, p, RemoveAt(k.runQueue[p], i)))
            || (k' == k && t == k.idle[cpu]
                && forall p, j :: 0 <= p < NUM_PRIORITIES && 0 <= j < |k.runQueue[p]| ==> !Eligible(k, k.runQueue[p][j], cpu))
  {
    var p := TopPriority(k, NUM_PRIORITIES, cpu);
    forall r: nat, j: nat | p < r < NUM_PRIORITIES && j < |k.runQueue[r]|
      ensures !Eligible(k, k.runQueue[r][j], cpu)
    {
      NotEligibleBeyond(k, NUM_PRIORITIES, cpu, r, j);
    }
    if p >= 0 {
      assert FirstOfHighest(k, cpu, p, FirstEligible(k, k.runQueue[p], cpu));
    }
  }

  /** `k1` is `k` with `t`, chosen for `cpu`, off the run queue. */
  ghost predicate Took(k: Kernel, k1: Kernel, t: Tid, cpu: nat) {
    && t in k.threads && k.threads[t].state == Ready
    && k1.threads == k.threads && k1.waits == k.waits && k1.current == k.current && k1.idle == k.idle
    && cpu < |k.idle| && (k.threads[t].idle ==> t == k.idle[cpu])
    && |k1.runQueue| == NUM_PRIORITIES
    && (forall p :: p in k1.bitmap ==> p < NUM_PRIORITIES)
    && (forall p :: 0 <= p < NUM_PRIORITIES ==> NoDup(k1.runQueue[p]) && (p in k1.bitmap <==> k1.runQueue[p] != []))
    && |k.runQueue| == NUM_PRIORITIES
    && (forall p, x {:trigger x in k1.runQueue[p]} :: 0 <= p < NUM_PRIORITIES ==>
          (x in k1.runQueue[p] <==> x in k.runQueue[p] && x != t))
  }

  lemma GetTopTakes(k: Kernel, cpu: nat)
    requires Consistent(k, cpu) && cpu < |k.idle|
    ensures Took(k, GetTop(k, cpu).0, GetTop(k, cpu).1, cpu)
  {
    var p := TopPriority(k, NUM_PRIORITIES, cpu);
    if p >= 0 {
      var i := FirstEligible(k, k.runQueue[p], cpu);
      assert k.runQueue[p][i] in k.runQueue[p];
      RemoveAtMembers(k.runQueue[p], i);
    } else {
      assert k.threads[k.idle[cpu]].state == Ready;
    }
  }

  /** The rest of thread_resched: `t` becomes the current thread of CPU `c`. */
  function SwitchTo(k1: Kernel, t: Tid, c: nat): Kernel
    requires c < |k1.current| && t in k1.threads && k1.current[c] in k1.threads
  {
    var prev := k1.current[c];
    if t == prev then SetThread(k1, t, k1.threads[t].(state := Running))
    else
      var th := k1.threads[t].(
        state := Running,
        quantum := if k1.threads[t].quantum <= 0 then QUANTUM else k1.threads[t].quantum,
        currCpu := c);
      SetThread(SetThread(k1, prev, k1.threads[prev].(currCpu := -1)), t, th).(current := k1.current[c := t])
  }

  lemma SwitchKeepsRunQueues(k: Kernel, k1: Kernel, t: Tid, c: nat)
    requires Consistent(k, c) && c < |k.current| && Took(k, k1, t, c)
    ensures RunQueuesOk(SwitchTo(k1, t, c))
  {
  }

  lemma SwitchKeepsWaits(k: Kernel, k1: Kernel, t: Tid, c: nat)
    requires Consistent(k, c) && c < |k.current| && Took(k, k1, t, c)
    ensures WaitQueuesOk(SwitchTo(k1, t, c))
  {
  }

  lemma SwitchKeepsCurrent(k: Kernel, k1: Kernel, t: Tid, c: nat)
    requires Consistent(k, c) && c < |k.current| && Took(k, k1, t, c)
    ensures CurrentOk(SwitchTo(k1, t, c), -1)
  {
    var k' := SwitchTo(k1, t, c);
    forall d | 0 <= d < |k'.current|
      ensures k'.current[d] in k'.threads && k'.threads[k'.current[d]].currCpu == d
      ensures k'.threads[k'.current[d]].state == Running
      ensures k'.threads[k'.current[d]].idle ==> k'.current[d] == k'.idle[d]
    {
    }
  }

  lemma SwitchKeepsRunning(k: Kernel, k1: Kernel, t: Tid, c: nat)
    requires Consistent(k, c) && c < |k.current| && Took(k, k1, t, c)
    ensures RunningOk(SwitchTo(k1, t, c))
  {
    var k' := SwitchTo(k1, t, c);
    forall x | x in k'.threads && k'.threads[x].state == Running
      ensures 0 <= k'.threads[x].currCpu < |k'.current| && k'.current[k'.threads[x].currCpu] == x
    {
    }
  }

  lemma SwitchKeepsIdle(k: Kernel, k1: Kernel, t: Tid, c: nat)
    requires Consistent(k, c) && c < |k.current| && Took(k, k1, t, c)
    ensures IdleOk(SwitchTo(k1, t, c))
  {
  }

  /** thread_resched, lines 502 to 576, without statistics and the preemption timer. */
  function Resched(k: Kernel, c: nat): Kernel
    requires Consistent(k, c) && c < |k.current|
  {
    var (k1, t) := GetTop(k, c);
    assert Took(k, k1, t, c) by {
      GetTopTakes(k, c);
    }
    SwitchTo(k1, t, c)
  }

  lemma ReschedKeeps(k: Kernel, c: nat)
    requires Consistent(k, c) && c < |k.current|
    ensures Inv(Resched(k, c))
  {
    GetTopTakes(k, c);
    SwitchKeepsRunQueues(k, GetTop(k, c).0, GetTop(k, c).1, c);
    SwitchKeepsWaits(k, GetTop(k, c).0, GetTop(k, c).1, c);
    SwitchKeepsCurrent(k, GetTop(k, c).0, GetTop(k, c).1, c);
    SwitchKeepsRunning(k, GetTop(k, c).0, GetTop(k, c).1, c);
    SwitchKeepsIdle(k, GetTop(k, c).0, GetTop(k, c).1, c);
  }
}

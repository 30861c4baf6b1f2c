/**
 * kernel/thread.c in place: thread and wait queue structures, the run queues, and the
 * operations on them, each proved to do what the function of the same name in Steps does
 * to the state as a whole.
 */
module Threads {
  import opened Basics
  import opened Sched
  import S = Steps

  /** thread_t, the fields the scheduler works on. */
  class ThreadStruct {
    const id: Tid
    var state: State
    var priority: int
    var quantum: int
    var realTime: bool
    var idle: bool
    var pinnedCpu: int
    var currCpu: int
    var blockingOn: Option<Wid>
    var blockRet: int

    constructor (t: Tid, th: Thread)
      ensures id == t && Record() == th
    {
      id := t;
      state, priority, quantum, realTime, idle := th.state, th.priority, th.quantum, th.realTime, th.idle;
      pinnedCpu, currCpu, blockingOn, blockRet := th.pinnedCpu, th.currCpu, th.blockingOn, th.blockRet;
    }

    function Record(): Thread
      reads this
    {
      Thread(state, priority, quantum, realTime, idle, pinnedCpu, currCpu, blockingOn, blockRet)
    }
  }

  /** wait_queue_t */
  class WaitStruct {
    const id: Wid
    var list: seq<Tid>
    var count: int

    constructor (w: Wid)
      ensures id == w && list == [] && count == 0
    {
      id, list, count := w, [], 0;
    }
  }

  class Scheduler {
    /** run_queue, run_queue_bitmap, the idle threads, and the current thread of each CPU */
    const runQueue: array<seq<Tid>>
    var bitmap: set<nat>
    const idle: seq<Tid>
    const current: array<Tid>
    /** all threads and wait queues, by name */
    var threads: map<Tid, ThreadStruct>
    var waits: map<Wid, WaitStruct>

    ghost predicate Valid()
      reads this, threads.Values, waits.Values
    {
      && runQueue.Length == NUM_PRIORITIES
      && (forall t :: t in threads ==> threads[t].id == t)
      && (forall w :: w in waits ==> waits[w].id == w)
    }

    /** After thread_become_idle on every CPU: the statically allocated idle threads run, and nothing else exists. */
    constructor (idleThreads: seq<ThreadStruct>)
      requires forall c :: 0 <= c < |idleThreads| ==> idleThreads[c].id == c && idleThreads[c].Record() == IdleThread(c)
      ensures Valid() && View() == Idling(|idleThreads|) && Inv(View())
      ensures fresh(runQueue) && fresh(current) && threads.Values == set th | th in idleThreads
    {
      runQueue := new seq<Tid>[NUM_PRIORITIES](_ => []);
      bitmap, waits := {}, map[];
      idle := seq(|idleThreads|, (c: nat) => c);
      current := new Tid[|idleThreads|]((c: nat) => c);
      threads := map c: nat | c < |idleThreads| :: idleThreads[c];
      new;
      assert current[..] == idle && runQueue[..] == Idling(0).runQueue;
      assert ThreadsOf() == Idling(|idleThreads|).threads;
      assert WaitsOf() == map[];
      IdlingOk(|idleThreads|);
      forall th | th in idleThreads
        ensures th in threads.Values
      {
        var c :| 0 <= c < |idleThreads| && idleThreads[c] == th;
        assert c in threads;
      }
    }

    ghost function Objects(): set<object>
      reads this
    {
      {this, runQueue, current} + threads.Values + waits.Values
    }

    ghost function ThreadsOf(): map<Tid, Thread>
      reads this, threads.Values
    {
      map t | t in threads :: threads[t].Record()
    }

    ghost function WaitsOf(): map<Wid, WaitQueue>
      reads this, waits.Values
    {
      map w | w in waits :: WaitQueue(waits[w].list, waits[w].count)
    }

    /** The state as a value. */
    ghost function View(): Kernel
      reads Objects()
    {
      Kernel(runQueue[..], bitmap, ThreadsOf(), WaitsOf(), current[..], idle)
    }

    /** If nothing changed but the fields of one thread, the state changed in that thread's record. */
    twostate lemma OnlyThread(t: Tid)
      requires old(Valid()) && t in old(threads) && threads == old(threads) && waits == old(waits)
      requires unchanged(runQueue) && unchanged(current) && bitmap == old(bitmap)
      requires forall u :: u in threads && u != t ==> unchanged(threads[u])
      requires forall w :: w in waits ==> unchanged(waits[w])
      ensures View() == SetThread(old(View()), t, threads[t].Record())
    {
      forall u | u in threads && u != t
        ensures threads[u].Record() == old(threads[u].Record())
      {
      }
      assert ThreadsOf() == old(ThreadsOf())[t := threads[t].Record()];
      assert WaitsOf() == old(WaitsOf());
    }

    // ---- assignments to the fields of one structure ----

    method SetState(t: Tid, state: State)
      requires Valid() && t in threads
      modifies threads[t]
      ensures Valid()
      ensures View() == SetThread(old(View()), t, old(View()).threads[t].(state := state))
    {
      threads[t].state := state;
      OnlyThread(t);
    }

    method SetQuantum(t: Tid, quantum: int)
      requires Valid() && t in threads
      modifies threads[t]
      ensures Valid()
      ensures View() == SetThread(old(View()), t, old(View()).threads[t].(quantum := quantum))
    {
      threads[t].quantum := quantum;
      OnlyThread(t);
    }

    method SetCurrCpu(t: Tid, cpu: int)
      requires Valid() && t in threads
      modifies threads[t]
      ensures Valid()
      ensures View() == SetThread(old(View()), t, old(View()).threads[t].(currCpu := cpu))
    {
      threads[t].currCpu := cpu;
      OnlyThread(t);
    }

    method SetPriorityOf(t: Tid, priority: int)
      requires Valid() && t in threads
      modifies threads[t]
      ensures Valid()
      ensures View() == SetThread(old(View()), t, old(View()).threads[t].(priority := priority))
    {
      threads[t].priority := priority;
      OnlyThread(t);
    }

    /** set_current_thread on CPU `c` */
    method SetCurrent(c: nat, t: Tid)
      requires Valid() && c < current.Length
      modifies current
      ensures Valid() && View() == old(View()).(current := old(View()).current[c := t])
    {
      current[c] := t;
      CurrentChanged(c);
    }

    /** insert_in_run_queue_head */
    method InsertHead(t: Tid)
      requires Valid() && t in threads && 0 <= threads[t].priority < NUM_PRIORITIES
      modifies runQueue, this`bitmap
      ensures Valid()
      ensures View() == var k := old(View()); var p := k.threads[t].priority; WithQueue(k, p, [t] + k.runQueue[p])
    {
      var p := threads[t].priority;
      runQueue[p] := [t] + runQueue[p];
      bitmap := bitmap + {p};
    }

    /** insert_in_run_queue_tail */
    method InsertTail(t: Tid)
      requires Valid() && t in threads && 0 <= threads[t].priority < NUM_PRIORITIES
      modifies runQueue, this`bitmap
      ensures Valid()
      ensures View() == var k := old(View()); var p := k.threads[t].priority; WithQueue(k, p, k.runQueue[p] + [t])
    {
      var p := threads[t].priority;
      runQueue[p] := runQueue[p] + [t];
      bitmap := bitmap + {p};
    }

    lemma ThreadIs(t: Tid)
      requires Valid()
      ensures t in View().threads <==> t in threads
      ensures t in threads ==> View().threads[t] == threads[t].Record()
    {
    }

    lemma ViewIs()
      ensures View().current == current[..] && View().idle == idle
      ensures Valid() ==> View().threads.Keys == threads.Keys && View().waits.Keys == waits.Keys
    {
    }

    twostate lemma CurrentChanged(c: nat)
      requires old(Valid()) && c < current.Length && threads == old(threads) && waits == old(waits)
      requires unchanged(runQueue) && bitmap == old(bitmap) && current[..] == old(current[..])[c := current[c]]
      requires forall t :: t in threads ==> unchanged(threads[t])
      requires forall w :: w in waits ==> unchanged(waits[w])
      ensures View() == old(View()).(current := old(current[..])[c := current[c]])
    {
      assert ThreadsOf() == old(ThreadsOf());
      assert WaitsOf() == old(WaitsOf());
    }

    // ---- threads and wait queues come into being ----

    method AddThread(t: Tid, record: Thread)
      requires Valid() && t !in threads
      modifies this`threads
      ensures Valid() && t in threads && threads == old(threads)[t := threads[t]] && fresh(threads[t])
      ensures View() == SetThread(old(View()), t, record)
    {
      var th := new ThreadStruct(t, record);
      threads := threads[t := th];
      forall u | u in old(threads)
        ensures threads[u].Record() == old(threads[u].Record())
      {
      }
      assert ThreadsOf() == old(ThreadsOf())[t := th.Record()];
      assert WaitsOf() == old(WaitsOf());
    }

    /** thread_create_etc */
    method ThreadCreate(t: Tid, priority: int, pinnedCpu: int)
      requires Valid() && Inv(View()) && t !in threads && 0 <= priority < NUM_PRIORITIES
      modifies this`threads
      ensures Valid() && t in threads && threads == old(threads)[t := threads[t]] && fresh(threads[t])
      ensures View() == S.Create(old(View()), t, priority, pinnedCpu)
    {
      AddThread(t, Thread(Suspended, priority, 0, false, false, pinnedCpu, -1, None, NO_ERROR));
    }

    /** wait_queue_init */
    method WaitQueueInit(w: Wid)
      requires Valid() && Inv(View()) && w !in waits
      modifies this`waits
      ensures Valid() && w in waits && waits == old(waits)[w := waits[w]] && fresh(waits[w])
      ensures View() == S.WaitInit(old(View()), w)
    {
      var wait := new WaitStruct(w);
      waits := waits[w := wait];
      assert WaitsOf() == old(WaitsOf())[w := WaitQueue([], 0)];
    }

    /** thread_set_real_time */
    method ThreadSetRealTime(t: Tid)
      requires Valid() && Inv(View()) && t in threads
      modifies threads[t]
      ensures Valid() && View() == S.SetRealTime(old(View()), t)
    {
      threads[t].realTime := true;
      OnlyThread(t);
    }

    // ---- the dispatcher ----

    /** 31 - __builtin_clz(bits) */
    method HighestBit(bits: set<nat>) returns (p: nat)
      requires bits != {} && forall b :: b in bits ==> b < NUM_PRIORITIES
      ensures p in bits && forall b :: b in bits ==> b <= p
    {
      ghost var b :| b in bits;
      p := NUM_PRIORITIES - 1;
      while p !in bits
        invariant forall b :: b in bits ==> b <= p
        decreases p
      {
        p := p - 1;
      }
    }

    /** list_delete of the thread at index `j` of queue `p` */
    method RemoveFromRunQueue(p: nat, j: nat)
      requires Valid() && p < NUM_PRIORITIES && j < |runQueue[p]| && p in bitmap
      modifies runQueue, this`bitmap
      ensures Valid() && View() == WithQueue(old(View()), p, RemoveAt(old(View()).runQueue[p], j))
    {
      runQueue[p] := RemoveAt(runQueue[p], j);
      if runQueue[p] == [] {
        bitmap := bitmap - {p};
      }
    }

    /** get_top_thread */
    method GetTopThread(cpu: nat) returns (t: Tid)
      requires Valid() && RunQueuesOk(View()) && cpu < |idle|
      modifies runQueue, this`bitmap
      ensures Valid() && (View(), t) == GetTop(old(View()), cpu)
    {
      ghost var k := View();
      ghost var q: nat := NUM_PRIORITIES;
      var local := bitmap;
      while local != {}
        invariant Valid() && View() == k && q <= NUM_PRIORITIES
        invariant forall p :: p in local <==> p in k.bitmap && p < q
        invariant forall r :: q <= r < NUM_PRIORITIES ==> !HasEligible(k, r, cpu)
        decreases local
      {
        var next := HighestBit(local);
        var j := 0;
        while j < |runQueue[next]|
          invariant j <= |runQueue[next]| && View() == k
          invariant forall i :: 0 <= i < j ==> !Eligible(k, k.runQueue[next][i], cpu)
        {
          var u := runQueue[next][j];
          assert u in k.runQueue[next];
          if threads[u].pinnedCpu < 0 || threads[u].pinnedCpu == cpu {
            NoneAbove(k, cpu, q, next);
            TopIs(k, cpu, next, j);
            RemoveFromRunQueue(next, j);
            return u;
          }
          j := j + 1;
        }
        NoneAbove(k, cpu, q, next);
        local := local - {next};
        q := next;
      }
      NoneLeft(k, cpu, q);
      return idle[cpu];
    }

    /** thread_resched on CPU `c` */
    method ThreadResched(c: nat)
      requires Valid() && Consistent(View(), c) && c < current.Length
      modifies Objects()
      ensures Valid() && threads == old(threads) && waits == old(waits)
      ensures View() == Resched(old(View()), c)
    {
      hide Consistent, Resched, SwitchTo, GetTop, Scheduler.View, Scheduler.Valid;
      ghost var k := View();
      ViewIs();
      Chosen(k, c);
      var oldthread := current[c];
      var newthread := GetTopThread(c);
      ghost var k1 := View();
      ThreadIs(newthread);
      SetState(newthread, Running);
      if newthread == oldthread {
        SwitchToSelf(k1, newthread, c);
        return;
      }
      ThreadIs(newthread);
      ThreadIs(oldthread);
      if threads[newthread].quantum <= 0 {
        SetQuantum(newthread, QUANTUM);
      }
      SetCurrCpu(oldthread, -1);
      SetCurrCpu(newthread, c);
      ghost var k2 := View();
      SetCurrent(c, newthread);
      SwitchSteps(k1, newthread, c, k2);
    }

    // ---- operations of the current thread of CPU `c` ----

    /** The current thread becomes ready, and goes to the head or the tail of its run queue. */
    method RequeueCurrent(c: nat, head: bool)
      requires Valid() && Inv(View()) && c < current.Length
      modifies Objects()
      ensures Valid() && threads == old(threads) && waits == old(waits)
      ensures View() == S.Requeue(old(View()), c, head)
    {
      hide Inv, Scheduler.View, Scheduler.Valid, S.Requeue;
      ghost var k := View();
      ViewIs();
      CurrentFacts(k, c);
      var t := current[c];
      ThreadIs(t);
      SetState(t, Ready);
      ThreadIs(t);
      if !threads[t].idle {
        if head {
          InsertHead(t);
        } else {
          InsertTail(t);
        }
      }
      RequeueIs(k, c, head);
    }

    /** thread_yield */
    method ThreadYield(c: nat)
      requires Valid() && Inv(View()) && c < current.Length
      modifies Objects()
      ensures Valid() && threads == old(threads) && waits == old(waits)
      ensures View() == S.Yield(old(View()), c)
    {
      hide Inv, Consistent, Scheduler.View, Scheduler.Valid, S.Requeue, Resched, SetThread;
      ghost var k := View();
      ViewIs();
      CurrentFacts(k, c);
      var t := current[c];
      SetQuantum(t, 0);
      QuantumKeeps(k, t, 0);
      ViewIs();
      ghost var k1 := View();
      S.RequeueKeeps(k1, c, false);
      RequeueCurrent(c, false);
      ThreadResched(c);
    }

    /** thread_preempt */
    method ThreadPreempt(c: nat)
      requires Valid() && Inv(View()) && c < current.Length
      modifies Objects()
      ensures Valid() && threads == old(threads) && waits == old(waits)
      ensures View() == S.Preempt(old(View()), c)
    {
      hide Inv, Consistent, Scheduler.View, Scheduler.Valid, S.Requeue, Resched;
      ghost var k := View();
      ViewIs();
      CurrentFacts(k, c);
      ThreadIs(current[c]);
      S.RequeueKeeps(k, c, k.threads[k.current[c]].quantum > 0);
      RequeueCurrent(c, threads[current[c]].quantum > 0);
      ThreadResched(c);
    }

    /** thread_timer_tick */
    method ThreadTimerTick(c: nat) returns (reschedule: bool)
      requires Valid() && Inv(View()) && c < current.Length
      modifies Objects()
      ensures Valid() && threads == old(threads) && waits == old(waits)
      ensures (View(), reschedule) == S.TimerTick(old(View()), c)
    {
      hide Inv, Consistent, Scheduler.View, Scheduler.Valid;
      ghost var k := View();
      ViewIs();
      CurrentFacts(k, c);
      var t := current[c];
      ThreadIs(t);
      if threads[t].realTime || threads[t].idle {
        return false;
      }
      SetQuantum(t, threads[t].quantum - 1);
      ThreadIs(t);
      return threads[t].quantum <= 0;
    }

    /** thread_sleep, up to the switch */
    method ThreadSleep(c: nat)
      requires Valid() && S.CanBlock(View(), c)
      modifies Objects()
      ensures Valid() && threads == old(threads) && waits == old(waits)
      ensures View() == S.SleepStart(old(View()), c)
    {
      hide Inv, Consistent, Scheduler.View, Scheduler.Valid, Resched, S.SleepStart;
      ghost var k := View();
      ViewIs();
      CurrentFacts(k, c);
      SleepIs(k, c);
      SetState(current[c], Sleeping);
      ThreadResched(c);
    }

    /** thread_sleep_handler */
    method ThreadSleepHandler(t: Tid)
      requires Valid() && Inv(View()) && t in threads && threads[t].state == Sleeping
      modifies Objects()
      ensures Valid() && threads == old(threads) && waits == old(waits)
      ensures View() == S.SleepEnd(old(View()), t)
    {
      hide Inv, Consistent, Scheduler.View, Scheduler.Valid;
      ThreadIs(t);
      PriorityFacts(View(), t);
      SetState(t, Ready);
      ThreadIs(t);
      InsertHead(t);
    }

    /** thread_resume on CPU `c` */
    method ThreadResume(c: nat, t: Tid, intsDisabled: bool)
      requires Valid() && Inv(View()) && c < current.Length && t in threads
      modifies Objects()
      ensures Valid() && threads == old(threads) && waits == old(waits)
      ensures View() == S.ResumeAndYield(old(View()), c, t, intsDisabled)
    {
      hide Inv, Consistent, Scheduler.View, Scheduler.Valid, S.Yield, S.Resume;
      ViewIs();
      ThreadIs(t);
      var resched := threads[t].state == Suspended && !intsDisabled;
      ResumeLocked(t);
      if resched {
        ThreadYield(c);
      }
    }

    /** The critical section of thread_resume */
    method ResumeLocked(t: Tid)
      requires Valid() && Inv(View()) && t in threads
      modifies Objects()
      ensures Valid() && threads == old(threads) && waits == old(waits)
      ensures View() == S.Resume(old(View()), t)
    {
      hide Inv, Consistent, Scheduler.View, Scheduler.Valid;
      ThreadIs(t);
      PriorityFacts(View(), t);
      if threads[t].state == Suspended {
        SetState(t, Ready);
        ThreadIs(t);
        InsertHead(t);
      }
    }

    /** thread_set_priority */
    method ThreadSetPriority(c: nat, priority: int)
      requires Valid() && S.CanBlock(View(), c)
      modifies Objects()
      ensures Valid() && threads == old(threads) && waits == old(waits)
      ensures View() == S.SetPriority(old(View()), c, priority)
    {
      hide Inv, Consistent, Scheduler.View, Scheduler.Valid, Resched, S.SetPriority;
      ghost var k := View();
      ViewIs();
      CurrentFacts(k, c);
      SetPriorityIs(k, c, priority);
      var t := current[c];
      var p := priority;
      if p <= IDLE_PRIORITY {
        p := IDLE_PRIORITY + 1;
      }
      if p > HIGHEST_PRIORITY {
        p := HIGHEST_PRIORITY;
      }
      SetPriorityOf(t, p);
      SetState(t, Ready);
      ThreadIs(t);
      InsertHead(t);
      ThreadResched(c);
    }

    // ---- wait queues ----

    /** wait_queue_block with a non-zero timeout, up to the switch */
    method WaitQueueBlock(c: nat, w: Wid)
      requires Valid() && S.CanBlock(View(), c) && w in waits
      modifies Objects()
      ensures Valid() && threads == old(threads) && waits == old(waits)
      ensures View() == S.WaitBlock(old(View()), c, w)
    {
      hide Inv, Consistent, Scheduler.View, Scheduler.Valid, Resched, S.WaitBlock;
      ghost var k := View();
      ViewIs();
      CurrentFacts(k, c);
      BlockIs(k, c, w);
      AddWaiter(w, current[c]);
      ThreadResched(c);
    }

    /** wait->list and wait->count change */
    method SetWaitList(w: Wid, list: seq<Tid>, count: int)
      requires Valid() && w in waits
      modifies waits[w]
      ensures Valid()
      ensures View() == old(View()).(waits := old(View()).waits[w := WaitQueue(list, count)])
    {
      waits[w].list := list;
      waits[w].count := count;
      OnlyQueue(w);
    }

    /** The thread is blocked on `w`, or ready again with its return code. */
    method SetBlocking(t: Tid, state: State, blockingOn: Option<Wid>, ret: int)
      requires Valid() && t in threads
      modifies threads[t]
      ensures Valid()
      ensures View() == SetThread(old(View()), t,
                old(View()).threads[t].(state := state, blockingOn := blockingOn, blockRet := ret))
    {
      var th := threads[t];
      th.state := state;
      th.blockingOn := blockingOn;
      th.blockRet := ret;
      OnlyThread(t);
    }

    /** The thread goes to the tail of the list of `w`, and is marked blocked on it. */
    method AddWaiter(w: Wid, t: Tid)
      requires Valid() && w in waits && t in threads
      modifies Objects()
      ensures Valid() && threads == old(threads) && waits == old(waits)
      ensures View() == WaitAdd(old(View()), w, t)
    {
      hide Scheduler.View, Scheduler.Valid;
      WaitIs(w);
      ThreadIs(t);
      SetWaitList(w, waits[w].list + [t], waits[w].count + 1);
      SetBlocking(t, Blocked, Some(w), NO_ERROR);
    }

    /** The thread at index `i` leaves the list of `w`, ready and with its return code. */
    method RemoveWaiter(w: Wid, i: nat, ret: int) returns (t: Tid)
      requires Valid() && w in waits && i < |waits[w].list| && waits[w].list[i] in threads
      modifies Objects()
      ensures Valid() && threads == old(threads) && waits == old(waits) && t == old(waits[w].list[i])
      ensures w in old(View()).waits && i < |old(View()).waits[w].list|
      ensures t == old(View()).waits[w].list[i] && t in old(View()).threads
      ensures View() == Unqueued(old(View()), w, i, ret)
    {
      hide Scheduler.View, Scheduler.Valid;
      t := waits[w].list[i];
      WaitIs(w);
      ThreadIs(t);
      SetWaitList(w, RemoveAt(waits[w].list, i), waits[w].count - 1);
      SetBlocking(t, Ready, None, ret);
    }

    twostate lemma OnlyQueue(w: Wid)
      requires old(Valid()) && w in old(waits) && threads == old(threads) && waits == old(waits)
      requires unchanged(runQueue) && unchanged(current) && bitmap == old(bitmap)
      requires forall t :: t in threads ==> unchanged(threads[t])
      requires forall v :: v in waits && v != w ==> unchanged(waits[v])
      ensures View() == old(View()).(waits := old(WaitsOf())[w := WaitQueue(waits[w].list, waits[w].count)])
    {
      assert ThreadsOf() == old(ThreadsOf());
      assert WaitsOf() == old(WaitsOf())[w := WaitQueue(waits[w].list, waits[w].count)];
    }

    lemma WaitIs(w: Wid)
      requires Valid()
      ensures w in View().waits <==> w in waits
      ensures w in waits ==> View().waits[w] == WaitQueue(waits[w].list, waits[w].count)
    {
    }

    /** wait_queue_wake_one */
    method WaitQueueWakeOne(c: nat, w: Wid, reschedule: bool, ret: int) returns (n: nat)
      requires Valid() && Inv(View()) && w in waits && (reschedule ==> S.CanBlock(View(), c))
      modifies Objects()
      ensures Valid() && threads == old(threads) && waits == old(waits)
      ensures (View(), n) == S.WakeOne(old(View()), c, w, reschedule, ret)
    {
      hide Consistent, Scheduler.View, Scheduler.Valid, Resched, S.Wake, S.Requeue, Unqueued;
      ghost var k := View();
      ViewIs();
      WaitIs(w);
      n := 0;
      if waits[w].list != [] {
        HeadFacts(k, -1, w, 0);
        var t := RemoveWaiter(w, 0, ret);
        if reschedule {
          CurrentFacts(k, c);
          WakeOneIs(k, c, w, ret);
          ViewIs();
          var u := current[c];
          SetState(u, Ready);
          ThreadIs(u);
          InsertHead(u);
        } else {
          WakeIs(k, -1, w, 0, ret);
        }
        ThreadIs(t);
        InsertHead(t);
        if reschedule {
          ThreadResched(c);
        }
        n := 1;
      }
    }

    /** The loop of wait_queue_wake_all; CPU `sw`, if any, is about to switch. */
    method PopAll(ghost sw: int, w: Wid, ret: int) returns (n: nat)
      requires Valid() && Consistent(View(), sw) && w in waits
      modifies Objects()
      ensures Valid() && threads == old(threads) && waits == old(waits)
      ensures View() == S.WakeEach(old(View()), sw, w, ret) && n == |old(waits[w].list)|
    {
      hide Consistent, Scheduler.View, Scheduler.Valid, S.Wake, Unqueued;
      ghost var k := View();
      n := 0;
      WaitIs(w);
      while waits[w].list != []
        invariant Valid() && threads == old(threads) && waits == old(waits)
        invariant Consistent(View(), sw) && w in View().waits
        invariant S.WakeEach(View(), sw, w, ret) == S.WakeEach(k, sw, w, ret)
        invariant n + |waits[w].list| == |old(waits[w].list)|
        decreases |waits[w].list|
      {
        ghost var k1 := View();
        WaitIs(w);
        ViewIs();
        HeadFacts(k1, sw, w, 0);
        WakeIs(k1, sw, w, 0, ret);
        var t := RemoveWaiter(w, 0, ret);
        ThreadIs(t);
        InsertHead(t);
        WaitIs(w);
        n := n + 1;
      }
      WaitIs(w);
    }

    /** wait_queue_wake_all */
    method WaitQueueWakeAll(c: nat, w: Wid, reschedule: bool, ret: int) returns (n: nat)
      requires Valid() && Inv(View()) && w in waits && (reschedule ==> S.CanBlock(View(), c))
      modifies Objects()
      ensures Valid() && threads == old(threads) && waits == old(waits)
      ensures (View(), n) == S.WakeAll(old(View()), c, w, reschedule, ret)
    {
      hide Consistent, Scheduler.View, Scheduler.Valid, Resched, S.WakeEach, S.Requeue;
      ghost var k := View();
      ViewIs();
      WaitIs(w);
      CountFacts(k, w);
      if reschedule && waits[w].count > 0 {
        CurrentFacts(k, c);
        S.RequeueKeeps(k, c, true);
        RequeueCurrent(c, true);
        S.WakeEachKeeps(S.Requeue(k, c, true), c, w, ret);
        WaitIs(w);
        n := PopAll(c, w, ret);
      } else {
        n := PopAll(-1, w, ret);
      }
      if n > 0 {
        if reschedule {
          ViewIs();
          ThreadResched(c);
        }
      }
    }

    /** thread_unblock_from_wait_queue */
    method ThreadUnblock(t: Tid, ret: int) returns (status: int)
      requires Valid() && Inv(View()) && t in threads
      modifies Objects()
      ensures Valid() && threads == old(threads) && waits == old(waits)
      ensures (View(), status) == S.Unblock(old(View()), t, ret)
    {
      hide Consistent, Scheduler.View, Scheduler.Valid, S.Wake, Unqueued;
      ghost var k := View();
      ViewIs();
      ThreadIs(t);
      if threads[t].state != Blocked {
        return ERR_NOT_BLOCKED;
      }
      BlockedFacts(k, t);
      var w := threads[t].blockingOn.value;
      WaitIs(w);
      var i := S.IndexOf(waits[w].list, t);
      HeadFacts(k, -1, w, i);
      WakeIs(k, -1, w, i, ret);
      var u := RemoveWaiter(w, i, ret);
      ThreadIs(t);
      InsertHead(t);
      return NO_ERROR;
    }

    /** thread_exit; `joiners` is the thread's retcode_wait_queue, unless it is detached. */
    method ThreadExit(c: nat, joiners: Option<Wid>)
      requires Valid() && S.CanBlock(View(), c) && (joiners.Some? ==> joiners.value in waits)
      modifies Objects()
      ensures Valid() && threads == old(threads) && waits == old(waits)
      ensures View() == S.Exit(old(View()), c, joiners)
    {
      hide Inv, Consistent, Scheduler.View, Scheduler.Valid, Resched, S.Exit, S.WakeEach;
      ghost var k := View();
      ViewIs();
      CurrentFacts(k, c);
      ExitIs(k, c, joiners);
      SetState(current[c], Death);
      if joiners.Some? {
        var n := PopAll(c, joiners.value, NO_ERROR);
      }
      ThreadResched(c);
    }
  }

  function IdleThread(c: nat): Thread {
    Thread(Running, IDLE_PRIORITY, 0, false, true, c, c, None, NO_ERROR)
  }

  /** Every CPU runs its idle thread, and there are no other threads. */
  function Idling(cpus: nat): Kernel {
    Kernel(
      seq(NUM_PRIORITIES, _ => []),
      {},
      map c: nat | c < cpus :: IdleThread(c),
      map[],
      seq(cpus, (c: nat) => c),
      seq(cpus, (c: nat) => c))
  }

  lemma IdlingOk(cpus: nat)
    ensures Inv(Idling(cpus))
  {
    var k := Idling(cpus);
    assert RunQueuesOk(k);
    assert WaitQueuesOk(k);
    assert CurrentOk(k, -1);
    assert RunningOk(k);
    assert IdleOk(k);
  }

  lemma PriorityFacts(k: Kernel, t: Tid)
    requires Inv(k) && t in k.threads
    ensures 0 <= k.threads[t].priority < NUM_PRIORITIES && |k.runQueue| == NUM_PRIORITIES
  {
  }

  lemma HeadFacts(k: Kernel, sw: int, w: Wid, i: nat)
    requires Consistent(k, sw) && w in k.waits && i < |k.waits[w].list|
    ensures k.waits[w].list[i] in k.threads
    ensures 0 <= k.threads[k.waits[w].list[i]].priority < NUM_PRIORITIES && |k.runQueue| == NUM_PRIORITIES
  {
    assert k.waits[w].list[i] in k.waits[w].list;
  }

  lemma CountFacts(k: Kernel, w: Wid)
    requires Inv(k) && w in k.waits
    ensures k.waits[w].count == |k.waits[w].list|
  {
  }

  lemma BlockedFacts(k: Kernel, t: Tid)
    requires Inv(k) && t in k.threads && k.threads[t].state == Blocked
    ensures k.threads[t].blockingOn.Some? && k.threads[t].blockingOn.value in k.waits
    ensures t in k.waits[k.threads[t].blockingOn.value].list
  {
  }

  lemma SleepIs(k: Kernel, c: nat)
    requires S.CanBlock(k, c)
    ensures var k1 := SetThread(k, k.current[c], k.threads[k.current[c]].(state := Sleeping));
            Consistent(k1, c) && c < |k1.current| && S.SleepStart(k, c) == Resched(k1, c)
  {
    hide RunQueuesOk, WaitQueuesOk, CpusOk;
    CurrentFacts(k, c);
    var t := k.current[c];
    ParkKeeps(k, c);
    var k1 := Park(k, c);
    S.LooseKeeps(k1, c, t, Sleeping, k1.threads[t].priority);
    assert SetThread(k1, t, k1.threads[t].(state := Sleeping)) == SetThread(k, t, k.threads[t].(state := Sleeping));
  }

  lemma SetPriorityIs(k: Kernel, c: nat, p: int)
    requires S.CanBlock(k, c)
    ensures var t := k.current[c];
            var q := S.ClampPriority(p);
            var a := SetThread(k, t, k.threads[t].(priority := q));
            var b := SetThread(a, t, a.threads[t].(state := Ready));
            && 0 <= q < NUM_PRIORITIES && |b.runQueue| == NUM_PRIORITIES
            && var k1 := WithQueue(b, q, [t] + b.runQueue[q]);
            Consistent(k1, c) && c < |k1.current| && S.SetPriority(k, c, p) == Resched(k1, c)
  {
    hide RunQueuesOk, WaitQueuesOk, CpusOk;
    CurrentFacts(k, c);
    var t := k.current[c];
    ParkKeeps(k, c);
    var k1 := Park(k, c);
    S.LooseKeeps(k1, c, t, Suspended, S.ClampPriority(p));
    var k2 := SetThread(k1, t, k1.threads[t].(priority := S.ClampPriority(p)));
    assert k2 == SetThread(k1, t, k1.threads[t].(state := Suspended, priority := S.ClampPriority(p)));
    EnqueueKeeps(k2, c, t, true);
    var a := SetThread(k, t, k.threads[t].(priority := S.ClampPriority(p)));
    assert SetThread(a, t, a.threads[t].(state := Ready)) == SetThread(k2, t, k2.threads[t].(state := Ready));
  }

  lemma BlockIs(k: Kernel, c: nat, w: Wid)
    requires S.CanBlock(k, c) && w in k.waits
    ensures var k1 := WaitAdd(k, w, k.current[c]);
            Consistent(k1, c) && c < |k1.current| && S.WaitBlock(k, c, w) == Resched(k1, c)
  {
    hide RunQueuesOk, WaitQueuesOk, CpusOk;
    CurrentFacts(k, c);
    ParkKeeps(k, c);
    WaitAddKeeps(Park(k, c), c, w, k.current[c]);
    assert WaitAdd(Park(k, c), w, k.current[c]) == WaitAdd(k, w, k.current[c]);
  }

  /** A thread left a wait queue, and is ready but in no queue yet. */
  ghost function Unqueued(k: Kernel, w: Wid, i: nat, ret: int): Kernel
    requires w in k.waits && i < |k.waits[w].list| && k.waits[w].list[i] in k.threads
  {
    var t := k.waits[w].list[i];
    SetThread(k, t, k.threads[t].(state := Ready, blockingOn := None, blockRet := ret))
      .(waits := k.waits[w := WaitQueue(RemoveAt(k.waits[w].list, i), k.waits[w].count - 1)])
  }

  lemma WakeIs(k: Kernel, sw: int, w: Wid, i: nat, ret: int)
    requires Consistent(k, sw) && w in k.waits && i < |k.waits[w].list|
    ensures k.waits[w].list[i] in k.threads && |k.runQueue| == NUM_PRIORITIES
    ensures var t := k.waits[w].list[i];
            var k1 := Unqueued(k, w, i, ret);
            && t in k1.threads && k1.threads[t].priority == k.threads[t].priority && k1.runQueue == k.runQueue
            && k1.threads.Keys == k.threads.Keys
            && var p := k.threads[t].priority;
            0 <= p < NUM_PRIORITIES && WithQueue(k1, p, [t] + k1.runQueue[p]) == S.Wake(k, sw, w, i, ret)
  {
    HeadFacts(k, sw, w, i);
    WaitRemoveKeeps(k, sw, w, i, ret);
    var t := k.waits[w].list[i];
    var k1 := WaitRemove(k, w, i, ret);
    assert SetThread(k1, t, k1.threads[t].(state := Ready)) == Unqueued(k, w, i, ret);
  }

  lemma WaiterFacts(k: Kernel, c: nat, w: Wid)
    requires S.CanBlock(k, c) && w in k.waits && k.waits[w].list != []
    ensures k.waits[w].list[0] in k.threads && k.waits[w].list[0] != k.current[c]
  {
    assert k.waits[w].list[0] in k.waits[w].list;
  }

  /** In the source the woken thread leaves its queue before the current thread enters the run queue. */
  lemma WakeOneIs(k: Kernel, c: nat, w: Wid, ret: int)
    requires S.CanBlock(k, c) && w in k.waits && k.waits[w].list != []
    ensures k.waits[w].list[0] in k.threads && |k.runQueue| == NUM_PRIORITIES
    ensures var t := k.waits[w].list[0];
            var u := k.current[c];
            var a := Unqueued(k, w, 0, ret);
            && u in a.threads && t in a.threads && a.current == k.current && a.runQueue == k.runQueue
            && a.threads.Keys == k.threads.Keys && a.threads[u].idle == false
            && var b := SetThread(a, u, a.threads[u].(state := Ready));
            && 0 <= b.threads[u].priority < NUM_PRIORITIES && 0 <= b.threads[t].priority < NUM_PRIORITIES
            && var d := WithQueue(b, b.threads[u].priority, [u] + b.runQueue[b.threads[u].priority]);
            && var e := WithQueue(d, d.threads[t].priority, [t] + d.runQueue[d.threads[t].priority]);
            && Consistent(S.Requeue(k, c, true), c)
            && e == S.Wake(S.Requeue(k, c, true), c, w, 0, ret) && Consistent(e, c) && c < |e.current|
  {
    hide RunQueuesOk, WaitQueuesOk, CpusOk;
    CurrentFacts(k, c);
    WaiterFacts(k, c, w);
    var t := k.waits[w].list[0];
    var u := k.current[c];
    HeadFacts(k, -1, w, 0);
    RequeueIs(k, c, true);
    S.RequeueKeeps(k, c, true);
    var r := S.Requeue(k, c, true);
    WakeIs(r, c, w, 0, ret);
    var a := Unqueued(k, w, 0, ret);
    var b := SetThread(a, u, a.threads[u].(state := Ready));
    var d := WithQueue(b, b.threads[u].priority, [u] + b.runQueue[b.threads[u].priority]);
    assert d.threads == Unqueued(r, w, 0, ret).threads;
    assert d == Unqueued(r, w, 0, ret);
  }

  lemma ExitIs(k: Kernel, c: nat, w: Option<Wid>)
    requires S.CanBlock(k, c) && (w.Some? ==> w.value in k.waits)
    ensures var k1 := SetThread(k, k.current[c], k.threads[k.current[c]].(state := Death));
            && Consistent(k1, c) && c < |k1.current|
            && var k2 := if w.Some? then S.WakeEach(k1, c, w.value, NO_ERROR) else k1;
            Consistent(k2, c) && c < |k2.current| && S.Exit(k, c, w) == Resched(k2, c)
  {
    hide RunQueuesOk, WaitQueuesOk, CpusOk;
    CurrentFacts(k, c);
    var t := k.current[c];
    ParkKeeps(k, c);
    var k1 := Park(k, c);
    S.LooseKeeps(k1, c, t, Death, k1.threads[t].priority);
    var k2 := SetThread(k1, t, k1.threads[t].(state := Death));
    assert k2 == SetThread(k1, t, k1.threads[t].(state := Death, priority := k1.threads[t].priority));
    assert k2 == SetThread(k, t, k.threads[t].(state := Death));
    if w.Some? {
      S.WakeEachKeeps(k2, c, w.value, NO_ERROR);
    }
  }

  lemma CurrentFacts(k: Kernel, c: nat)
    requires Inv(k) && c < |k.current|
    ensures S.OnCpu(k, c) && k.current[c] in k.threads && |k.runQueue| == NUM_PRIORITIES
    ensures 0 <= k.threads[k.current[c]].priority < NUM_PRIORITIES
  {
  }

  lemma QuantumKeeps(k: Kernel, t: Tid, q: int)
    requires Inv(k) && t in k.threads
    ensures Inv(SetThread(k, t, k.threads[t].(quantum := q)))
    ensures SetThread(k, t, k.threads[t].(quantum := q)) == S.SetQuantum(k, t, q)
    ensures SetThread(k, t, k.threads[t].(quantum := q)).current == k.current
  {
    S.SameRoleKeeps(k, -1, t, k.threads[t].(quantum := q));
  }

  lemma RequeueIs(k: Kernel, c: nat, head: bool)
    requires Inv(k) && c < |k.current|
    ensures S.OnCpu(k, c) && |k.runQueue| == NUM_PRIORITIES
    ensures var t := k.current[c];
            var p := k.threads[t].priority;
            0 <= p < NUM_PRIORITIES &&
            var a := SetThread(k, t, k.threads[t].(state := Ready));
            (if k.threads[t].idle then a
             else WithQueue(a, p, if head then [t] + a.runQueue[p] else a.runQueue[p] + [t])) == S.Requeue(k, c, head)
  {
    var t := k.current[c];
    ParkKeeps(k, c);
    assert k.threads[t := Park(k, c).threads[t]][t := k.threads[t].(state := Ready)]
        == k.threads[t := k.threads[t].(state := Ready)];
  }

  lemma SwitchToSelf(k1: Kernel, t: Tid, c: nat)
    requires c < |k1.current| && t in k1.threads && t == k1.current[c]
    ensures SwitchTo(k1, t, c) == SetThread(k1, t, k1.threads[t].(state := Running))
  {
  }

  lemma Chosen(k: Kernel, c: nat)
    requires Consistent(k, c) && c < |k.current|
    ensures RunQueuesOk(k) && c < |k.idle| && k.current[c] in k.threads
    ensures GetTop(k, c).0.threads == k.threads && GetTop(k, c).1 in k.threads
    ensures GetTop(k, c).0.current == k.current
    ensures Resched(k, c) == SwitchTo(GetTop(k, c).0, GetTop(k, c).1, c)
  {
    GetTopTakes(k, c);
  }

  /** The assignments of thread_resched, in the order of the source, switch to the thread. */
  lemma SwitchSteps(k1: Kernel, t: Tid, c: nat, k2: Kernel)
    requires c < |k1.current| && t in k1.threads && k1.current[c] in k1.threads && t != k1.current[c]
    requires var a := SetThread(k1, t, k1.threads[t].(state := Running));
             var b := if a.threads[t].quantum <= 0 then SetThread(a, t, a.threads[t].(quantum := QUANTUM)) else a;
             var d := SetThread(b, k1.current[c], b.threads[k1.current[c]].(currCpu := -1));
             k2 == SetThread(d, t, d.threads[t].(currCpu := c))
    ensures k2.(current := k1.current[c := t]) == SwitchTo(k1, t, c)
  {
    assert k2.threads == SwitchTo(k1, t, c).threads;
  }

  lemma NoneAbove(k: Kernel, cpu: nat, q: nat, next: nat)
    requires RunQueuesOk(k) && next < q <= NUM_PRIORITIES
    requires forall r :: r in k.bitmap && r < q ==> r <= next
    requires forall r :: q <= r < NUM_PRIORITIES ==> !HasEligible(k, r, cpu)
    ensures forall r :: next < r < NUM_PRIORITIES ==> !HasEligible(k, r, cpu)
  {
  }

  lemma TopIs(k: Kernel, cpu: nat, p: nat, j: nat)
    requires RunQueuesOk(k) && cpu < |k.idle| && p < NUM_PRIORITIES && j < |k.runQueue[p]|
    requires Eligible(k, k.runQueue[p][j], cpu)
    requires forall i :: 0 <= i < j ==> !Eligible(k, k.runQueue[p][i], cpu)
    requires forall r :: p < r < NUM_PRIORITIES ==> !HasEligible(k, r, cpu)
    ensures GetTop(k, cpu) == (WithQueue(k, p, RemoveAt(k.runQueue[p], j)), k.runQueue[p][j])
  {
    assert FirstEligible(k, k.runQueue[p], cpu) == j;
    assert HasEligible(k, p, cpu);
    assert TopPriority(k, NUM_PRIORITIES, cpu) == p;
  }

  lemma NoneLeft(k: Kernel, cpu: nat, q: nat)
    requires RunQueuesOk(k) && cpu < |k.idle|
    requires forall p :: p in k.bitmap ==> p >= q
    requires forall r :: q <= r < NUM_PRIORITIES ==> !HasEligible(k, r, cpu)
    ensures GetTop(k, cpu) == (k, k.idle[cpu])
  {
    assert forall r :: 0 <= r < NUM_PRIORITIES ==> !HasEligible(k, r, cpu);
    assert TopPriority(k, NUM_PRIORITIES, cpu) == -1;
  }
}

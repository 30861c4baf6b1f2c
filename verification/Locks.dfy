/**
 * kernel/mutex.c, kernel/semaphore.c and kernel/event.c in place.  A call that blocks is
 * two methods, one up to the context switch in wait_queue_block and one from there on;
 * each is proved to be the step of the same name on the object's state as a value.
 */
module Locks {
  import opened Basics
  import opened Sched
  import opened Threads
  import opened WaitClients
  import S = Steps
  import M = KernelMutex
  import Sem = KernelSemaphore
  import E = KernelEvent

  const ERR_NOT_READY: int := -3

  /** How a call ended, if it did not block. */
  type Outcome = Option<int>

  class MutexStruct {
    const sched: Scheduler
    const wait: Wid
    var count: int
    var holder: Option<Tid>
    ghost var owner: set<Tid>
    ghost var inside: map<Tid, bool>

    ghost predicate Valid()
      reads this, sched.Objects()
    {
      sched.Valid() && M.MutexOk(View())
    }

    ghost function View(): M.Mutex
      reads this, sched.Objects()
    {
      M.Mutex(Clients(sched.View(), wait, inside), count, holder, owner)
    }

    /** mutex_init, on a wait queue that is empty and that nothing else uses */
    constructor (sched: Scheduler, wait: Wid)
      requires sched.Valid() && Inv(sched.View()) && wait in sched.waits && sched.waits[wait].list == []
      ensures this.sched == sched && this.wait == wait && Valid() && count == 0 && holder == None && owner == {}
      ensures inside == map[]
    {
      this.sched, this.wait, count, holder, owner, inside := sched, wait, 0, None, {}, map[];
      new;
      sched.WaitIs(wait);
      assert Granted(View().x) == {} && Expired(View().x) == {};
    }

    lemma Facts(c: nat)
      requires Valid()
      ensures sched.Valid() && ClientsOk(View().x) && Inv(sched.View()) && wait in sched.waits
      ensures View().x.k == sched.View() && sched.View().current == sched.current[..]
      ensures this !in sched.Objects()
    {
      sched.ViewIs();
    }

    /** mutex_acquire_timeout, up to the context switch if it blocks */
    method AcquireStart(c: nat, timeout: Timeout) returns (ret: Outcome)
      requires Valid() && M.CanStep(View(), M.Acquire(c, timeout))
      modifies this, sched.Objects()
      ensures Valid() && View() == M.AcquireStart(old(View()), c, timeout)
      ensures ret == Some(NO_ERROR) <==> old(count) == 0
      ensures ret == Some(ERR_TIMED_OUT) <==> old(count) > 0 && timeout == Zero
      ensures ret == None <==> old(count) > 0 && timeout != Zero
      ensures ret == Some(NO_ERROR) <==> old(sched.current[c]) in owner
      ensures ret == None <==> old(sched.current[c]) in inside
      ensures ret == Some(ERR_TIMED_OUT) ==> View() == old(View())
    {
      hide M.MutexOk, ClientsOk, Inv, S.WaitBlock, Scheduler.View, Scheduler.Valid;
      Facts(c);
      M.AcquireKeeps(View(), c, timeout);
      M.CountNotNegative(View());
      count := count + 1;
      if count > 1 {
        if timeout == Zero {
          count := count - 1;
          return Some(ERR_TIMED_OUT);
        }
        inside := inside[sched.current[c] := timeout == Finite];
        sched.WaitQueueBlock(c, wait);
        return None;
      }
      holder := Some(sched.current[c]);
      owner := owner + {sched.current[c]};
      return Some(NO_ERROR);
    }

    /** The rest of mutex_acquire_timeout */
    method AcquireEnd(c: nat) returns (ret: int)
      requires Valid() && M.CanStep(View(), M.Return(c))
      modifies this
      ensures Valid() && View() == M.AcquireEnd(old(View()), c)
      ensures sched.current[c] !in inside && (ret == NO_ERROR <==> sched.current[c] in owner)
      ensures ret == NO_ERROR || ret == ERR_TIMED_OUT
    {
      hide M.MutexOk, Inv, Scheduler.View, Scheduler.Valid;
      Facts(c);
      M.ReturnKeeps(View(), c);
      NotOwner(c);
      var t := sched.current[c];
      RunningNotQueued(View().x, c);
      sched.ThreadIs(t);
      ret := sched.threads[t].blockRet;
      inside := inside - {t};
      if ret < NO_ERROR {
        if ret == ERR_TIMED_OUT {
          count := count - 1;
        }
        return ret;
      }
      holder := Some(t);
      owner := owner + {t};
    }

    lemma NotOwner(c: nat)
      requires Valid() && M.CanStep(View(), M.Return(c))
      ensures View().x.k.current[c] !in owner
    {
    }

    /** mutex_release */
    method Release(c: nat)
      requires Valid() && M.CanStep(View(), M.Release(c))
      modifies this, sched.Objects()
      ensures Valid() && View() == M.ReleaseOf(old(View()), c)
      ensures old(sched.current[c]) !in owner
    {
      hide M.MutexOk, ClientsOk, Inv, S.WakeOne, Scheduler.View, Scheduler.Valid;
      Facts(c);
      M.ReleaseKeeps(View(), c);
      holder := None;
      owner := owner - {sched.current[c]};
      count := count - 1;
      if count >= 1 {
        var n := sched.WaitQueueWakeOne(c, wait, true, NO_ERROR);
      }
    }
  }

  class SemaphoreStruct {
    const sched: Scheduler
    const wait: Wid
    var count: int
    ghost const initial: nat
    ghost var posts: nat
    ghost var passed: nat
    ghost var inside: map<Tid, bool>

    ghost predicate Valid()
      reads this, sched.Objects()
    {
      sched.Valid() && Sem.SemaphoreOk(View())
    }

    ghost function View(): Sem.Semaphore
      reads this, sched.Objects()
    {
      Sem.Semaphore(Clients(sched.View(), wait, inside), count, initial, posts, passed)
    }

    /** sem_init, on a wait queue that is empty and that nothing else uses */
    constructor (sched: Scheduler, wait: Wid, value: nat)
      requires sched.Valid() && Inv(sched.View()) && wait in sched.waits && sched.waits[wait].list == []
      ensures this.sched == sched && this.wait == wait && Valid() && inside == map[]
      ensures count == value && initial == value && posts == 0 && passed == 0
    {
      this.sched, this.wait, count, initial, posts, passed, inside := sched, wait, value, value, 0, 0, map[];
      new;
      sched.WaitIs(wait);
      assert Granted(View().x) == {} && Expired(View().x) == {};
    }

    lemma Facts(c: nat)
      requires Valid()
      ensures sched.Valid() && ClientsOk(View().x) && Inv(sched.View()) && wait in sched.waits
      ensures View().x.k == sched.View() && sched.View().current == sched.current[..]
      ensures this !in sched.Objects()
    {
      sched.ViewIs();
    }

    ghost function Waiters(): seq<Tid>
      reads this, sched.Objects()
    {
      if wait in sched.View().waits then sched.View().waits[wait].list else []
    }

    /** sem_post */
    method Post(c: nat, reschedule: bool) returns (woken: nat)
      requires Valid() && Sem.CanStep(View(), Sem.Post(c, reschedule))
      modifies this, sched.Objects()
      ensures Valid() && View() == Sem.PostOf(old(View()), c, reschedule)
      ensures woken == if old(count) < 0 && old(Waiters()) != [] then 1 else 0
    {
      hide Sem.SemaphoreOk, ClientsOk, Inv, S.WakeOne, Scheduler.View, Scheduler.Valid;
      Facts(c);
      Sem.PostKeeps(View(), c, reschedule);
      Sem.WokenIs(View(), c, reschedule);
      woken := 0;
      count, posts := count + 1, posts + 1;
      if count <= 0 {
        woken := sched.WaitQueueWakeOne(c, wait, reschedule, NO_ERROR);
      }
    }

    /** sem_wait and sem_timedwait, up to the context switch if it blocks */
    method WaitStart(c: nat, timeout: Timeout) returns (ret: Outcome)
      requires Valid() && Sem.CanStep(View(), Sem.Wait(c, timeout))
      modifies this, sched.Objects()
      ensures Valid() && View() == Sem.WaitStart(old(View()), c, timeout)
      ensures ret == Some(NO_ERROR) <==> old(count) > 0
      ensures ret == Some(ERR_TIMED_OUT) <==> old(count) <= 0 && timeout == Zero
      ensures ret == None <==> old(count) <= 0 && timeout != Zero
      ensures ret == Some(NO_ERROR) <==> passed == old(passed) + 1
      ensures ret == None <==> old(sched.current[c]) in inside
      ensures ret == Some(ERR_TIMED_OUT) ==> View() == old(View())
    {
      hide Sem.SemaphoreOk, ClientsOk, Inv, S.WaitBlock, Scheduler.View, Scheduler.Valid;
      Facts(c);
      Sem.WaitKeeps(View(), c, timeout);
      count := count - 1;
      if count < 0 {
        if timeout == Zero {
          count := count + 1;
          return Some(ERR_TIMED_OUT);
        }
        inside := inside[sched.current[c] := timeout == Finite];
        sched.WaitQueueBlock(c, wait);
        return None;
      }
      passed := passed + 1;
      return Some(NO_ERROR);
    }

    /** The rest of sem_wait and sem_timedwait */
    method WaitEnd(c: nat) returns (ret: int)
      requires Valid() && Sem.CanStep(View(), Sem.Return(c))
      modifies this
      ensures Valid() && View() == Sem.WaitEnd(old(View()), c)
      ensures ret == NO_ERROR <==> passed == old(passed) + 1
      ensures ret == NO_ERROR || ret == ERR_TIMED_OUT
    {
      hide Sem.SemaphoreOk, Inv, Scheduler.View, Scheduler.Valid;
      Facts(c);
      Sem.ReturnKeeps(View(), c);
      var t := sched.current[c];
      RunningNotQueued(View().x, c);
      sched.ThreadIs(t);
      ret := sched.threads[t].blockRet;
      inside := inside - {t};
      if ret < NO_ERROR {
        if ret == ERR_TIMED_OUT {
          count := count + 1;
        }
      } else {
        passed := passed + 1;
      }
    }

    /** sem_trywait */
    method TryWait(c: nat) returns (ret: int)
      requires Valid() && Sem.CanStep(View(), Sem.TryWait(c))
      modifies this
      ensures Valid() && View() == Sem.TryWaitOf(old(View()))
      ensures ret == NO_ERROR <==> old(count) > 0
      ensures if ret == NO_ERROR then passed == old(passed) + 1 else ret == ERR_NOT_READY && View() == old(View())
    {
      hide ClientsOk, Inv, Scheduler.View, Scheduler.Valid;
      Facts(c);
      if count <= 0 {
        ret := ERR_NOT_READY;
      } else {
        ret := NO_ERROR;
        count, passed := count - 1, passed + 1;
      }
    }
  }

  class EventStruct {
    const sched: Scheduler
    const wait: Wid
    var signaled: bool
    /** EVENT_FLAG_AUTOUNSIGNAL */
    const auto: bool
    ghost const initial: bool
    ghost var signals: nat
    ghost var passed: nat
    ghost var inside: map<Tid, bool>

    ghost predicate Valid()
      reads this, sched.Objects()
    {
      sched.Valid() && E.EventOk(View())
    }

    ghost function View(): E.Event
      reads this, sched.Objects()
    {
      E.Event(Clients(sched.View(), wait, inside), signaled, auto, initial, signals, passed)
    }

    /** event_init, on a wait queue that is empty and that nothing else uses */
    constructor (sched: Scheduler, wait: Wid, initial: bool, auto: bool)
      requires sched.Valid() && Inv(sched.View()) && wait in sched.waits && sched.waits[wait].list == []
      ensures this.sched == sched && this.wait == wait && Valid() && inside == map[]
      ensures signaled == initial && this.auto == auto && this.initial == initial
      ensures signals == 0 && passed == 0
    {
      this.sched, this.wait, this.auto, this.initial := sched, wait, auto, initial;
      signaled, signals, passed, inside := initial, 0, 0, map[];
      new;
      sched.WaitIs(wait);
      assert Granted(View().x) == {} && Expired(View().x) == {};
    }

    lemma Facts(c: nat)
      requires Valid()
      ensures sched.Valid() && ClientsOk(View().x) && Inv(sched.View()) && wait in sched.waits
      ensures View().x.k == sched.View() && sched.View().current == sched.current[..]
      ensures this !in sched.Objects()
    {
      sched.ViewIs();
    }

    /** event_wait_timeout, up to the context switch if it blocks */
    method WaitStart(c: nat, timeout: Timeout) returns (ret: Outcome)
      requires Valid() && E.CanStep(View(), E.Wait(c, timeout))
      modifies this, sched.Objects()
      ensures Valid() && View() == E.WaitStart(old(View()), c, timeout)
      ensures ret == Some(NO_ERROR) <==> old(signaled)
      ensures ret == Some(ERR_TIMED_OUT) <==> !old(signaled) && timeout == Zero
      ensures ret == None <==> !old(signaled) && timeout != Zero
      ensures signaled <==> old(signaled) && !auto
      ensures ret == Some(NO_ERROR) <==> passed == old(passed) + 1
      ensures ret == None <==> old(sched.current[c]) in inside
      ensures ret == Some(ERR_TIMED_OUT) ==> View() == old(View())
    {
      hide E.EventOk, ClientsOk, Inv, S.WaitBlock, Scheduler.View, Scheduler.Valid;
      Facts(c);
      E.NextKeeps(View(), E.Wait(c, timeout));
      if signaled {
        if auto {
          signaled := false;
        }
        passed := passed + 1;
        return Some(NO_ERROR);
      }
      if timeout == Zero {
        return Some(ERR_TIMED_OUT);
      }
      inside := inside[sched.current[c] := timeout == Finite];
      sched.WaitQueueBlock(c, wait);
      return None;
    }

    /** The rest of event_wait_timeout */
    method WaitEnd(c: nat) returns (ret: int)
      requires Valid() && E.CanStep(View(), E.Return(c))
      modifies this
      ensures Valid() && View() == E.WaitEnd(old(View()), c)
      ensures ret == NO_ERROR <==> passed == old(passed) + 1
      ensures ret == NO_ERROR || ret == ERR_TIMED_OUT
    {
      hide E.EventOk, Inv, Scheduler.View, Scheduler.Valid;
      Facts(c);
      E.ReturnKeeps(View(), c);
      var t := sched.current[c];
      RunningNotQueued(View().x, c);
      sched.ThreadIs(t);
      ret := sched.threads[t].blockRet;
      inside := inside - {t};
      if ret >= NO_ERROR {
        passed := passed + 1;
      }
    }

    /** event_signal */
    method Signal(c: nat, reschedule: bool)
      requires Valid() && E.CanStep(View(), E.Signal(c, reschedule))
      modifies this, sched.Objects()
      ensures Valid() && View() == E.SignalOf(old(View()), c, reschedule)
    {
      hide E.EventOk, ClientsOk, Inv, S.WakeOne, S.WakeAll, Scheduler.View, Scheduler.Valid;
      Facts(c);
      E.SignalKeeps(View(), c, reschedule);
      signals := signals + 1;
      if !signaled {
        if auto {
          var woken := sched.WaitQueueWakeOne(c, wait, reschedule, NO_ERROR);
          if woken <= 0 {
            assert this !in sched.Objects();
            signaled := true;
          }
        } else {
          signaled := true;
          var woken := sched.WaitQueueWakeAll(c, wait, reschedule, NO_ERROR);
        }
      }
    }

    /** event_unsignal */
    method Unsignal()
      requires Valid()
      modifies this`signaled
      ensures Valid() && View() == old(View()).(signaled := false)
    {
      hide ClientsOk, Inv, Scheduler.View, Scheduler.Valid;
      Facts(0);
      signaled := false;
    }
  }
}

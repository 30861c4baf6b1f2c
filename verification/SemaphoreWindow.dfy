/**
 * The window that finite timeouts open in a semaphore: between the timeout of a waiter and
 * its return, the count is still lowered, a post wakes nobody, and a newcomer waits for a
 * resource that is there.
 */
module SemaphoreWindow {
  import opened Sched
  import S = Steps
  import opened WaitClients
  import opened WindowStart
  import Sem = KernelSemaphore

  /** A semaphore without resources on the kernel of `Start`. */
  ghost function Empty(): Sem.Semaphore {
    Sem.Semaphore(Clients(Start(), 0, map[]), 0, 0, 0, 0)
  }

  ghost predicate EmptyAt(s: Sem.Semaphore) {
    && Sem.UntimedOk(s) && s.x.inside == map[] && s.count == 0 && Sem.Grants(s) == s.initial == s.posts == 0
    && s.x.k == Start() && s.x.w == 0
  }

  lemma EmptyOk()
    ensures EmptyAt(Empty())
  {
    hide Start, Inv;
    StartFacts();
    assert Granted(Empty().x) == {};
    assert Expired(Empty().x) == {};
    assert Queue(Empty().x) == [];
  }

  lemma ClientsOf(s: Sem.Semaphore)
    requires Sem.SemaphoreOk(s)
    ensures ClientsOk(s.x) && s.count == s.initial + s.posts - Sem.Grants(s) - |Queue(s.x)| - |Expired(s.x)|
  {
  }

  /** First step: the thread on CPU 1 waits with a timeout, and the newcomer runs there. */
  lemma TimedThreadWaits(s: Sem.Semaphore) returns (s': Sem.Semaphore)
    requires EmptyAt(s)
    ensures Sem.CanStep(s, Sem.Wait(1, Finite)) && s' == Sem.Next(s, Sem.Wait(1, Finite))
    ensures Sem.SemaphoreOk(s') && Queue(s'.x) == [TIMED] && s'.x.inside == map[TIMED := true] && s'.count == -1
    ensures Sem.Grants(s') == s'.initial == s'.posts == 0 && TwoRun(s'.x.k)
  {
    hide S.WaitBlock, Inv, Start;
    StartFacts();
    StartCpus();
    Sem.NextKeeps(s, Sem.Wait(1, Finite));
    EnterEffect(s.x, 1, true);
    s' := Sem.Next(s, Sem.Wait(1, Finite));
  }

  /** Second and third step: the timeout fires, and a post comes before the timed-out thread runs. */
  lemma TimesOutThenPosted(s: Sem.Semaphore) returns (s1: Sem.Semaphore, s2: Sem.Semaphore)
    requires Sem.SemaphoreOk(s) && Queue(s.x) == [TIMED] && s.x.inside == map[TIMED := true] && s.count == -1
    requires Sem.Grants(s) == s.initial == s.posts == 0 && TwoRun(s.x.k)
    ensures Sem.CanStep(s, Sem.TimerFires(TIMED)) && s1 == Sem.Next(s, Sem.TimerFires(TIMED))
    ensures Sem.CanStep(s1, Sem.Post(0, false)) && s2 == Sem.Next(s1, Sem.Post(0, false))
    ensures Sem.SemaphoreOk(s2) && s2.x.inside == map[TIMED := true] && s2.count == 0 && Queue(s2.x) == []
    ensures Sem.Grants(s2) == s2.initial == 0 && s2.posts == 1 && TwoRun(s2.x.k)
  {
    hide S.Unblock, S.WakeOne, Inv, ClientsOk;
    ClientsOf(s);
    TimeoutEffect(s.x, TIMED);
    Sem.NextKeeps(s, Sem.TimerFires(TIMED));
    TimeoutKeepsCurrent(s.x, TIMED);
    s1 := Sem.Next(s, Sem.TimerFires(TIMED));
    ClientsOf(s1);
    assert Queue(s1.x) == [];
    Sem.NextKeeps(s1, Sem.Post(0, false));
    WakeFirstEffect(s1.x, 0, false);
    WakeNobody(s1.x, 0);
    s2 := Sem.Next(s1, Sem.Post(0, false));
  }

  lemma WakeNobody(x: Clients, c: nat)
    requires ClientsOk(x) && Queue(x) == []
    ensures WakeFirst(x, c, false) == x
  {
  }

  /** A thread waits although resources are left. */
  ghost predicate Starved(s: Sem.Semaphore) {
    Sem.SemaphoreOk(s) && Queue(s.x) != [] && Sem.Grants(s) < s.initial + s.posts
  }

  /** Fourth step: the newcomer finds the count lowered, and waits. */
  lemma NewcomerWaits(s: Sem.Semaphore) returns (s': Sem.Semaphore)
    requires Sem.SemaphoreOk(s) && s.x.inside == map[TIMED := true] && s.count == 0 && Queue(s.x) == []
    requires Sem.Grants(s) == s.initial == 0 && s.posts == 1 && TwoRun(s.x.k)
    ensures Sem.CanStep(s, Sem.Wait(1, Infinite)) && s' == Sem.Next(s, Sem.Wait(1, Infinite))
    ensures Starved(s') && s'.count < 0
  {
    hide S.WaitBlock, Inv;
    ClientsOf(s);
    EnterEffect(s.x, 1, false);
    Sem.NextKeeps(s, Sem.Wait(1, Infinite));
    s' := Sem.Next(s, Sem.Wait(1, Infinite));
  }

  /** A run of four steps, from a semaphore without timed waiters to a thread that waits for a resource that is there. */
  lemma StarvedWaiter() returns (ss: seq<Sem.Semaphore>, steps: seq<Sem.Step>)
    ensures Sem.Run(ss, steps) && |steps| == 4 && Sem.UntimedOk(ss[0])
    ensures Starved(ss[4])
  {
    hide Starved, Sem.SemaphoreOk, Sem.Next, Sem.CanStep, TwoRun;
    EmptyOk();
    var s0 := Empty();
    OkOf(s0);
    var s1 := TimedThreadWaits(s0);
    var s2, s3 := TimesOutThenPosted(s1);
    var s4 := NewcomerWaits(s3);
    ss := [s0, s1, s2, s3, s4];
    steps := [Sem.Wait(1, Finite), Sem.TimerFires(TIMED), Sem.Post(0, false), Sem.Wait(1, Infinite)];
  }

  lemma OkOf(s: Sem.Semaphore)
    requires Sem.UntimedOk(s)
    ensures Sem.SemaphoreOk(s)
  {
  }

  /** Waits with a finite timeout occur only if allowed. */
  ghost predicate Timeouts(steps: seq<Sem.Step>, finiteAllowed: bool) {
    forall j :: 0 <= j < |steps| && steps[j].Wait? ==> steps[j].timeout != Finite || finiteAllowed
  }

  /** In the last state of every run from a state without timed waiters no thread is starved. */
  ghost predicate NeverStarved(finiteAllowed: bool) {
    forall ss: seq<Sem.Semaphore>, steps: seq<Sem.Step> ::
      Sem.Run(ss, steps) && Sem.UntimedOk(ss[0]) && Timeouts(steps, finiteAllowed) ==> !Starved(ss[|steps|])
  }

  /** "Nobody waits while a resource is available" holds in all runs exactly when no timeout is finite. */
  lemma NeverStarvedIff(finiteAllowed: bool)
    ensures NeverStarved(finiteAllowed) <==> !finiteAllowed
  {
    if finiteAllowed {
      var ss, steps := StarvedWaiter();
      assert Timeouts(steps, finiteAllowed);
    } else {
      forall ss: seq<Sem.Semaphore>, steps: seq<Sem.Step> |
        Sem.Run(ss, steps) && Sem.UntimedOk(ss[0]) && Timeouts(steps, finiteAllowed)
        ensures !Starved(ss[|steps|])
      {
        Sem.UntimedRun(ss, steps, |steps|);
      }
    }
  }
}

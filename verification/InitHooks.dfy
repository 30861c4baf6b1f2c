/**
 * lk_init_level of top/init.c: the table of init hooks is rescanned for each call, and
 * the hooks are called in the order of a stable sort by level.
 */
module InitHooks {

  /** lk_init_struct, without the function */
  datatype Hook = Hook(flags: bv32, level: nat)

  predicate Matches(h: Hook, flag: bv32) {
    h.flags & flag != 0
  }

  /** The hook is to be called by this range. */
  predicate Selected(hooks: seq<Hook>, flag: bv32, start: nat, stop: nat, i: nat) {
    i < |hooks| && Matches(hooks[i], flag) && start <= hooks[i].level <= stop
  }

  /** By level, and by place in the table among equal levels. */
  predicate Earlier(hooks: seq<Hook>, i: nat, j: nat)
    requires i < |hooks| && j < |hooks|
  {
    hooks[i].level < hooks[j].level || (hooks[i].level == hooks[j].level && i < j)
  }

  // ---- the reference order ----

  /** The matching hooks of one level from index `i` on, in table order. */
  function AtLevel(hooks: seq<Hook>, flag: bv32, level: nat, i: nat): seq<nat>
    requires i <= |hooks|
    decreases |hooks| - i
  {
    if i == |hooks| then []
    else if Matches(hooks[i], flag) && hooks[i].level == level then [i] + AtLevel(hooks, flag, level, i + 1)
    else AtLevel(hooks, flag, level, i + 1)
  }

  /** Level by level, each in table order. */
  function StableOrder(hooks: seq<Hook>, flag: bv32, start: nat, stop: nat): seq<nat>
    decreases stop + 1 - start
  {
    if start > stop then [] else AtLevel(hooks, flag, start, 0) + StableOrder(hooks, flag, start + 1, stop)
  }

  /** Consecutive ranges, as top/main.c issues them, call what the whole range would, in the same order. */
  lemma {:induction false} RangesConcatenate(hooks: seq<Hook>, flag: bv32, a: nat, b: nat, c: nat)
    requires a <= b <= c + 1 && b > 0
    ensures StableOrder(hooks, flag, a, c) == StableOrder(hooks, flag, a, b - 1) + StableOrder(hooks, flag, b, c)
    decreases b - a
  {
    if a < b {
      RangesConcatenate(hooks, flag, a + 1, b, c);
      assert StableOrder(hooks, flag, a, c) ==
             AtLevel(hooks, flag, a, 0)
             + (StableOrder(hooks, flag, a + 1, b - 1) + StableOrder(hooks, flag, b, c));
    }
  }

  /** The traces of the ranges between `bounds`, one after the other; the last one is up to `stop`. */
  function Ranges(hooks: seq<Hook>, flag: bv32, bounds: seq<nat>, stop: nat): seq<nat>
    requires bounds != [] && forall k :: 0 <= k < |bounds| ==> bounds[k] > 0
  {
    if |bounds| == 1 then StableOrder(hooks, flag, bounds[0], stop)
    else StableOrder(hooks, flag, bounds[0], bounds[1] - 1) + Ranges(hooks, flag, bounds[1..], stop)
  }

  lemma {:induction false} AllRanges(hooks: seq<Hook>, flag: bv32, bounds: seq<nat>, stop: nat)
    requires bounds != [] && forall k :: 0 <= k < |bounds| ==> bounds[k] > 0
    requires forall k :: 0 <= k < |bounds| - 1 ==> bounds[k] <= bounds[k + 1]
    requires bounds[|bounds| - 1] <= stop + 1
    ensures bounds[0] <= stop + 1
    ensures Ranges(hooks, flag, bounds, stop) == StableOrder(hooks, flag, bounds[0], stop)
  {
    if |bounds| > 1 {
      assert bounds[0] <= bounds[0 + 1];
      var rest := bounds[1..];
      forall k | 0 <= k < |rest| - 1
        ensures rest[k] <= rest[k + 1]
      {
        assert bounds[k + 1] <= bounds[k + 1 + 1];
      }
      AllRanges(hooks, flag, bounds[1..], stop);
      RangesConcatenate(hooks, flag, bounds[0], bounds[1], stop);
    }
  }

  /** The levels at which top/main.c splits the boot sequence, and the highest level. */
  const BOOT_LEVELS: seq<nat> :=
    [1, 0x10000, 0x20000, 0x30000, 0x40000, 0x60000, 0x70000, 0x80000, 0x90000, 0xa0000, 0xb0000]
  const LEVEL_LAST: nat := 0xffff_ffff

  /** The eleven calls of the boot sequence run every hook of the boot CPU once, in stable order. */
  lemma BootOrder(hooks: seq<Hook>, flag: bv32)
    ensures Ranges(hooks, flag, BOOT_LEVELS, LEVEL_LAST) == StableOrder(hooks, flag, 1, LEVEL_LAST)
  {
    AllRanges(hooks, flag, BOOT_LEVELS, LEVEL_LAST);
  }

  // ---- the order determines the trace ----

  ghost predicate Ordered(hooks: seq<Hook>, t: seq<nat>) {
    && (forall k :: 0 <= k < |t| ==> t[k] < |hooks|)
    && forall k, l :: 0 <= k < l < |t| ==> Earlier(hooks, t[k], t[l])
  }

  /** Exactly the selected hooks, each once, in order. */
  ghost predicate IsTrace(hooks: seq<Hook>, flag: bv32, start: nat, stop: nat, t: seq<nat>) {
    Ordered(hooks, t) && forall i: nat :: i in t <==> Selected(hooks, flag, start, stop, i)
  }

  lemma {:induction false} OrderedUnique(hooks: seq<Hook>, t: seq<nat>, u: seq<nat>)
    requires Ordered(hooks, t) && Ordered(hooks, u) && forall i :: i in t <==> i in u
    ensures t == u
  {
    assert |t| > 0 ==> t[0] in t;
    assert |u| > 0 ==> u[0] in u;
    if t != [] {
      assert forall i :: i in t[1..] <==> i in t && i != t[0];
      assert forall i :: i in u[1..] <==> i in u && i != u[0];
      OrderedUnique(hooks, t[1..], u[1..]);
    }
  }

  lemma OrderedCons(hooks: seq<Hook>, i: nat, r: seq<nat>)
    requires i < |hooks| && Ordered(hooks, r) && forall k :: 0 <= k < |r| ==> Earlier(hooks, i, r[k])
    ensures Ordered(hooks, [i] + r)
  {
  }

  lemma {:induction false} AtLevelIs(hooks: seq<Hook>, flag: bv32, level: nat, i: nat)
    requires i <= |hooks|
    ensures var t := AtLevel(hooks, flag, level, i);
            && (forall j: nat :: j in t <==> i <= j && Selected(hooks, flag, level, level, j))
            && Ordered(hooks, t)
    decreases |hooks| - i
  {
    if i < |hooks| {
      AtLevelIs(hooks, flag, level, i + 1);
      var r := AtLevel(hooks, flag, level, i + 1);
      assert forall k :: 0 <= k < |r| ==> r[k] in r;
      if Matches(hooks[i], flag) && hooks[i].level == level {
        assert forall j: nat :: j in [i] + r <==> j == i || j in r;
        OrderedCons(hooks, i, r);
      }
    }
  }

  /** The reference order is the stable sort: it holds exactly the selected hooks, ordered. */
  lemma {:induction false} StableOrderIs(hooks: seq<Hook>, flag: bv32, start: nat, stop: nat)
    ensures IsTrace(hooks, flag, start, stop, StableOrder(hooks, flag, start, stop))
    decreases stop + 1 - start
  {
    if start <= stop {
      AtLevelIs(hooks, flag, start, 0);
      StableOrderIs(hooks, flag, start + 1, stop);
      var a, b := AtLevel(hooks, flag, start, 0), StableOrder(hooks, flag, start + 1, stop);
      assert forall k :: 0 <= k < |a| ==> a[k] in a;
      assert forall k :: 0 <= k < |b| ==> b[k] in b;
      forall i: nat
        ensures i in a + b <==> Selected(hooks, flag, start, stop, i)
      {
        assert i in a + b <==> i in a || i in b;
      }
    }
  }

  // ---- the scan ----

  /** The hook comes after the last one called: index `last` at level `lastLevel`, or none if `last` is negative. */
  predicate After(hooks: seq<Hook>, flag: bv32, start: nat, stop: nat, lastLevel: int, last: int, i: nat) {
    && Selected(hooks, flag, start, stop, i)
    && (hooks[i].level > lastLevel || (hooks[i].level == lastLevel && 0 <= last < i))
  }

  /** The inner loop: the first hook after the last one called, or -1. */
  method FindNext(hooks: seq<Hook>, flag: bv32, start: nat, stop: nat, lastLevel: int, last: int) returns (found: int)
    requires last < |hooks| && (if last < 0 then lastLevel == start - 1 else lastLevel >= start)
    ensures found < |hooks|
    ensures found < 0 ==> forall i: nat :: !After(hooks, flag, start, stop, lastLevel, last, i)
    ensures found >= 0 ==>
              After(hooks, flag, start, stop, lastLevel, last, found)
              && forall i: nat :: After(hooks, flag, start, stop, lastLevel, last, i) && i != found ==> Earlier(hooks, found, i)
  {
    hide Matches;
    found := -1;
    var seenLast := false;
    var ptr: nat := 0;
    while ptr < |hooks|
      invariant ptr <= |hooks| && seenLast == (0 <= last < ptr) && found < ptr
      invariant forall i: nat :: i < ptr && Selected(hooks, flag, start, stop, i) && hooks[i].level == lastLevel ==> last < 0 || i <= last
      invariant found < 0 ==> forall i: nat :: i < ptr ==> !After(hooks, flag, start, stop, lastLevel, last, i)
      invariant found >= 0 ==> Selected(hooks, flag, start, stop, found) && hooks[found].level > lastLevel
      invariant found >= 0 ==>
                  forall i: nat :: i < ptr && After(hooks, flag, start, stop, lastLevel, last, i) && i != found ==>
                    Earlier(hooks, found, i)
    {
      if ptr == last {
        seenLast := true;
      }
      var hook := hooks[ptr];
      if !Matches(hook, flag) || hook.level > stop || hook.level < lastLevel
         || (found >= 0 && hooks[found].level <= hook.level) {
        // rejected
      } else if hook.level >= start && hook.level > lastLevel {
        found := ptr;
      } else if hook.level == lastLevel && ptr != last && seenLast {
        found := ptr;
        break;
      }
      ptr := ptr + 1;
    }
  }

  /** lk_init_level: the hooks it calls, in the order of the calls. */
  method LkInitLevel(hooks: seq<Hook>, flag: bv32, start: nat, stop: nat) returns (trace: seq<nat>)
    requires start > 0
    ensures trace == StableOrder(hooks, flag, start, stop)
    ensures IsTrace(hooks, flag, start, stop, trace)
  {
    var lastLevel: int := start - 1;
    var last := -1;
    trace := [];
    while true
      invariant last < |hooks| && lastLevel >= start - 1 && (last < 0 ==> lastLevel == start - 1)
      invariant last >= 0 ==> Selected(hooks, flag, start, stop, last) && hooks[last].level == lastLevel
      invariant Ordered(hooks, trace)
      invariant forall i: nat :: i in trace <==> Selected(hooks, flag, start, stop, i) && !After(hooks, flag, start, stop, lastLevel, last, i)
      decreases stop - lastLevel, |hooks| - last
    {
      var found := FindNext(hooks, flag, start, stop, lastLevel, last);
      if found < 0 {
        break;
      }
      Called(hooks, flag, start, stop, lastLevel, last, found, trace);
      trace := trace + [found];
      lastLevel := hooks[found].level;
      last := found;
    }
    StableOrderIs(hooks, flag, start, stop);
    OrderedUnique(hooks, trace, StableOrder(hooks, flag, start, stop));
  }

  lemma Called(hooks: seq<Hook>, flag: bv32, start: nat, stop: nat, lastLevel: int, last: int, found: nat, trace: seq<nat>)
    requires last < |hooks| && lastLevel >= start - 1 && (last < 0 ==> lastLevel == start - 1)
    requires Ordered(hooks, trace) && After(hooks, flag, start, stop, lastLevel, last, found)
    requires forall i: nat :: After(hooks, flag, start, stop, lastLevel, last, i) && i != found ==> Earlier(hooks, found, i)
    requires forall i: nat :: i in trace <==>
               Selected(hooks, flag, start, stop, i) && !After(hooks, flag, start, stop, lastLevel, last, i)
    ensures Ordered(hooks, trace + [found])
    ensures forall i: nat :: i in trace + [found] <==>
              Selected(hooks, flag, start, stop, i) && !After(hooks, flag, start, stop, hooks[found].level, found, i)
  {
    assert forall k :: 0 <= k < |trace| ==> trace[k] in trace;
    assert forall i: nat :: i in trace + [found] <==> i in trace || i == found;
  }
}

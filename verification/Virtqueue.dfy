/**
 * One ring of dev/virtio/virtio.c: the free list threaded through the descriptors, the
 * descriptor chains, and the available and used rings with their 16-bit indices
 * (section 2.4 of VIRTIO 1.0).
 */
module Virtqueue {
  import opened Basics
  import opened Arith

  /** vring_desc without the buffer; `flags` is 0 or VRING_DESC_F_NEXT. */
  datatype Desc = Desc(flags: int, next: int)

  const F_NEXT: int := 1
  const NONE: int := 0xffff
  const IDX_WRAP: nat := 0x1_0000

  /** What a descriptor is used for. */
  datatype Place = Free | Loose | InChain(head: nat)

  /** `s` is a list through the `next` fields that ends in 0xffff. */
  ghost predicate Linked(d: seq<Desc>, s: seq<nat>) {
    && (forall i :: 0 <= i < |s| ==> s[i] < |d|)
    && (forall i {:trigger d[s[i]]} :: 0 <= i < |s| ==> d[s[i]].next == if i + 1 < |s| then s[i + 1] else NONE)
  }

  /** `c` is a chain: NEXT on all but the last. */
  ghost predicate Chained(d: seq<Desc>, c: seq<nat>) {
    && (forall i :: 0 <= i < |c| ==> c[i] < |d|)
    && (forall i {:trigger d[c[i]]} :: 0 <= i < |c| ==>
          d[c[i]] == if i + 1 < |c| then Desc(F_NEXT, c[i + 1]) else Desc(0, 0))
  }

  ghost function Elements(s: seq<nat>): set<nat> {
    set x | x in s
  }

  lemma ElementsAppend(s: seq<nat>, x: nat)
    ensures Elements(s + [x]) == Elements(s) + {x} && Elements([]) == {}
  {
  }

  function Reverse(s: seq<nat>): seq<nat> {
    if s == [] then [] else Reverse(s[1..]) + [s[0]]
  }

  /** Distinct numbers below `n` are at most `n`. */
  lemma {:induction false} Pigeonhole(s: seq<nat>, n: nat)
    requires NoDup(s) && forall x :: x in s ==> x < n
    ensures |s| <= n
  {
    assert |s| > 0 ==> s[0] in s;
    if n == 0 {
    } else if n - 1 in s {
      var i :| 0 <= i < |s| && s[i] == n - 1;
      var r := s[..i] + s[i + 1..];
      assert forall x :: x in r ==> x in s && x != n - 1;
      Pigeonhole(r, n - 1);
    } else {
      Pigeonhole(s, n - 1);
    }
  }

  /** The 16-bit index names the same slot as the unbounded one. */
  lemma SlotOfIndex(a: nat, shift: nat)
    requires shift <= 15
    ensures Rem(Rem(a, IDX_WRAP), Pow2(shift)) == Rem(a, Pow2(shift))
  {
    Pow2Add(16 - shift, shift);
    TimesIsProduct(Pow2(16 - shift), Pow2(shift));
    Pow2Is16();
    RemOfRem(a, Pow2(16 - shift), Pow2(shift));
  }

  lemma Pow2Is16()
    ensures Pow2(16) == IDX_WRAP
  {
    assert Pow2(4) == 16;
    Pow2Add(4, 4);
    Pow2Add(8, 8);
  }

  lemma RingSize(shift: nat)
    requires shift <= 15
    ensures 0 < Pow2(shift) < NONE
  {
    Pow2Monotone(shift, 15);
    Pow2Add(1, 15);
    Pow2Is16();
  }

  lemma IndexNext(a: nat)
    ensures Rem(Rem(a, IDX_WRAP) + 1, IDX_WRAP) == Rem(a + 1, IDX_WRAP)
  {
    NextSlot(a, IDX_WRAP);
  }

  // ---- the free list and the chains ----

  /** Free list and chains partition the descriptors, with those allocated one at a time. */
  ghost predicate DescsOk(d: seq<Desc>, place: seq<Place>, free: seq<nat>, chains: map<nat, seq<nat>>) {
    && |place| == |d| && NoDup(free) && Linked(d, free)
    && (forall i: nat :: i in free <==> i < |d| && place[i] == Free)
    && (forall h :: h in chains ==> chains[h] != [] && chains[h][0] == h && NoDup(chains[h]) && Chained(d, chains[h]))
    && (forall h, i: nat :: h in chains ==> (i in chains[h] <==> i < |d| && place[i] == InChain(h)))
    && (forall i :: 0 <= i < |d| && place[i].InChain? ==> place[i].head in chains)
  }

  /** Every descriptor is free, allocated on its own, or in exactly one chain. */
  lemma Partition(d: seq<Desc>, place: seq<Place>, free: seq<nat>, chains: map<nat, seq<nat>>, i: nat)
    requires DescsOk(d, place, free, chains) && i < |d|
    ensures i in free ==> place[i] == Free && forall h :: h in chains ==> i !in chains[h]
    ensures i !in free && place[i] != Loose ==>
              exists h :: h in chains && i in chains[h] && forall g :: g in chains && i in chains[g] ==> g == h
  {
    if place[i].InChain? {
      assert i in chains[place[i].head];
    }
  }

  lemma LinkedCons(d: seq<Desc>, free: seq<nat>, i: nat)
    requires Linked(d, free) && NoDup(free) && i < |d| && i !in free
    ensures var next := if free == [] then NONE else free[0];
            Linked(d[i := d[i].(next := next)], [i] + free) && NoDup([i] + free)
  {
    assert forall k :: 0 <= k < |free| ==> free[k] in free && free[k] != i;
  }

  lemma LinkedTail(d: seq<Desc>, free: seq<nat>, v: Desc)
    requires Linked(d, free) && NoDup(free) && free != []
    ensures Linked(d[free[0] := v], free[1..]) && NoDup(free[1..]) && free[0] !in free[1..]
  {
    var r := free[1..];
    assert forall k :: 0 <= k < |r| ==> r[k] == free[k + 1] && free[k + 1] != free[0];
    forall k | 0 <= k < |r|
      ensures r[k] < |d| && d[free[0] := v][r[k]].next == if k + 1 < |r| then r[k + 1] else NONE
    {
      var j := k + 1;
      assert r[k] == free[j] && d[free[j]].next == if j + 1 < |free| then free[j + 1] else NONE;
    }
  }

  /** A descriptor that was allocated on its own is returned to the head of the free list. */
  lemma FreedOk(d: seq<Desc>, place: seq<Place>, free: seq<nat>, chains: map<nat, seq<nat>>, i: nat)
    requires DescsOk(d, place, free, chains) && i < |d| && place[i] == Loose
    ensures var next := if free == [] then NONE else free[0];
            DescsOk(d[i := d[i].(next := next)], place[i := Free], [i] + free, chains)
  {
    var d' := d[i := d[i].(next := if free == [] then NONE else free[0])];
    LinkedCons(d, free, i);
    hide Linked, NoDup;
    forall h | h in chains
      ensures Chained(d', chains[h])
    {
      assert i !in chains[h];
    }
  }

  /** The head of the free list is allocated on its own. */
  lemma AllocatedOk(d: seq<Desc>, place: seq<Place>, free: seq<nat>, chains: map<nat, seq<nat>>, v: Desc)
    requires DescsOk(d, place, free, chains) && free != []
    ensures free[0] < |d| && place[free[0]] == Free
    ensures DescsOk(d[free[0] := v], place[free[0] := Loose], free[1..], chains)
  {
    var i := free[0];
    assert i in free;
    LinkedTail(d, free, v);
    hide Linked, NoDup;
    assert forall j: nat :: j in free[1..] <==> j in free && j != i;
    forall h | h in chains
      ensures Chained(d[i := v], chains[h])
    {
      assert i !in chains[h];
    }
  }

  /** Descriptors allocated on their own become a chain. */
  ghost function Placed(place: seq<Place>, c: seq<nat>, p: Place): seq<Place> {
    seq(|place|, (i: nat) => if i in c then p else if i < |place| then place[i] else p)
  }

  lemma ChainMade(d: seq<Desc>, place: seq<Place>, free: seq<nat>, chains: map<nat, seq<nat>>, c: seq<nat>)
    requires DescsOk(d, place, free, chains) && c != [] && NoDup(c) && Chained(d, c)
    requires forall i :: i in c ==> i < |d| && place[i] == Loose
    ensures DescsOk(d, Placed(place, c, InChain(c[0])), free, chains[c[0] := c])
  {
    assert c[0] in c;
  }

  lemma ChainBroken(d: seq<Desc>, place: seq<Place>, free: seq<nat>, chains: map<nat, seq<nat>>, h: nat)
    requires DescsOk(d, place, free, chains) && h in chains
    ensures DescsOk(d, Placed(place, chains[h], Loose), free, chains - {h})
  {
  }

  // ---- the available and used rings ----

  /** The ring holds every entry of `log` from `done` on, each in the slot of its index. */
  ghost predicate RingOk(ring: seq<nat>, log: seq<nat>, done: nat) {
    && |ring| > 0 && done <= |log| <= done + |ring|
    && forall k: nat :: done <= k < |log| ==> ring[Rem(k, |ring|)] == log[k]
  }

  /** While not all slots are in use, the next entry overwrites none that is still needed. */
  lemma RingPush(ring: seq<nat>, log: seq<nat>, done: nat, x: nat)
    requires RingOk(ring, log, done) && |log| < done + |ring|
    ensures RingOk(ring[Rem(|log|, |ring|) := x], log + [x], done)
    ensures forall k: nat :: done <= k < |log| ==> Rem(k, |ring|) != Rem(|log|, |ring|)
  {
    forall k: nat | done <= k < |log|
      ensures Rem(k, |ring|) != Rem(|log|, |ring|)
    {
      SlotsDiffer(k, |log|, |ring|);
    }
  }

  lemma RingPop(ring: seq<nat>, log: seq<nat>, done: nat)
    requires RingOk(ring, log, done) && done < |log|
    ensures ring[Rem(done, |ring|)] == log[done] && RingOk(ring, log, done + 1)
  {
  }

  /** Submitted, taken by the device, completed: a chain is in at most one of these, once. */
  ghost predicate FlightOk(chains: set<nat>, pending: seq<nat>, device: set<nat>, completed: seq<nat>) {
    && NoDup(pending) && NoDup(completed)
    && (forall h :: h in pending ==> h in chains && h !in device && h !in completed)
    && (forall h :: h in completed ==> h in chains && h !in device)
    && device <= chains
  }

  lemma FlightTaken(chains: set<nat>, log: seq<nat>, seen: nat, device: set<nat>, completed: seq<nat>)
    requires seen < |log| && FlightOk(chains, log[seen..], device, completed)
    ensures log[seen] in chains && FlightOk(chains, log[seen + 1..], device + {log[seen]}, completed)
  {
    var p, q := log[seen..], log[seen + 1..];
    assert p[0] == log[seen] && q == p[1..];
    assert p[0] in p;
    assert forall h :: h in q ==> h in p && h != p[0];
  }

  lemma FlightSubmitted(chains: set<nat>, log: seq<nat>, seen: nat, device: set<nat>, completed: seq<nat>, h: nat)
    requires seen <= |log| && FlightOk(chains, log[seen..], device, completed)
    requires h in chains && h !in log[seen..] && h !in device && h !in completed
    ensures FlightOk(chains, (log + [h])[seen..], device, completed)
  {
    assert (log + [h])[seen..] == log[seen..] + [h];
    assert forall x :: x in log[seen..] + [h] <==> x in log[seen..] || x == h;
    assert forall i :: 0 <= i < |log[seen..]| ==> log[seen..][i] in log[seen..];
  }

  lemma FlightStarted(chains: set<nat>, pending: seq<nat>, device: set<nat>, log: seq<nat>, taken: nat)
    requires taken < |log| && FlightOk(chains, pending, device, log[taken..])
    ensures FlightOk(chains, pending, device, log[taken + 1..])
    ensures log[taken] in chains && log[taken] !in pending && log[taken] !in device && log[taken] !in log[taken + 1..]
  {
    var p, q := log[taken..], log[taken + 1..];
    assert p[0] == log[taken] && q == p[1..];
    assert p[0] in p;
    assert forall h :: h in q ==> h in p && h != p[0];
  }

  lemma FlightCompleted(chains: set<nat>, pending: seq<nat>, device: set<nat>, log: seq<nat>, taken: nat, h: nat)
    requires taken <= |log| && FlightOk(chains, pending, device, log[taken..]) && h in device
    ensures FlightOk(chains, pending, device - {h}, (log + [h])[taken..])
  {
    assert (log + [h])[taken..] == log[taken..] + [h];
    assert forall x :: x in log[taken..] + [h] <==> x in log[taken..] || x == h;
    assert forall i :: 0 <= i < |log[taken..]| ==> log[taken..][i] in log[taken..];
  }

  lemma HeadsBelow(d: seq<Desc>, place: seq<Place>, free: seq<nat>, chains: map<nat, seq<nat>>, h: nat)
    requires DescsOk(d, place, free, chains) && h in chains
    ensures h < |d|
  {
    assert chains[h][0] in chains[h];
  }

  /** A chain that is not pending leaves room in the available ring: pigeonhole on the chain heads. */
  lemma RoomFor(d: seq<Desc>, place: seq<Place>, free: seq<nat>, chains: map<nat, seq<nat>>, l: seq<nat>, h: nat)
    requires DescsOk(d, place, free, chains) && NoDup(l) && (forall x :: x in l ==> x in chains)
    requires h in chains && h !in l
    ensures |l| < |d|
  {
    var l' := l + [h];
    assert forall i :: 0 <= i < |l| ==> l[i] in l;
    forall x | x in l'
      ensures x < |d|
    {
      HeadsBelow(d, place, free, chains, x);
    }
    Pigeonhole(l', |d|);
  }

  class Vring {
    const shift: nat
    const num: nat
    const desc: array<Desc>
    const avail: array<nat>
    const used: array<nat>
    var freeList: int
    var freeCount: nat
    var availIdx: nat
    /** the device's own index into the available ring, and the chains it holds */
    var deviceIdx: nat
    var device: set<nat>
    var usedIdx: nat
    var lastUsed: nat

    /** the free list, the chains by their heads, and the place of each descriptor */
    ghost var free: seq<nat>
    ghost var chains: map<nat, seq<nat>>
    ghost var place: seq<Place>
    /** all submissions, and how many the device has taken */
    ghost var log: seq<nat>
    ghost var seen: nat
    /** all completions, how many callbacks have started, and how many the loop has passed */
    ghost var usedLog: seq<nat>
    ghost var taken: nat
    ghost var handled: nat

    ghost predicate Sizes() {
      && shift <= 15 && num == Pow2(shift) && desc.Length == num && avail.Length == num && used.Length == num
      && avail != used
    }

    ghost predicate FreeOk()
      reads this`free, this`chains, this`place, this`freeList, this`freeCount, desc
    {
      && DescsOk(desc[..], place, free, chains)
      && freeCount == |free| && freeList == if free == [] then NONE else free[0]
    }

    ghost predicate AvailOk()
      reads this`log, this`seen, this`availIdx, this`deviceIdx, avail
    {
      RingOk(avail[..], log, seen) && availIdx == Rem(|log|, IDX_WRAP) && deviceIdx == Rem(seen, IDX_WRAP)
    }

    ghost predicate UsedOk()
      reads this`usedLog, this`handled, this`taken, this`usedIdx, this`lastUsed, used
      requires num > 0
    {
      && RingOk(used[..], usedLog, taken) && usedIdx == Rem(|usedLog|, IDX_WRAP) && lastUsed == Rem(handled, num)
      && handled <= taken <= |usedLog|
    }

    ghost predicate Valid()
      reads this, desc, avail, used
    {
      && Sizes() && FreeOk() && AvailOk() && UsedOk()
      && FlightOk(chains.Keys, log[seen..], device, usedLog[taken..])
    }

    /** The part of virtio_alloc_ring that sets up a ring of 2^shift descriptors: all of them end up free. */
    constructor (shift: nat)
      requires shift <= 15
      ensures Valid() && this.shift == shift && fresh(desc) && fresh(avail) && fresh(used)
      ensures num == Pow2(shift) == |free| && (forall i: nat :: i in free <==> i < num) && chains == map[]
      ensures Quiet() && log == [] && usedLog == [] && taken == handled == 0
    {
      var n := Pow2(shift);
      this.shift, num := shift, n;
      desc := new Desc[n](_ => Desc(0, 0));
      avail := new nat[n](_ => 0);
      used := new nat[n](_ => 0);
      freeList, freeCount, availIdx, deviceIdx, usedIdx, lastUsed := NONE, 0, 0, 0, 0, 0;
      free, chains, place := [], map[], seq(n, _ => Loose);
      log, seen, device, usedLog, taken, handled := [], 0, {}, [], 0, 0;
      new;
      assert Setup(0);
      hide *;
      var i: nat := 0;
      while i < n
        invariant i <= n == num && this.shift == shift && Setup(i) && fresh(desc) && fresh(avail) && fresh(used)
      {
        SetupOne(i);
        i := i + 1;
      }
      SetupDone();
    }

    /** The first `i` descriptors are free, the others not yet, and nothing else has happened. */
    ghost predicate Setup(i: nat)
      reads this, desc, avail, used
    {
      && Valid() && i <= num == |place| && |free| == i && (forall j :: 0 <= j < num ==> place[j] == if j < i then Free else Loose)
      && chains == map[] && log == [] && device == {} && usedLog == [] && taken == 0
    }

    method SetupOne(i: nat)
      requires Setup(i) && i < num
      modifies desc, this`freeList, this`freeCount, this`free, this`place
      ensures Setup(i + 1)
    {
      hide FreeOk, AvailOk, UsedOk, FlightOk;
      FreeDesc(i);
    }

    lemma SetupDone()
      requires Setup(num)
      ensures Valid() && |free| == num == Pow2(shift) && (forall i: nat :: i in free <==> i < num) && chains == map[]
      ensures log == [] && device == {} && usedLog == [] && taken == 0
    {
    }

    /** The chain at `h` is allocated, and not on its way to or from the device. */
    ghost predicate Idle(h: nat)
      reads this
      requires seen <= |log| && taken <= |usedLog|
    {
      h in chains && h !in log[seen..] && h !in device && h !in usedLog[taken..]
    }

    /** virtio_free_desc */
    method FreeDesc(i: nat)
      requires Valid() && i < num && place[i] == Loose
      modifies desc, this`freeList, this`freeCount, this`free, this`place
      ensures Valid() && free == [i] + old(free) && place == old(place)[i := Free]
      ensures forall j :: 0 <= j < num && j != i ==> desc[j] == old(desc[j])
    {
      hide AvailOk, UsedOk, FlightOk;
      RingSize(shift);
      FreedOk(desc[..], place, free, chains, i);
      ghost var d := desc[..];
      desc[i] := desc[i].(next := freeList);
      assert desc[..] == d[i := d[i].(next := freeList)];
      freeList := i;
      freeCount := freeCount + 1;
      free, place := [i] + free, place[i := Free];
    }

    /** virtio_alloc_desc */
    method AllocDesc() returns (i: int)
      requires Valid()
      modifies this`freeList, this`freeCount, this`free, this`place
      ensures Valid()
      ensures old(free) == [] ==> i == NONE && free == [] && place == old(place)
      ensures old(free) != [] ==>
                i == old(free[0]) && 0 <= i < num && free == old(free[1..]) && place == old(place)[i := Loose]
    {
      hide AvailOk, UsedOk, FlightOk;
      if freeCount == 0 {
        return NONE;
      }
      i := freeList;
      AllocatedOk(desc[..], place, free, chains, desc[i]);
      assert desc[..][i := desc[i]] == desc[..];
      assert free[0] in free;
      assert desc[free[0]].next == if 1 < |free| then free[1] else NONE;
      freeList := desc[i].next;
      freeCount := freeCount - 1;
      free, place := free[1..], place[i := Loose];
    }

    /** virtio_alloc_desc_chain; `found` is false where the source returns NULL. */
    method AllocDescChain(count: nat) returns (found: bool, start: nat)
      requires Valid()
      modifies desc, this`freeList, this`freeCount, this`free, this`chains, this`place
      ensures Valid() && found == (0 < count <= |old(free)|)
      ensures !found ==> free == old(free) && chains == old(chains) && place == old(place) && desc[..] == old(desc[..])
      ensures found ==>
                && free == old(free[count..]) && start !in old(chains) && Idle(start)
                && chains == old(chains)[start := Reverse(old(free[..count]))] && |chains[start]| == count
    {
      hide *;
      Facts();
      NothingBuilt();
      start := 0;
      if freeCount < count {
        return false, 0;
      }
      ghost var free0, place0, d0 := free, place, desc[..];
      ghost var c: seq<nat>, k: nat := [], 0;
      assert free0[..0] == [] && free0[0..] == free0;
      var left := count;
      while left > 0
        invariant k + left == count <= |free0| && |c| == k && Valid() && chains == old(chains)
        invariant free == free0[k..] && c == Reverse(free0[..k]) && (k == 0 ==> desc[..] == d0 && place == place0)
        invariant BuiltOk(c) && (c != [] ==> start == c[0])
      {
        ghost var i0 := free[0];
        start := PushFront(c, left == count, start);
        ReverseAppend(free0, k);
        c := [i0] + c;
        k := k + 1;
        left := left - 1;
      }
      if count == 0 {
        return false, start;
      }
      Record(c);
      return true, start;
    }

    lemma Facts()
      requires Valid()
      ensures freeCount == |free| && seen <= |log| && taken <= |usedLog|
    {
    }

    lemma NothingBuilt()
      ensures BuiltOk([]) && Reverse([]) == []
    {
    }

    /** A finished chain is recorded. */
    ghost method Record(c: seq<nat>)
      requires Valid() && BuiltOk(c) && c != []
      modifies this`chains, this`place
      ensures Valid() && c[0] !in old(chains) && Idle(c[0]) && chains == old(chains)[c[0] := c]
    {
      NotYetAChain(c);
      ChainMade(desc[..], place, free, chains, c);
      hide DescsOk, AvailOk, UsedOk, Placed;
      place := Placed(place, c, InChain(c[0]));
      chains := chains[c[0] := c];
    }

    /** A driver returns a chain: it follows the NEXT flags from the head and frees each descriptor. */
    method FreeChain(h: nat)
      requires Valid() && h in chains && h !in log[seen..] && h !in device && h !in usedLog[taken..]
      modifies desc, this`freeList, this`freeCount, this`free, this`chains, this`place
      ensures Valid() && chains == old(chains) - {h} && free == Reverse(old(chains[h])) + old(free)
    {
      hide *;
      Facts();
      NothingBuilt();
      ghost var c, k: nat := chains[h], 0;
      Forget(h);
      var i := h;
      assert c[0..] == c && c[..0] == [];
      while true
        invariant Valid() && k < |c| && i == c[k] && chains == old(chains) - {h} && BuiltOk(c[k..])
        invariant free == Reverse(c[..k]) + old(free)
        decreases |c| - k
      {
        SplitFirst(c, k);
        var last, next := FreeFront(c[k..], i);
        ReverseAppend(c, k);
        assert [c[k]] + (Reverse(c[..k]) + old(free)) == Reverse(c[..k + 1]) + old(free);
        k := k + 1;
        if last {
          break;
        }
        i := next;
      }
      assert c[..k] == c;
    }

    /** One turn of that loop: the first descriptor of the rest of the chain is freed. */
    method FreeFront(ghost c: seq<nat>, i: nat) returns (last: bool, next: nat)
      requires Valid() && BuiltOk(c) && c != [] && i == c[0]
      modifies desc, this`freeList, this`freeCount, this`free, this`place
      ensures Valid() && free == [i] + old(free) && BuiltOk(c[1..])
      ensures last == (|c| == 1) && (!last ==> next == c[1])
    {
      assert i in c && desc[c[0]] == if 1 < |c| then Desc(F_NEXT, c[1]) else Desc(0, 0);
      last, next := desc[i].flags != F_NEXT, desc[i].next;
      ghost var d := desc[..];
      FreeDesc(i);
      hide FreeOk, AvailOk, UsedOk, FlightOk;
      ChainShrunk(d, desc[..], c);
      assert forall k :: k in c[1..] ==> k in c && k != i;
    }

    /** The descriptors of a chain are no longer recorded as one. */
    ghost method Forget(h: nat)
      requires Valid() && h in chains && h !in log[seen..] && h !in device && h !in usedLog[taken..]
      modifies this`chains, this`place
      ensures Valid() && chains == old(chains) - {h} && old(chains[h]) != [] && old(chains[h][0]) == h
      ensures BuiltOk(old(chains[h]))
    {
      ChainBroken(desc[..], place, free, chains, h);
      place := Placed(place, chains[h], Loose);
      chains := chains - {h};
    }

    lemma RoomToSubmit(h: nat)
      requires Valid() && Idle(h)
      ensures |log| < seen + num
    {
      RoomFor(desc[..], place, free, chains, log[seen..], h);
    }

    /** virtio_submit_chain: no entry that the device has not taken is overwritten. */
    method Submit(h: nat)
      requires Valid() && Idle(h)
      modifies avail, this`availIdx, this`log
      ensures Valid() && log == old(log) + [h]
      ensures forall k: nat :: seen <= k < |old(log)| ==> avail[Rem(k, num)] == old(avail[Rem(k, num)]) == log[k]
    {
      hide FreeOk, UsedOk, FlightOk;
      Facts();
      RoomToSubmit(h);
      RingPush(avail[..], log, seen, h);
      SlotOfIndex(|log|, shift);
      IndexNext(|log|);
      FlightSubmitted(chains.Keys, log, seen, device, usedLog[taken..], h);
      ghost var a := avail[..];
      avail[Rem(availIdx, num)] := h;
      assert avail[..] == a[Rem(|log|, num) := h];
      availIdx := Rem(availIdx + 1, IDX_WRAP);
      log := log + [h];
    }

    /** The device takes the next available chain: it finds the one that was submitted in this turn. */
    method DeviceTakes() returns (h: nat)
      requires Valid() && seen < |log|
      modifies this`deviceIdx, this`seen, this`device
      ensures Valid() && h == log[old(seen)] && h in chains
      ensures seen == old(seen) + 1 && device == old(device) + {h}
    {
      hide FreeOk, UsedOk, FlightOk;
      Facts();
      RingPop(avail[..], log, seen);
      FlightTaken(chains.Keys, log, seen, device, usedLog[taken..]);
      SlotOfIndex(seen, shift);
      IndexNext(seen);
      h := avail[Rem(deviceIdx, num)];
      deviceIdx := Rem(deviceIdx + 1, IDX_WRAP);
      seen, device := seen + 1, device + {h};
    }

    lemma RoomToComplete(h: nat)
      requires Valid() && h in device
      ensures |usedLog| < taken + num
    {
      RoomFor(desc[..], place, free, chains, usedLog[taken..], h);
    }

    /** The device completes a chain that it holds, also while a callback runs. */
    method DeviceCompletes(h: nat)
      requires Valid() && h in device
      modifies used, this`usedIdx, this`usedLog, this`device
      ensures Valid() && usedLog == old(usedLog) + [h] && device == old(device) - {h}
      ensures forall k: nat :: taken <= k < |old(usedLog)| ==> used[Rem(k, num)] == old(used[Rem(k, num)])
    {
      hide FreeOk, AvailOk, FlightOk;
      Facts();
      RoomToComplete(h);
      RingPush(used[..], usedLog, taken, h);
      SlotOfIndex(|usedLog|, shift);
      IndexNext(|usedLog|);
      FlightCompleted(chains.Keys, log[seen..], device, usedLog, taken, h);
      ghost var u := used[..];
      used[Rem(usedIdx, num)] := h;
      assert used[..] == u[Rem(|usedLog|, num) := h];
      usedIdx := Rem(usedIdx + 1, IDX_WRAP);
      usedLog := usedLog + [h];
      device := device - {h};
    }

    /** Any number of steps of the device. */
    method DeviceRuns()
      requires Valid()
      modifies used, this`usedIdx, this`usedLog, this`device, this`deviceIdx, this`seen
      ensures Valid() && old(usedLog) <= usedLog
      ensures forall h :: old(Idle(h)) ==> Idle(h)
    {
      hide *;
      Facts();
      var steps: int := *;
      while steps > 0
        invariant Valid() && seen <= |log| && taken <= |usedLog| && old(usedLog) <= usedLog
        invariant forall h :: old(Idle(h)) ==> Idle(h)
      {
        DeviceStep();
        steps := steps - 1;
      }
    }

    method DeviceStep()
      requires Valid()
      modifies used, this`usedIdx, this`usedLog, this`device, this`deviceIdx, this`seen
      ensures Valid() && seen <= |log| && taken <= |usedLog| && old(usedLog) <= usedLog
      ensures forall h :: old(Idle(h)) ==> Idle(h)
    {
      hide FreeOk, AvailOk, UsedOk, FlightOk;
      Facts();
      var take: bool := *;
      if take && deviceIdx != availIdx {
        NotAllSeen();
        ghost var l := log[seen..];
        var h := DeviceTakes();
        assert l == [h] + log[seen..];
      } else if device != {} {
        var h :| h in device;
        ghost var u := usedLog[taken..];
        DeviceCompletes(h);
        assert usedLog[taken..] == u + [h];
      }
      Facts();
    }

    lemma NotAllSeen()
      requires Valid() && deviceIdx != availIdx
      ensures seen < |log|
    {
    }

    /** The number of completions that the used-ring loop has not handled. */
    ghost function Waiting(): int
      reads this
    {
      |usedLog| - handled
    }

    /**
     * The used-ring loop of virtio_mmio_irq, with a driver callback that returns the chain.
     * It handles, in order, the completions that were there when it read the index, whatever
     * the device does meanwhile, unless the whole ring was waiting: then it sees none.
     */
    method HandleUsed() returns (ghost ids: seq<nat>)
      requires Valid() && taken == handled
      modifies this`lastUsed, this`handled, this`taken
      modifies desc, this`freeList, this`freeCount, this`free, this`chains, this`place
      modifies used, this`usedIdx, this`usedLog, this`device, this`deviceIdx, this`seen
      ensures Valid() && taken == handled && old(usedLog) <= usedLog
      ensures 0 <= old(Waiting()) <= num
      ensures old(Waiting()) == num ==> ids == [] && handled == old(handled)
      ensures old(Waiting()) < num ==> ids == old(usedLog[handled..]) && handled == |old(usedLog)|
      ensures chains == old(chains) - Elements(ids)
    {
      hide *;
      Facts();
      Guard(|usedLog|);
      ElementsAppend([], 0);
      ids := [];
      ghost var all, start := usedLog, handled;
      var curIdx := usedIdx;
      var i := lastUsed;
      while i != Rem(curIdx, num)
        invariant Valid() && taken == handled && i == lastUsed && 0 < num && all <= usedLog
        invariant start <= handled <= |all| && |all| - handled <= |all| - start <= num
        invariant i == Rem(curIdx, num) <==> |all| - handled == 0 || |all| - handled == num
        invariant ids == all[start..handled] && chains == old(chains) - Elements(ids)
        invariant |all| - start == num ==> i == Rem(curIdx, num) && ids == []
        decreases |all| - handled
      {
        ghost var c := chains;
        var id := HandleOne();
        ElementsAppend(ids, id);
        assert c - {id} == old(chains) - (Elements(ids) + {id});
        ids := ids + [id];
        i := Rem(i + 1, num);
        Guard(|all|);
      }
    }

    /** Of the first `n` completions none is left, or all of them, exactly if the positions agree. */
    lemma Guard(n: nat)
      requires Valid() && taken == handled <= n <= |usedLog|
      ensures 0 < num && 0 <= n - handled <= num && Waiting() == |usedLog| - handled
      ensures lastUsed == Rem(Rem(n, IDX_WRAP), num) <==> n == handled || n - handled == num
      ensures usedIdx == Rem(|usedLog|, IDX_WRAP)
    {
      SlotOfIndex(n, shift);
      if n - handled == num {
        FullTurn(handled, num);
      } else if n - handled > 0 {
        SlotsDiffer(handled, n, num);
      }
    }

    /** One turn of the used-ring loop; the device goes on while the callback runs. */
    method HandleOne() returns (id: nat)
      requires Valid() && taken == handled < |usedLog|
      modifies this`lastUsed, this`handled, this`taken
      modifies desc, this`freeList, this`freeCount, this`free, this`chains, this`place
      modifies used, this`usedIdx, this`usedLog, this`device, this`deviceIdx, this`seen
      ensures Valid() && taken == handled == old(handled) + 1 && id == old(usedLog[handled])
      ensures old(usedLog) <= usedLog
      ensures chains == old(chains) - {id} && 0 < num && lastUsed == Rem(old(lastUsed) + 1, num)
    {
      hide *;
      NextId();
      id := used[lastUsed];
      StartCallback();
      DeviceRuns();
      Facts();
      IsIdle(id);
      FreeChain(id);
      DeviceRuns();
      Pass();
    }

    lemma NextId()
      requires Valid() && taken == handled < |usedLog|
      ensures lastUsed < used.Length && used[lastUsed] == usedLog[handled]
    {
      hide FreeOk, AvailOk, FlightOk;
      RingPop(used[..], usedLog, taken);
    }

    lemma IsIdle(h: nat)
      requires Valid() && seen <= |log| && taken <= |usedLog| && Idle(h)
      ensures h in chains && h !in log[seen..] && h !in device && h !in usedLog[taken..]
    {
    }

    /** The loop moves on by one. */
    method Pass()
      requires Valid() && handled < taken
      modifies this`lastUsed, this`handled
      ensures Valid() && handled == old(handled) + 1 && 0 < num && lastUsed == Rem(old(lastUsed) + 1, num)
    {
      hide FreeOk, AvailOk, FlightOk;
      NextSlot(handled, num);
      lastUsed := Rem(lastUsed + 1, num);
      handled := handled + 1;
    }

    /** The callback for the next completion owns its chain. */
    ghost method StartCallback()
      requires Valid() && taken == handled < |usedLog|
      modifies this`taken
      ensures Valid() && taken == old(taken) + 1 && seen <= |log| && taken <= |usedLog|
      ensures usedLog[old(taken)] in chains && Idle(usedLog[old(taken)])
    {
      hide FreeOk, AvailOk, FlightOk;
      Facts();
      RingPop(used[..], usedLog, taken);
      FlightStarted(chains.Keys, log[seen..], device, usedLog, taken);
      taken := taken + 1;
    }

    /** The device holds no chain and has seen every submission. */
    ghost predicate Quiet()
      reads this, desc, avail, used
    {
      Valid() && device == {} && seen == |log|
    }

    lemma QuietMeans()
      requires Quiet()
      ensures Valid() && taken <= |usedLog|
    {
    }

    /** A chain of one descriptor is submitted, taken and completed. */
    method Roundtrip()
      requires Quiet() && free != []
      modifies desc, this`freeList, this`freeCount, this`free, this`chains, this`place
      modifies avail, this`availIdx, this`log, this`deviceIdx, this`seen, this`device
      modifies used, this`usedIdx, this`usedLog
      ensures Quiet() && |free| == |old(free)| - 1 && |usedLog| == |old(usedLog)| + 1
      ensures old(chains.Keys) == Elements(old(usedLog)) ==> chains.Keys == Elements(usedLog)
    {
      hide Valid, Idle, Elements, Reverse, Pow2, Rem;
      Facts();
      var found, h := AllocDescChain(1);
      Submit(h);
      h := DeviceTakes();
      ElementsAppend(usedLog, h);
      DeviceCompletes(h);
      Facts();
    }

    /** The descriptors of `c` are linked into a chain, but not recorded as one yet. */
    ghost predicate BuiltOk(c: seq<nat>)
      reads this, desc
    {
      NoDup(c) && Chained(desc[..], c) && forall i :: i in c ==> i < |place| && place[i] == Loose
    }

    lemma NotYetAChain(c: seq<nat>)
      requires Valid() && BuiltOk(c) && c != []
      ensures c[0] !in chains && c[0] !in log[seen..] && c[0] !in device && c[0] !in usedLog[taken..]
    {
      assert c[0] in c;
    }

    /** One turn of the loop of virtio_alloc_desc_chain: the head of the free list goes to the front of the chain. */
    method PushFront(ghost c: seq<nat>, first: bool, last: nat) returns (i: nat)
      requires Valid() && free != [] && BuiltOk(c) && first == (c == []) && (!first ==> last == c[0])
      modifies desc, this`freeList, this`freeCount, this`free, this`place
      ensures Valid() && i == old(free[0]) && free == old(free[1..]) && BuiltOk([i] + c)
    {
      hide AvailOk, UsedOk, FlightOk;
      assert free[0] in free;
      i := freeList;
      assert desc[i].next == if 1 < |free| then free[1] else NONE;
      ghost var d := desc[..];
      var v := if !first then Desc(F_NEXT, last) else Desc(0, 0);
      AllocatedOk(d, place, free, chains, v);
      freeList := desc[i].next;
      freeCount := freeCount - 1;
      desc[i] := v;
      assert desc[..] == d[i := v];
      ChainGrown(d, c, i);
      free, place := free[1..], place[i := Loose];
    }
  }

  /** Every descriptor is used for a chain, and every chain completed: the loop then runs and handles none of them. */
  method FullRingIsMissed(shift: nat) returns (v: Vring, ghost ids: seq<nat>)
    requires shift <= 15
    ensures ids == []
    ensures fresh(v) && v.Valid() && v.num == Pow2(shift) == v.Waiting()
    ensures v.handled == 0 && v.chains.Keys == Elements(v.usedLog)
  {
    hide *;
    v := new Vring(shift);
    ElementsAppend([], 0);
    var k := 0;
    while k < v.num
      invariant v.Quiet() && fresh(v) && fresh(v.desc) && fresh(v.avail) && fresh(v.used) && v.num == Pow2(shift)
      invariant k <= v.num && |v.free| == v.num - k
      invariant |v.usedLog| == k && v.taken == v.handled == 0 && v.chains.Keys == Elements(v.usedLog)
    {
      v.Roundtrip();
      k := k + 1;
    }
    v.QuietMeans();
    v.Guard(|v.usedLog|);
    ghost var all, chains := v.usedLog, v.chains;
    ids := v.HandleUsed();
    v.Guard(|v.usedLog|);
    assert v.usedLog == all && v.chains.Keys == chains.Keys;
  }

  lemma SplitFirst(c: seq<nat>, k: nat)
    requires k < |c|
    ensures c[k..] == [c[k]] + c[k + 1..] && c[k..][1..] == c[k + 1..]
  {
  }

  lemma ChainGrown(d: seq<Desc>, c: seq<nat>, i: nat)
    requires Chained(d, c) && NoDup(c) && i < |d| && i !in c
    ensures var v := if c != [] then Desc(F_NEXT, c[0]) else Desc(0, 0);
            Chained(d[i := v], [i] + c) && NoDup([i] + c)
  {
    assert forall k :: 0 <= k < |c| ==> c[k] in c && c[k] != i;
  }

  lemma ChainShrunk(d: seq<Desc>, d': seq<Desc>, c: seq<nat>)
    requires Chained(d, c) && NoDup(c) && c != [] && |d'| == |d|
    requires forall j :: 0 <= j < |d| && j != c[0] ==> d'[j] == d[j]
    ensures Chained(d', c[1..]) && NoDup(c[1..]) && c[0] !in c[1..]
  {
    var r := c[1..];
    forall k | 0 <= k < |r|
      ensures r[k] < |d'| && d'[r[k]] == if k + 1 < |r| then Desc(F_NEXT, r[k + 1]) else Desc(0, 0)
    {
      var j := k + 1;
      assert r[k] == c[j] && d[c[j]] == if j + 1 < |c| then Desc(F_NEXT, c[j + 1]) else Desc(0, 0);
    }
  }

  lemma ReverseAppend(s: seq<nat>, k: nat)
    requires k < |s|
    ensures Reverse(s[..k + 1]) == [s[k]] + Reverse(s[..k])
  {
    ReverseOf(s[..k], s[k]);
    assert s[..k + 1] == s[..k] + [s[k]];
  }

  lemma {:induction false} ReverseOf(s: seq<nat>, x: nat)
    ensures Reverse(s + [x]) == [x] + Reverse(s)
  {
    if s != [] {
      assert (s + [x])[1..] == s[1..] + [x];
      ReverseOf(s[1..], x);
    }
  }
}
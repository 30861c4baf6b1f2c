/**
 * Translations seen from the address space: the span of the block or page that
 * translates an address, what it means to map or unmap a range, and which descriptor
 * level a mapping request gets.
 */
module Spans {
  import opened Arith
  import opened PageTable

  /** The first address of the level-`level` block that holds `va`. */
  function SpanBase(g: Geometry, level: nat, va: nat): (b: nat)
    requires g.Valid()
    ensures b <= va < b + BlockSize(g, level)
  {
    va - Rem(va, BlockSize(g, level))
  }

  lemma SpanUnique(g: Geometry, level: nat, b: nat, va: nat)
    requires g.Valid() && Rem(b, BlockSize(g, level)) == 0 && b <= va < b + BlockSize(g, level)
    ensures SpanBase(g, level, va) == b
  {
    RemOfAligned(b, BlockSize(g, level), va - b);
  }

  lemma {:induction false} SpanNested(g: Geometry, low: nat, high: nat, va: nat)
    requires g.Valid() && low <= high
    ensures SpanBase(g, high, va) <= SpanBase(g, low, va)
    ensures SpanBase(g, low, va) + BlockSize(g, low) <= SpanBase(g, high, va) + BlockSize(g, high)
    ensures Rem(SpanBase(g, high, va), BlockSize(g, low)) == 0
    decreases high - low
  {
    var b := BlockSize(g, low);
    if low < high {
      SpanNested(g, low + 1, high, va);
      BlockSizeStep(g, low);
      BlocksNest(va, Fanout(g), b);
      RemOfRem(SpanBase(g, high, va), Fanout(g), b);
    } else {
      RemOfBase(va, b);
    }
  }

  /** Blocks of every level are whole numbers of pages. */
  lemma {:induction false} PageDivides(g: Geometry, level: nat, x: nat)
    requires g.Valid()
    ensures Rem(Rem(x, BlockSize(g, level)), BlockSize(g, 0)) == Rem(x, BlockSize(g, 0))
    ensures Rem(BlockSize(g, level), BlockSize(g, 0)) == 0
  {
    if level == 0 {
      PageRem(g, x);
    } else {
      PageDivides(g, level - 1, Rem(x, BlockSize(g, level)));
      PageDivides(g, level - 1, x);
      PageDivides(g, level - 1, BlockSize(g, level));
      BlockSizeStep(g, level - 1);
      RemOfRem(x, Fanout(g), BlockSize(g, level - 1));
      RemOfMultiple(Fanout(g), BlockSize(g, level - 1), 0);
    }
  }

  /** Above the last level a block is larger than a page. */
  lemma PageBelowBlock(g: Geometry, level: nat)
    requires g.Valid() && level > 0
    ensures BlockSize(g, 0) < BlockSize(g, level)
  {
    BlockSizeStep(g, level - 1);
    Pow2Monotone(1, g.pageShift - 3);
    assert Pow2(1) == 2;
    TimesMonotone(2, Fanout(g), BlockSize(g, level - 1));
    TimesIsProduct(2, BlockSize(g, level - 1));
    Pow2Monotone(g.pageShift, IndexShift(g, level - 1));
  }

  /** What is aligned to a block is aligned to the grain of output addresses. */
  lemma GrainDivides(g: Geometry, level: nat, x: nat)
    requires g.Valid() && Rem(x, BlockSize(g, level)) == 0
    ensures x % PAGE_GRAIN == 0
  {
    var shift := IndexShift(g, level) - 12;
    Pow2Add(shift, 12);
    Pow2Of12();
    TimesIsProduct(Pow2(shift), PAGE_GRAIN);
    RemOfRem(x, Pow2(shift), PAGE_GRAIN);
    QuotRemIsDivision(x, PAGE_GRAIN);
  }

  lemma PageRem(g: Geometry, x: nat)
    requires g.Valid()
    ensures Rem(Rem(x, BlockSize(g, 0)), BlockSize(g, 0)) == Rem(x, BlockSize(g, 0))
    ensures Rem(BlockSize(g, 0), BlockSize(g, 0)) == 0
  {
    RemOfMultiple(1, BlockSize(g, 0), 0);
    assert Times(1, BlockSize(g, 0)) == BlockSize(g, 0) + Times(0, BlockSize(g, 0));
  }

  ghost predicate SameTranslation(a: Walk, b: Walk) {
    a == b || (a.Miss? && b.Miss?)
  }

  /** The slot in which the walk to `va` ends. */
  lemma {:induction false} WalkEnd(s: Tables, q: nat, va: nat) returns (p: nat, i: nat)
    requires Valid(s) && q in s.mem && InTable(s, q, va)
    ensures p in s.mem && i < |s.mem[p]| && InSlot(s, p, i, va)
    ensures s.place[p].level <= s.place[q].level
    ensures Query(s, va).level == s.place[p].level && SpanBase(s.g, s.place[p].level, va) == SlotBase(s, p, i)
    ensures if Query(s, va).Hit? then IsLeaf(s.place[p].level, s.mem[p][i]) else s.mem[p][i] == CLEAR
    decreases s.place[q].level
  {
    i := SlotOf(s, q, va);
    p := q;
    assert TableOk(s, q) && SlotOk(s, q, i);
    if IsTable(s.place[q].level, s.mem[q][i]) {
      ChildCoversSlot(s, q, i, va);
      p, i := WalkEnd(s, s.mem[q][i].addr, va);
    } else {
      QueryInSlot(s, q, i, va);
      SlotBaseAligned(s, q, i);
      SpanUnique(s.g, s.place[q].level, SlotBase(s, q, i), va);
    }
  }

  lemma HitInRoot(s: Tables, va: nat)
    requires Valid(s) && Query(s, va).Hit?
    ensures InTable(s, s.root, va)
  {
    assert TableOk(s, s.root);
    if !InTable(s, s.root, va) {
      OutsideRoot(s, va);
    }
  }

  /** All addresses of a block are translated by it, alike. */
  lemma SpanTranslatesAlike(s: Tables, va: nat, other: nat)
    requires Valid(s) && Query(s, va).Hit?
    requires SpanBase(s.g, Query(s, va).level, va) <= other
               < SpanBase(s.g, Query(s, va).level, va) + BlockSize(s.g, Query(s, va).level)
    ensures Query(s, other).Hit? && Query(s, other).level == Query(s, va).level
    ensures Query(s, other).attrs == Query(s, va).attrs && Query(s, other).pa - other == Query(s, va).pa - va
    ensures SpanBase(s.g, Query(s, va).level, other) == SpanBase(s.g, Query(s, va).level, va)
  {
    HitInRoot(s, va);
    var p, i := WalkEnd(s, s.root, va);
    QueryInSlot(s, p, i, va);
    QueryInSlot(s, p, i, other);
    SlotBaseAligned(s, p, i);
    SpanUnique(s.g, s.place[p].level, SlotBase(s, p, i), other);
  }

  /** Blocks and slots are nested or disjoint: a block outside a slot does not meet it. */
  lemma SpanAvoidsSlot(s: Tables, p: nat, i: nat, va: nat, other: nat)
    requires Valid(s) && p in s.mem && i < |s.mem[p]| && Query(s, va).Hit?
    requires SpanBase(s.g, Query(s, va).level, va) <= other
               < SpanBase(s.g, Query(s, va).level, va) + BlockSize(s.g, Query(s, va).level)
    requires InSlot(s, p, i, other)
    ensures InSlot(s, p, i, va)
  {
    SpanTranslatesAlike(s, va, other);
    SlotInTable(s, p, i, other);
    var q, j := WalkEnd(s, p, other);
    SlotBaseAligned(s, p, i);
    SpanUnique(s.g, s.place[p].level, SlotBase(s, p, i), other);
    SpanNested(s.g, s.place[q].level, s.place[p].level, other);
  }

  // ---- unmapping ----

  /** The block or page that translates `va` meets the addresses lo..hi. */
  ghost predicate Overlaps(s: Tables, va: nat, lo: nat, hi: nat)
    requires s.g.Valid()
  {
    var w := Query(s, va);
    w.Hit? && lo < hi && SpanBase(s.g, w.level, va) < hi && lo < SpanBase(s.g, w.level, va) + BlockSize(s.g, w.level)
  }

  /** Exactly the blocks and pages that meet lo..hi are gone. */
  ghost predicate Unmapped(s: Tables, s': Tables, lo: nat, hi: nat)
    requires s.g.Valid() && s'.g == s.g
  {
    forall va: nat ::
      if Overlaps(s, va, lo, hi) then Query(s', va).Miss? else SameTranslation(Query(s', va), Query(s, va))
  }

  lemma UnmapCompose(s0: Tables, s1: Tables, s2: Tables, lo: nat, mid: nat, hi: nat)
    requires s0.g.Valid() && s1.g == s0.g && s2.g == s0.g && lo <= mid <= hi
    requires Unmapped(s0, s1, lo, mid) && Unmapped(s1, s2, mid, hi)
    ensures Unmapped(s0, s2, lo, hi)
  {
  }

  /** Clearing a leaf that meets lo..hi, itself part of the leaf's slot, unmaps lo..hi. */
  lemma UnmapLeaf(s: Tables, p: nat, i: nat, lo: nat, hi: nat)
    requires Valid(s) && p in s.mem && i < |s.mem[p]| && IsLeaf(s.place[p].level, s.mem[p][i])
    requires lo < hi && InSlot(s, p, i, lo) && InSlot(s, p, i, hi - 1)
    ensures Valid(WithEntry(s, p, i, CLEAR)) && Unmapped(s, WithEntry(s, p, i, CLEAR), lo, hi)
  {
    var s' := WithEntry(s, p, i, CLEAR);
    WriteLeaf(s, p, i, CLEAR);
    forall va: nat
      ensures if Overlaps(s, va, lo, hi) then Query(s', va).Miss? else SameTranslation(Query(s', va), Query(s, va))
    {
      OverlapsOnlyInSlot(s, p, i, va, lo, hi);
      if InSlot(s, p, i, va) {
        QueryInSlot(s, p, i, va);
        SlotBaseAligned(s, p, i);
        SpanUnique(s.g, s.place[p].level, SlotBase(s, p, i), va);
      }
    }
  }

  lemma OverlapsOnlyInSlot(s: Tables, p: nat, i: nat, va: nat, lo: nat, hi: nat)
    requires Valid(s) && p in s.mem && i < |s.mem[p]|
    requires lo < hi && InSlot(s, p, i, lo) && InSlot(s, p, i, hi - 1)
    ensures Overlaps(s, va, lo, hi) ==> InSlot(s, p, i, va)
  {
    if Overlaps(s, va, lo, hi) {
      var base := SpanBase(s.g, Query(s, va).level, va);
      SpanAvoidsSlot(s, p, i, va, if base < lo then lo else base);
    }
  }

  lemma UnmapClear(s: Tables, p: nat, i: nat, lo: nat, hi: nat)
    requires Valid(s) && p in s.mem && i < |s.mem[p]| && s.mem[p][i] == CLEAR
    requires lo < hi && InSlot(s, p, i, lo) && InSlot(s, p, i, hi - 1)
    ensures Unmapped(s, s, lo, hi)
  {
    forall va: nat
      ensures !Overlaps(s, va, lo, hi)
    {
      OverlapsOnlyInSlot(s, p, i, va, lo, hi);
      if InSlot(s, p, i, va) {
        QueryInSlot(s, p, i, va);
      }
    }
  }

  /** Unlinking a clear table afterwards changes no translation. */
  lemma UnmapThenUnlink(s0: Tables, s: Tables, p: nat, i: nat, lo: nat, hi: nat)
    requires s0.g == s.g && Valid(s) && Unmapped(s0, s, lo, hi)
    requires p in s.mem && i < |s.mem[p]| && IsTable(s.place[p].level, s.mem[p][i])
    requires s.mem[p][i].addr in s.mem && AllClear(s.mem[s.mem[p][i].addr])
    ensures Valid(Unlinked(s, p, i)) && Unmapped(s0, Unlinked(s, p, i), lo, hi)
  {
    UnlinkTable(s, p, i);
  }

  /** Tables at or above the level of `table`, other than `table`, are as before. */
  ghost predicate AboveKept(s: Tables, s': Tables, table: nat)
    requires table in s.place && table in s.mem && s.place.Keys == s.mem.Keys
  {
    && s'.place.Keys == s'.mem.Keys
    && table in s'.mem && |s'.mem[table]| == |s.mem[table]| && s'.place[table] == s.place[table]
    && forall q :: q in s.mem && q != table && s.place[q].level >= s.place[table].level ==>
         q in s'.mem && s'.mem[q] == s.mem[q] && s'.place[q] == s.place[q]
  }

  /** In `table`, slots inside lo..hi are clear and slots outside it are as before. */
  ghost predicate SlotsCleared(s: Tables, s': Tables, table: nat, lo: nat, hi: nat)
    requires s.g.Valid() && table in s.place && table in s.mem && table in s'.mem
    requires |s'.mem[table]| == |s.mem[table]|
  {
    var b := BlockSize(s.g, s.place[table].level);
    forall i {:trigger s'.mem[table][i]} :: 0 <= i < |s.mem[table]| ==>
      && (lo <= SlotBase(s, table, i) && SlotBase(s, table, i) + b <= hi ==> s'.mem[table][i] == CLEAR)
      && (hi <= SlotBase(s, table, i) || SlotBase(s, table, i) + b <= lo ==> s'.mem[table][i] == s.mem[table][i])
  }

  /** A table all of whose addresses were unmapped is clear. */
  lemma WholeTableCleared(s: Tables, s': Tables, table: nat, lo: nat, hi: nat)
    requires s.g.Valid() && table in s.place && table in s.mem && table in s'.mem
    requires |s'.mem[table]| == |s.mem[table]| && SlotsCleared(s, s', table, lo, hi)
    requires lo == s.place[table].base
    requires hi == lo + Times(|s.mem[table]|, BlockSize(s.g, s.place[table].level))
    ensures AllClear(s'.mem[table])
  {
    forall i | 0 <= i < |s'.mem[table]|
      ensures s'.mem[table][i] == CLEAR
    {
      TimesMonotone(i + 1, |s.mem[table]|, BlockSize(s.g, s.place[table].level));
    }
  }

  /** The addresses lo..mid under `table` are unmapped, and nothing else changed. */
  ghost predicate UnmappedUpTo(s0: Tables, s: Tables, table: nat, lo: nat, mid: nat) {
    && Valid(s0) && Valid(s) && s.g == s0.g && s.root == s0.root && table in s0.mem
    && AboveKept(s0, s, table)
    && SlotsCleared(s0, s, table, lo, mid)
    && Unmapped(s0, s, lo, mid)
  }

  /** One turn of the unmap loop: the addresses cur..next, all in slot `i` of `table`. */
  ghost predicate UnmapTurn(s: Tables, s': Tables, table: nat, i: nat, cur: nat, next: nat) {
    && Valid(s) && Valid(s') && s'.g == s.g && s'.root == s.root && table in s.mem && i < |s.mem[table]|
    && cur < next && InSlot(s, table, i, cur) && InSlot(s, table, i, next - 1)
    && AboveKept(s, s', table)
    && (forall j :: 0 <= j < |s.mem[table]| && j != i ==> s'.mem[table][j] == s.mem[table][j])
    && (next - cur == BlockSize(s.g, s.place[table].level) ==> s'.mem[table][i] == CLEAR)
    && Unmapped(s, s', cur, next)
  }

  lemma AboveKeptTransitive(s0: Tables, s1: Tables, s2: Tables, table: nat)
    requires table in s0.place && table in s0.mem && s0.place.Keys == s0.mem.Keys
    requires AboveKept(s0, s1, table) && AboveKept(s1, s2, table)
    ensures AboveKept(s0, s2, table)
  {
  }

  lemma SlotsDisjoint(s: Tables, table: nat, i: nat, j: nat)
    requires s.g.Valid() && table in s.place
    ensures i < j ==> SlotBase(s, table, i) + BlockSize(s.g, s.place[table].level) <= SlotBase(s, table, j)
  {
    TimesMonotone(i + 1, j, BlockSize(s.g, s.place[table].level));
  }

  lemma TakeUnmapTurn(s0: Tables, s1: Tables, s2: Tables, table: nat, i: nat, lo: nat, cur: nat, next: nat)
    requires UnmappedUpTo(s0, s1, table, lo, cur) && UnmapTurn(s1, s2, table, i, cur, next) && lo <= cur
    requires cur == lo || cur == SlotBase(s1, table, i)
    ensures UnmappedUpTo(s0, s2, table, lo, next)
  {
    AboveKeptTransitive(s0, s1, s2, table);
    UnmapCompose(s0, s1, s2, lo, cur, next);
    var b := BlockSize(s0.g, s0.place[table].level);
    forall j | 0 <= j < |s0.mem[table]|
      ensures lo <= SlotBase(s0, table, j) && SlotBase(s0, table, j) + b <= next ==> s2.mem[table][j] == CLEAR
      ensures next <= SlotBase(s0, table, j) || SlotBase(s0, table, j) + b <= lo ==> s2.mem[table][j] == s0.mem[table][j]
    {
      SlotsDisjoint(s0, table, i, j);
      SlotsDisjoint(s0, table, j, i);
      assert s1.mem[table][j] == s1.mem[table][j];
    }
  }

  lemma UnmapTurnLeaf(s: Tables, table: nat, i: nat, cur: nat, next: nat)
    requires Valid(s) && table in s.mem && i < |s.mem[table]| && IsLeaf(s.place[table].level, s.mem[table][i])
    requires cur < next && InSlot(s, table, i, cur) && InSlot(s, table, i, next - 1)
    ensures UnmapTurn(s, WithEntry(s, table, i, CLEAR), table, i, cur, next)
  {
    UnmapLeaf(s, table, i, cur, next);
  }

  lemma UnmapTurnClear(s: Tables, table: nat, i: nat, cur: nat, next: nat)
    requires Valid(s) && table in s.mem && i < |s.mem[table]| && s.mem[table][i] == CLEAR
    requires cur < next && InSlot(s, table, i, cur) && InSlot(s, table, i, next - 1)
    ensures UnmapTurn(s, s, table, i, cur, next)
  {
    UnmapClear(s, table, i, cur, next);
  }

  /** The addresses cur..next below slot `i` of `table` are unmapped in the table that hangs there. */
  ghost predicate ChildDone(s: Tables, s1: Tables, table: nat, i: nat, cur: nat, next: nat) {
    && Valid(s) && table in s.mem && i < |s.mem[table]| && IsTable(s.place[table].level, s.mem[table][i])
    && cur < next && InSlot(s, table, i, cur) && InSlot(s, table, i, next - 1)
    && s.mem[table][i].addr in s.mem && UnmappedUpTo(s, s1, s.mem[table][i].addr, cur, next)
  }

  /** A chunk of a slot, seen from the table behind the slot. */
  lemma ChunkBehind(s: Tables, table: nat, i: nat, cur: nat, rem: nat, chunk: nat)
    requires Valid(s) && table in s.mem && i < |s.mem[table]| && IsTable(s.place[table].level, s.mem[table][i])
    requires cur == SlotBase(s, table, i) + rem && 0 < chunk && rem + chunk <= BlockSize(s.g, s.place[table].level)
    ensures InSlot(s, table, i, cur) && InSlot(s, table, i, cur + chunk - 1)
    ensures var c := s.mem[table][i].addr;
            && c in s.mem && c in s.place && s.place[c].level == s.place[table].level - 1
            && cur == s.place[c].base + rem
            && IndexShift(s.g, s.place[c].level) == IndexShift(s.g, s.place[table].level) - (s.g.pageShift - 3)
            && rem + chunk <= Times(|s.mem[c]|, Pow2(IndexShift(s.g, s.place[c].level)))
  {
    ChildFits(s, table, i);
  }

  lemma ChildIsDone(s: Tables, s1: Tables, table: nat, i: nat, cur: nat, next: nat)
    requires Valid(s) && table in s.mem && i < |s.mem[table]| && IsTable(s.place[table].level, s.mem[table][i])
    requires cur < next && InSlot(s, table, i, cur) && InSlot(s, table, i, next - 1)
    requires s.mem[table][i].addr in s.mem && UnmappedUpTo(s, s1, s.mem[table][i].addr, cur, next)
    ensures ChildDone(s, s1, table, i, cur, next) && table in s1.mem && s1.mem[table] == s.mem[table]
  {
    ChildUnmapped(s, s1, table, i, cur, next);
  }

  lemma ChildUnmapped(s: Tables, s1: Tables, table: nat, i: nat, cur: nat, next: nat)
    requires ChildDone(s, s1, table, i, cur, next)
    ensures table in s1.mem && s1.mem[table] == s.mem[table] && s1.place[table] == s.place[table]
    ensures AboveKept(s, s1, table) && s.mem[table][i].addr !in {table, s.root} && s.mem[table][i].addr in s1.mem
  {
    ChildCoversSlot(s, table, i, cur);
  }

  lemma ChildLinked(s: Tables, s1: Tables, table: nat, i: nat, cur: nat, next: nat)
    requires ChildDone(s, s1, table, i, cur, next) && Valid(s1)
    ensures table in s.mem && table in s.place && table in s1.mem && table in s1.place && i < |s.mem[table]|
    ensures s1.g == s.g && s1.mem[table] == s.mem[table] && s1.place[table] == s.place[table]
    ensures IsTable(s1.place[table].level, s1.mem[table][i])
    ensures s1.mem[table][i].addr !in {table, s1.root} && s1.mem[table][i].addr in s1.mem
  {
    ChildUnmapped(s, s1, table, i, cur, next);
    ChildCoversSlot(s1, table, i, cur);
  }

  lemma ChildCleared(s: Tables, s1: Tables, table: nat, i: nat, cur: nat, next: nat)
    requires ChildDone(s, s1, table, i, cur, next)
    requires next - cur == BlockSize(s.g, s.place[table].level)
    ensures s.mem[table][i].addr in s1.mem && AllClear(s1.mem[s.mem[table][i].addr])
  {
    var c := s.mem[table][i].addr;
    ChildCoversSlot(s, table, i, cur);
    assert TableOk(s, c);
    BlockSizeStep(s.g, s.place[c].level);
    WholeTableCleared(s, s1, c, cur, next);
  }

  /** The table behind a slot is unlinked if all of its entries are clear, and else left as it is. */
  ghost predicate ReclaimedIfClear(s: Tables, s': Tables, table: nat, i: nat) {
    && table in s.mem && i < |s.mem[table]| && s.mem[table][i].addr in s.mem
    && s' == if AllClear(s.mem[s.mem[table][i].addr]) then Unlinked(s, table, i) else s
  }

  lemma UnmapTurnKeep(s: Tables, s1: Tables, table: nat, i: nat, cur: nat, next: nat)
    requires ChildDone(s, s1, table, i, cur, next)
    requires next - cur != BlockSize(s.g, s.place[table].level)
    ensures UnmapTurn(s, s1, table, i, cur, next)
  {
    ChildUnmapped(s, s1, table, i, cur, next);
  }

  lemma UnmapTurnUnlink(s: Tables, s1: Tables, table: nat, i: nat, cur: nat, next: nat)
    requires ChildDone(s, s1, table, i, cur, next)
    requires s.mem[table][i].addr in s1.mem && AllClear(s1.mem[s.mem[table][i].addr])
    requires table in s1.mem && i < |s1.mem[table]|
    ensures UnmapTurn(s, Unlinked(s1, table, i), table, i, cur, next)
  {
    ChildUnmapped(s, s1, table, i, cur, next);
    UnmapThenUnlink(s, s1, table, i, cur, next);
    ChildCoversSlot(s, table, i, cur);
  }

  lemma UnmappedTable(s0: Tables, s: Tables, table: nat, lo: nat, mid: nat)
    requires UnmappedUpTo(s0, s, table, lo, mid)
    ensures table in s0.mem && table in s0.place && table in s.mem && table in s.place
    ensures s.place[table] == s0.place[table] && |s.mem[table]| == |s0.mem[table]|
  {
  }

  lemma NothingUnmapped(s: Tables, table: nat, lo: nat)
    requires Valid(s) && table in s.mem
    ensures UnmappedUpTo(s, s, table, lo, lo)
  {
    forall i | 0 <= i < |s.mem[table]|
      ensures lo <= SlotBase(s, table, i) && SlotBase(s, table, i) + BlockSize(s.g, s.place[table].level) <= lo
              ==> s.mem[table][i] == CLEAR
    {
    }
  }

  /** The chunk that one turn of the map and unmap loops handles lies in one slot. */
  lemma ChunkInSlot(s: Tables, table: nat, rel: nat, size: nat, b: nat, rem: nat, chunk: nat, i: nat)
    requires Valid(s) && table in s.mem && size > 0 && b == BlockSize(s.g, s.place[table].level)
    requires rel + size <= Times(|s.mem[table]|, b)
    requires rem == Rem(rel, b) && i == Quot(rel, b) && chunk == if size < b - rem then size else b - rem
    ensures i < |s.mem[table]| && 0 < chunk <= size && rem + chunk <= b
    ensures SlotBase(s, table, i) + rem == s.place[table].base + rel
    ensures chunk == b ==> rem == 0
    ensures chunk < size ==> Rem(rel + chunk, b) == 0
  {
    QuotRem(rel, b);
    TimesMonotone(|s.mem[table]|, i, b);
    RemOfMultiple(i + 1, b, 0);
  }

  /** The table in a slot: its place, and how much it covers. */
  lemma ChildFits(s: Tables, table: nat, i: nat)
    requires Valid(s) && table in s.mem && i < |s.mem[table]| && IsTable(s.place[table].level, s.mem[table][i])
    ensures var c := s.mem[table][i].addr;
            && c in s.mem && c != table && s.place[c].level + 1 == s.place[table].level
            && s.place[c].base == SlotBase(s, table, i)
            && IndexShift(s.g, s.place[c].level) == IndexShift(s.g, s.place[table].level) - (s.g.pageShift - 3)
            && Times(|s.mem[c]|, BlockSize(s.g, s.place[c].level)) == BlockSize(s.g, s.place[table].level)
  {
    ChildCoversSlot(s, table, i, 0);
    assert TableOk(s, s.mem[table][i].addr);
    BlockSizeStep(s.g, s.place[table].level - 1);
  }

  // ---- mapping ----

  /** A request to translate lo..hi to pa and up. */
  datatype Request = Request(lo: nat, hi: nat, pa: nat, attrs: AttrBits)

  /** A level-`level` block around `va` fits the request: it lies in the range, both sides are aligned. */
  ghost predicate LeafFits(g: Geometry, r: Request, level: nat, va: nat)
    requires g.Valid()
  {
    var base := SpanBase(g, level, va);
    && r.lo <= base && base + BlockSize(g, level) <= r.hi
    && Rem(r.pa + (base - r.lo), BlockSize(g, level)) == 0
    && IndexShift(g, level) <= BLOCK_MAX_SHIFT
  }

  /** The largest level, not above `level`, whose blocks fit the request around `va`. */
  ghost function LeafLevel(g: Geometry, r: Request, level: nat, va: nat): nat
    requires g.Valid()
  {
    if level == 0 || LeafFits(g, r, level, va) then level else LeafLevel(g, r, level - 1, va)
  }

  /** It is the largest level whose block lies in the range, is aligned on both sides and is no larger than 1 GB, or 0. */
  lemma {:induction false} LeafLevelIs(g: Geometry, r: Request, level: nat, va: nat, l: nat)
    requires g.Valid() && l <= level
    ensures LeafLevel(g, r, level, va) == l <==>
            && (l > 0 ==> BlockFits(g, r, l, va))
            && forall m :: l < m <= level ==> !BlockFits(g, r, m, va)
    decreases level
  {
    hide BlockFits, LeafFits;
    FitsIs(g, r, level, va);
    if level > 0 && !LeafFits(g, r, level, va) {
      LeafLevelBounded(g, r, level - 1, va);
      if l < level {
        LeafLevelIs(g, r, level - 1, va, l);
      }
    }
  }

  ghost predicate BlockFits(g: Geometry, r: Request, level: nat, va: nat)
    requires g.Valid()
  {
    var size := BlockSize(g, level);
    var base := va - Rem(va, size);
    r.lo <= base && base + size <= r.hi && Rem(r.pa + (base - r.lo), size) == 0 && size <= 0x4000_0000
  }

  lemma FitsIs(g: Geometry, r: Request, level: nat, va: nat)
    requires g.Valid()
    ensures LeafFits(g, r, level, va) <==> BlockFits(g, r, level, va)
  {
    var shift := IndexShift(g, level);
    Pow2Of30();
    if shift <= BLOCK_MAX_SHIFT {
      Pow2Monotone(shift, 30);
    } else {
      Pow2Monotone(31, shift);
    }
  }

  lemma {:induction false} LeafLevelBounded(g: Geometry, r: Request, level: nat, va: nat)
    requires g.Valid()
    ensures LeafLevel(g, r, level, va) <= level
  {
    if level > 0 && !LeafFits(g, r, level, va) {
      LeafLevelBounded(g, r, level - 1, va);
    }
  }

  /** The translation of `va` that the request asks for. */
  ghost function Wanted(g: Geometry, r: Request, level: nat, va: nat): Walk
    requires g.Valid() && r.lo <= va
  {
    Hit(r.pa + (va - r.lo), r.attrs, LeafLevel(g, r, level, va))
  }

  /** Nothing is in the way at `va`: no translation, and no table where the leaf goes. */
  ghost predicate Placeable(s: Tables, r: Request, level: nat, va: nat)
    requires s.g.Valid()
  {
    Query(s, va).Miss? && LeafLevel(s.g, r, level, va) <= Query(s, va).level
  }

  /** The addresses lo..mid of the request are mapped, and nothing else changed. */
  ghost predicate MappedUpTo(s: Tables, s': Tables, r: Request, level: nat, mid: nat)
    requires s.g.Valid() && s'.g == s.g
  {
    && (forall va: nat :: r.lo <= va < mid ==>
          && Placeable(s, r, level, va)
          && Query(s', va) == Wanted(s.g, r, level, va)
          && r.lo <= SpanBase(s.g, LeafLevel(s.g, r, level, va), va)
          && SpanBase(s.g, LeafLevel(s.g, r, level, va), va) + BlockSize(s.g, LeafLevel(s.g, r, level, va)) <= mid)
    && (forall va: nat :: !(r.lo <= va < mid) ==> SameTranslation(Query(s', va), Query(s, va)))
  }

  ghost predicate TranslationsKept(s: Tables, s': Tables)
    requires s.g.Valid() && s'.g == s.g
  {
    forall va: nat :: SameTranslation(Query(s', va), Query(s, va))
  }

  /** Unmapping what was mapped so far restores every translation. */
  lemma RollbackRestores(s0: Tables, s1: Tables, s2: Tables, r: Request, level: nat, mid: nat)
    requires Valid(s0) && Valid(s1) && s1.g == s0.g && s2.g == s0.g
    requires MappedUpTo(s0, s1, r, level, mid) && Unmapped(s1, s2, r.lo, mid)
    ensures TranslationsKept(s0, s2)
  {
    forall va: nat
      ensures SameTranslation(Query(s2, va), Query(s0, va))
    {
      var w := Query(s1, va);
      if !(r.lo <= va < mid) && Overlaps(s1, va, r.lo, mid) {
        var base := SpanBase(s1.g, w.level, va);
        var other := if base < r.lo then r.lo else base;
        SpanTranslatesAlike(s1, va, other);
        assert false;
      }
    }
  }

  /** `c` is the part of `r` in the level-`top` block around `va`. */
  ghost predicate PartOf(g: Geometry, r: Request, c: Request, top: nat, va: nat)
    requires g.Valid()
  {
    && r.lo <= c.lo <= va < c.hi <= r.hi
    && c.pa == r.pa + (c.lo - r.lo)
    && (c.lo == r.lo || c.lo == SpanBase(g, top, va))
    && (c.hi == r.hi || c.hi == SpanBase(g, top, va) + BlockSize(g, top))
  }

  lemma LeafFitsOfPart(g: Geometry, r: Request, c: Request, level: nat, top: nat, va: nat)
    requires g.Valid() && level <= top && PartOf(g, r, c, top, va)
    ensures LeafFits(g, c, level, va) <==> LeafFits(g, r, level, va)
  {
    SpanNested(g, level, top, va);
    var base := SpanBase(g, level, va);
    if c.lo <= base {
      assert c.pa + (base - c.lo) == r.pa + (base - r.lo);
    }
  }

  /** The part of a request that falls into one block asks for the same leaves. */
  lemma {:induction false} LeafLevelOfPart(g: Geometry, r: Request, c: Request, level: nat, top: nat, va: nat)
    requires g.Valid() && level <= top && PartOf(g, r, c, top, va)
    ensures LeafLevel(g, c, level, va) == LeafLevel(g, r, level, va)
  {
    LeafFitsOfPart(g, r, c, level, top, va);
    if level > 0 {
      LeafLevelOfPart(g, r, c, level - 1, top, va);
    }
  }

  // ---- the TLB ----

  /** A cached translation: the walk result for an address, good for the whole block. */
  datatype TlbEntry = TlbEntry(va: nat, walk: Walk)

  /** The TLB holds only translations that the tables still give. */
  ghost predicate TlbCurrent(s: Tables, tlb: set<TlbEntry>)
    requires s.g.Valid()
  {
    forall t :: t in tlb ==> t.walk.Hit? && Query(s, t.va) == t.walk
  }

  /** A TLB invalidation by address drops the entry of any block that holds the address. */
  ghost function Invalidated(g: Geometry, tlb: set<TlbEntry>, va: nat): set<TlbEntry>
    requires g.Valid()
  {
    set t | t in tlb && !(SpanBase(g, t.walk.level, t.va) <= va < SpanBase(g, t.walk.level, t.va) + BlockSize(g, t.walk.level))
  }

  /** Clearing a leaf and invalidating one address of its slot leaves no stale entry. */
  lemma TlbAfterUnmapLeaf(s: Tables, p: nat, i: nat, tlb: set<TlbEntry>, va: nat)
    requires Valid(s) && p in s.mem && i < |s.mem[p]| && IsLeaf(s.place[p].level, s.mem[p][i])
    requires InSlot(s, p, i, va) && TlbCurrent(s, tlb)
    ensures TlbCurrent(WithEntry(s, p, i, CLEAR), Invalidated(s.g, tlb, va))
  {
    var s' := WithEntry(s, p, i, CLEAR);
    WriteLeaf(s, p, i, CLEAR);
    forall t | t in Invalidated(s.g, tlb, va)
      ensures t.walk.Hit? && Query(s', t.va) == t.walk
    {
      if InSlot(s, p, i, t.va) {
        QueryInSlot(s, p, i, t.va);
        SlotBaseAligned(s, p, i);
        SpanUnique(s.g, s.place[p].level, SlotBase(s, p, i), t.va);
        assert false;
      }
    }
  }

  /** Writing a leaf into a clear slot makes no entry stale. */
  lemma TlbAfterWrite(s: Tables, p: nat, i: nat, e: Pte, tlb: set<TlbEntry>)
    requires Valid(s) && p in s.mem && i < |s.mem[p]| && CanWrite(s, p, i, e)
    requires s.mem[p][i] == CLEAR && TlbCurrent(s, tlb)
    ensures TlbCurrent(WithEntry(s, p, i, e), tlb)
  {
    WriteLeaf(s, p, i, e);
    forall t | t in tlb
      ensures Query(WithEntry(s, p, i, e), t.va) == t.walk
    {
      if InSlot(s, p, i, t.va) {
        QueryInSlot(s, p, i, t.va);
      }
    }
  }

  lemma TlbAfterUnlink(s: Tables, p: nat, i: nat, tlb: set<TlbEntry>)
    requires Valid(s) && p in s.mem && i < |s.mem[p]| && IsTable(s.place[p].level, s.mem[p][i])
    requires s.mem[p][i].addr in s.mem && AllClear(s.mem[s.mem[p][i].addr]) && TlbCurrent(s, tlb)
    ensures TlbCurrent(Unlinked(s, p, i), tlb)
  {
    UnlinkTable(s, p, i);
  }
}

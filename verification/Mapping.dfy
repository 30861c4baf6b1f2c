/** The turns of the map loop, and the rollback, on tables as values. */
module Mapping {
  import opened Arith
  import opened PageTable
  import opened Spans
  import opened PteFormat

  /** The addresses lo..mid of the request are mapped under `table`; the rest is exactly as before. */
  ghost predicate MapState(s0: Tables, s: Tables, r: Request, table: nat, mid: nat) {
    && Valid(s0) && Valid(s) && s.g == s0.g && s.root == s0.root && table in s0.mem
    && r.lo <= mid <= r.hi
    && AboveKept(s0, s, table)
    && MappedUpTo(s0, s, r, s0.place[table].level, mid)
    && forall va: nat :: !InTable(s0, table, va) || mid <= va < r.hi ==> Query(s, va) == Query(s0, va)
  }

  lemma NothingMapped(s: Tables, r: Request, table: nat)
    requires Valid(s) && table in s.mem && r.lo <= r.hi
    ensures MapState(s, s, r, table, r.lo)
  {
  }

  /** The chunk mid..end of the request is the part of it that falls into slot `i`. */
  ghost predicate ChunkOf(s: Tables, r: Request, table: nat, i: nat, mid: nat, end: nat) {
    && Valid(s) && table in s.mem && i < |s.mem[table]|
    && r.lo <= mid < end <= r.hi && InSlot(s, table, i, mid)
    && end <= SlotBase(s, table, i) + BlockSize(s.g, s.place[table].level)
    && (mid == r.lo || mid == SlotBase(s, table, i))
    && (end == r.hi || end == SlotBase(s, table, i) + BlockSize(s.g, s.place[table].level))
  }

  /** The test of lines 404 to 406, and what it means for the leaves of the chunk. */
  ghost predicate TakesLeaf(s: Tables, r: Request, table: nat, mid: nat, end: nat)
    requires s.g.Valid() && table in s.place && r.lo <= mid <= end
  {
    var b := BlockSize(s.g, s.place[table].level);
    && Rem(mid, b) == 0 && Rem(r.pa + (mid - r.lo), b) == 0
    && end - mid == b && IndexShift(s.g, s.place[table].level) <= BLOCK_MAX_SHIFT
  }

  lemma ChunkLeafLevel(s: Tables, r: Request, table: nat, i: nat, mid: nat, end: nat, va: nat)
    requires ChunkOf(s, r, table, i, mid, end) && mid <= va < end
    ensures InSlot(s, table, i, va) && SpanBase(s.g, s.place[table].level, va) == SlotBase(s, table, i)
    ensures TakesLeaf(s, r, table, mid, end) <==> LeafFits(s.g, r, s.place[table].level, va)
    ensures TakesLeaf(s, r, table, mid, end) ==> mid == SlotBase(s, table, i)
  {
    var level := s.place[table].level;
    SlotBaseAligned(s, table, i);
    SpanUnique(s.g, level, SlotBase(s, table, i), va);
    SpanUnique(s.g, level, SlotBase(s, table, i), mid);
  }

  /** A leaf is written into a clear slot. */
  lemma MapTurnLeaf(s0: Tables, s: Tables, r: Request, table: nat, i: nat, mid: nat, end: nat, e: Pte)
    requires MapState(s0, s, r, table, mid) && ChunkOf(s, r, table, i, mid, end)
    requires TakesLeaf(s, r, table, mid, end) && s.mem[table][i] == CLEAR
    requires e == Pte(if s.place[table].level > 0 then DESC_BLOCK else DESC_PAGE, r.pa + (mid - r.lo), r.attrs)
    ensures CanWrite(s, table, i, e) && MapState(s0, WithEntry(s, table, i, e), r, table, end)
  {
    var s' := WithEntry(s, table, i, e);
    ChunkLeafLevel(s, r, table, i, mid, end, mid);
    WriteLeaf(s, table, i, e);
    forall va: nat | mid <= va < end
      ensures Placeable(s0, r, s0.place[table].level, va)
      ensures Query(s', va) == Wanted(s.g, r, s0.place[table].level, va)
      ensures LeafLevel(s.g, r, s0.place[table].level, va) == s.place[table].level
      ensures SpanBase(s.g, s.place[table].level, va) == mid
    {
      ChunkLeafLevel(s, r, table, i, mid, end, va);
      QueryInSlot(s, table, i, va);
    }
    forall va: nat | !InTable(s0, table, va)
      ensures !InSlot(s, table, i, va)
    {
      if InSlot(s, table, i, va) {
        SlotInTable(s, table, i, va);
      }
    }
  }

  /** A slot that is in use where a leaf goes stops the request. */
  lemma LeafBlocked(s0: Tables, s: Tables, r: Request, table: nat, i: nat, mid: nat, end: nat)
    requires MapState(s0, s, r, table, mid) && ChunkOf(s, r, table, i, mid, end)
    requires TakesLeaf(s, r, table, mid, end) && s.mem[table][i] != CLEAR
    ensures Blocked(s0, r, s0.place[table].level) && FailState(s0, s, r, table, mid)
  {
    ChunkLeafLevel(s, r, table, i, mid, end, mid);
    QueryInSlot(s, table, i, mid);
    assert TableOk(s, table) && SlotOk(s, table, i);
    if IsTable(s.place[table].level, s.mem[table][i]) {
      ChildCoversSlot(s, table, i, mid);
      var p, j := WalkEnd(s, s.mem[table][i].addr, mid);
    }
    assert !Placeable(s0, r, s0.place[table].level, mid);
  }

  /** A block in the way of a descent stops the request. */
  lemma DescentBlocked(s0: Tables, s: Tables, r: Request, table: nat, i: nat, mid: nat, end: nat)
    requires MapState(s0, s, r, table, mid) && ChunkOf(s, r, table, i, mid, end)
    requires IsLeaf(s.place[table].level, s.mem[table][i])
    ensures Blocked(s0, r, s0.place[table].level) && FailState(s0, s, r, table, mid)
  {
    QueryInSlot(s, table, i, mid);
    assert !Placeable(s0, r, s0.place[table].level, mid);
  }

  // ---- a turn that goes down into a table ----

  /** A table behind the slot: a new one, the one there, or none (no memory, or a block in the way). */
  ghost predicate GotTable(s: Tables, s': Tables, p: nat, i: nat, found: bool, next: nat, refused: bool)
    requires Valid(s) && p in s.mem && i < |s.mem[p]| && s.place[p].level > 0
  {
    var e := s.mem[p][i];
    if e == CLEAR then
      if found then next !in s.mem && s' == Linked(s, p, i, next) else refused && s' == s
    else
      s' == s && if e.desc == DESC_TABLE then found && next == e.addr else !found && !refused
  }

  /** `g` is `s` with a table behind slot `i` of `table`, there before or newly linked. */
  ghost predicate Descends(s: Tables, g: Tables, table: nat, i: nat, next: nat) {
    && Valid(s) && Valid(g) && g.g == s.g && g.root == s.root
    && table in s.mem && i < |s.mem[table]| && s.place[table].level > 0
    && AboveKept(s, g, table)
    && IsTable(s.place[table].level, g.mem[table][i]) && g.mem[table][i].addr == next
    && (forall va: nat :: !InSlot(s, table, i, va) ==> Query(g, va) == Query(s, va))
    && (s.mem[table][i] == CLEAR ==>
          forall va: nat :: InSlot(s, table, i, va) ==>
            Query(g, va) == Miss(s.place[table].level - 1) && Query(s, va) == Miss(s.place[table].level))
    && (s.mem[table][i] != CLEAR ==> g == s)
  }

  lemma GotTableDescends(s: Tables, g: Tables, table: nat, i: nat, next: nat, refused: bool)
    requires Valid(s) && table in s.mem && i < |s.mem[table]| && s.place[table].level > 0
    requires GotTable(s, g, table, i, true, next, refused)
    ensures Descends(s, g, table, i, next)
  {
    if s.mem[table][i] == CLEAR {
      LinkTable(s, table, i, next);
      forall va: nat | InSlot(s, table, i, va)
        ensures Query(s, va) == Miss(s.place[table].level)
      {
        QueryInSlot(s, table, i, va);
      }
    }
  }

  lemma DescendsTo(s: Tables, g: Tables, table: nat, i: nat, next: nat)
    requires Descends(s, g, table, i, next)
    ensures next in g.mem && Valid(g) && g.g == s.g
  {
    ChildCoversSlot(g, table, i, 0);
  }

  lemma TlbAfterDescent(s: Tables, g: Tables, table: nat, i: nat, next: nat, tlb: set<TlbEntry>)
    requires Descends(s, g, table, i, next) && TlbCurrent(s, tlb)
    ensures TlbCurrent(g, tlb)
  {
    forall t | t in tlb
      ensures Query(g, t.va) == t.walk
    {
      if s.mem[table][i] == CLEAR && InSlot(s, table, i, t.va) {
        assert false;
      }
    }
  }

  function Part(r: Request, mid: nat, end: nat): Request
    requires r.lo <= mid
  {
    Request(mid, end, r.pa + (mid - r.lo), r.attrs)
  }

  /** Below the slot, the part asks for the same leaves as the whole request. */
  lemma PartLeafLevel(s: Tables, r: Request, table: nat, i: nat, mid: nat, end: nat, va: nat)
    requires ChunkOf(s, r, table, i, mid, end) && !TakesLeaf(s, r, table, mid, end) && s.place[table].level > 0
    requires mid <= va < end
    ensures LeafLevel(s.g, r, s.place[table].level, va) ==
            LeafLevel(s.g, Part(r, mid, end), s.place[table].level - 1, va)
    ensures LeafLevel(s.g, r, s.place[table].level, va) <= s.place[table].level - 1
  {
    var level := s.place[table].level;
    ChunkLeafLevel(s, r, table, i, mid, end, va);
    LeafLevelOfPart(s.g, r, Part(r, mid, end), level - 1, level, va);
    LeafLevelBounded(s.g, r, level - 1, va);
  }

  lemma PlaceableBelow(s0: Tables, s: Tables, g: Tables, r: Request, table: nat, i: nat, next: nat,
                       mid: nat, end: nat, va: nat)
    requires MapState(s0, s, r, table, mid) && ChunkOf(s, r, table, i, mid, end)
    requires Descends(s, g, table, i, next) && !TakesLeaf(s, r, table, mid, end)
    requires mid <= va < end
    ensures Placeable(g, Part(r, mid, end), s.place[table].level - 1, va)
       <==> Placeable(s0, r, s0.place[table].level, va)
    ensures Wanted(s.g, Part(r, mid, end), s.place[table].level - 1, va) == Wanted(s.g, r, s.place[table].level, va)
  {
    PartLeafLevel(s, r, table, i, mid, end, va);
    ChunkLeafLevel(s, r, table, i, mid, end, va);
  }

  ghost predicate TurnBelow(s0: Tables, s: Tables, g: Tables, s': Tables, r: Request, table: nat, i: nat, next: nat,
                            mid: nat, end: nat) {
    && MapState(s0, s, r, table, mid) && ChunkOf(s, r, table, i, mid, end)
    && Descends(s, g, table, i, next) && !TakesLeaf(s, r, table, mid, end)
    && MapState(g, s', Part(r, mid, end), next, end)
  }

  lemma BelowMapped(s0: Tables, s: Tables, g: Tables, s': Tables, r: Request, table: nat, i: nat, next: nat,
                    mid: nat, end: nat)
    requires TurnBelow(s0, s, g, s', r, table, i, next, mid, end)
    ensures MappedUpTo(s0, s', r, s0.place[table].level, end)
  {
    var level := s0.place[table].level;
    ChildCoversSlot(g, table, i, 0);
    forall va: nat | r.lo <= va < end
      ensures Placeable(s0, r, level, va) && Query(s', va) == Wanted(s.g, r, level, va)
      ensures r.lo <= SpanBase(s.g, LeafLevel(s.g, r, level, va), va)
      ensures SpanBase(s.g, LeafLevel(s.g, r, level, va), va) + BlockSize(s.g, LeafLevel(s.g, r, level, va)) <= end
    {
      if mid <= va {
        PlaceableBelow(s0, s, g, r, table, i, next, mid, end, va);
      } else {
        assert Placeable(s0, r, level, va);
        KeptOutsideChunk(s, g, s', r, table, i, next, mid, end, va);
      }
    }
    forall va: nat | !(r.lo <= va < end)
      ensures SameTranslation(Query(s', va), Query(s0, va))
    {
      KeptOutsideChunk(s, g, s', r, table, i, next, mid, end, va);
    }
  }

  /** Outside the chunk, going down and mapping there keeps every translation. */
  lemma KeptOutsideChunk(s: Tables, g: Tables, s': Tables, r: Request, table: nat, i: nat, next: nat,
                         mid: nat, end: nat, va: nat)
    requires ChunkOf(s, r, table, i, mid, end) && Descends(s, g, table, i, next)
    requires MapState(g, s', Part(r, mid, end), next, end) && !(mid <= va < end)
    ensures SameTranslation(Query(s', va), Query(s, va))
  {
    assert SameTranslation(Query(s', va), Query(g, va));
    assert SameTranslation(Query(g, va), Query(s, va));
  }

  lemma BelowExact(s0: Tables, s: Tables, g: Tables, s': Tables, r: Request, table: nat, i: nat, next: nat,
                   mid: nat, end: nat, va: nat)
    requires TurnBelow(s0, s, g, s', r, table, i, next, mid, end)
    requires !InTable(s0, table, va) || end <= va < r.hi
    ensures Query(s', va) == Query(s0, va)
  {
    OutsideSlot(s, r, table, i, mid, end, va);
    ChildCoversSlot(g, table, i, va);
  }

  /** The part was mapped below the slot. */
  lemma MapTurnBelow(s0: Tables, s: Tables, g: Tables, s': Tables, r: Request, table: nat, i: nat, next: nat,
                     mid: nat, end: nat)
    requires TurnBelow(s0, s, g, s', r, table, i, next, mid, end)
    ensures MapState(s0, s', r, table, end)
  {
    ChildCoversSlot(g, table, i, 0);
    BelowKeepsAbove(s0, s, g, s', table, next);
    BelowMapped(s0, s, g, s', r, table, i, next, mid, end);
    forall va: nat | !InTable(s0, table, va) || end <= va < r.hi
      ensures Query(s', va) == Query(s0, va)
    {
      BelowExact(s0, s, g, s', r, table, i, next, mid, end, va);
    }
  }

  lemma OutsideSlot(s: Tables, r: Request, table: nat, i: nat, mid: nat, end: nat, va: nat)
    requires ChunkOf(s, r, table, i, mid, end) && (!InTable(s, table, va) || end <= va < r.hi)
    ensures !InSlot(s, table, i, va)
  {
    if InSlot(s, table, i, va) {
      SlotInTable(s, table, i, va);
    }
  }

  lemma BelowKeepsAbove(s0: Tables, s: Tables, g: Tables, s': Tables, table: nat, next: nat)
    requires s0.place.Keys == s0.mem.Keys && s.place.Keys == s.mem.Keys && g.place.Keys == g.mem.Keys
    requires table in s0.mem && AboveKept(s0, s, table) && AboveKept(s, g, table)
    requires next in g.mem && next != table && g.place[next].level < g.place[table].level
    requires AboveKept(g, s', next)
    ensures AboveKept(s0, s', table) && s'.mem[table] == g.mem[table]
  {
    assert forall q :: q in s0.mem && q != table && s0.place[q].level >= s0.place[table].level ==> q != next;
  }

  // ---- failure ----

  /** The request failed after lo..mid: what is left to undo. */
  ghost predicate FailState(s0: Tables, s: Tables, r: Request, table: nat, mid: nat) {
    && Valid(s0) && Valid(s) && s.g == s0.g && s.root == s0.root && table in s0.mem
    && r.lo <= mid <= r.hi
    && AboveKept(s0, s, table)
    && MappedUpTo(s0, s, r, s0.place[table].level, mid)
  }

  lemma FailBelow(s0: Tables, s: Tables, g: Tables, s': Tables, r: Request, table: nat, i: nat, next: nat, mid: nat)
    requires MapState(s0, s, r, table, mid) && Descends(s, g, table, i, next)
    requires Valid(s') && s'.g == g.g && s'.root == g.root && next in g.mem
    requires AboveKept(g, s', next) && TranslationsKept(g, s')
    ensures FailState(s0, s', r, table, mid)
  {
    ChildCoversSlot(g, table, i, 0);
    BelowKeepsAbove(s0, s, g, s', table, next);
    forall va: nat
      ensures SameTranslation(Query(g, va), Query(s, va))
    {
    }
  }

  /** Some address of the request cannot be placed. */
  ghost predicate Blocked(s: Tables, r: Request, level: nat)
    requires s.g.Valid()
  {
    exists va: nat :: r.lo <= va < r.hi && !Placeable(s, r, level, va)
  }

  lemma BlockedBelow(s0: Tables, s: Tables, g: Tables, r: Request, table: nat, i: nat, next: nat, mid: nat, end: nat)
    requires MapState(s0, s, r, table, mid) && ChunkOf(s, r, table, i, mid, end)
    requires Descends(s, g, table, i, next) && !TakesLeaf(s, r, table, mid, end)
    requires Blocked(g, Part(r, mid, end), s.place[table].level - 1)
    ensures Blocked(s0, r, s0.place[table].level)
  {
    var va: nat :| mid <= va < end && !Placeable(g, Part(r, mid, end), s.place[table].level - 1, va);
    PlaceableBelow(s0, s, g, r, table, i, next, mid, end, va);
  }

  /** The rollback of lines 443 and 444 restores every translation. */
  lemma RolledBack(s0: Tables, s: Tables, s': Tables, r: Request, table: nat, mid: nat)
    requires FailState(s0, s, r, table, mid) && UnmappedUpTo(s, s', table, r.lo, mid)
    ensures TranslationsKept(s0, s') && AboveKept(s0, s', table)
  {
    RollbackRestores(s0, s, s', r, s0.place[table].level, mid);
    AboveKeptTransitive(s0, s, s', table);
  }

  // ---- the loop around the turns ----

  /** The request is a whole number of pages, on both sides. */
  ghost predicate PageAligned(g: Geometry, rel: nat, pa: nat, size: nat)
    requires g.Valid()
  {
    Rem(rel, BlockSize(g, 0)) == 0 && Rem(pa, BlockSize(g, 0)) == 0 && Rem(size, BlockSize(g, 0)) == 0
  }

  /** All that one turn of the loop starts from; `rem`, `pa` and `chunk` are the loop's variables. */
  ghost predicate ChunkReady(s0: Tables, s: Tables, r: Request, table: nat, i: nat, mid: nat,
                             rem: nat, pa: nat, chunk: nat) {
    && MapState(s0, s, r, table, mid)
    && ChunkOf(s, r, table, i, mid, mid + chunk)
    && pa == r.pa + (mid - r.lo) && PageAligned(s.g, rem, pa, chunk)
    && var b := BlockSize(s.g, s.place[table].level);
    && mid == SlotBase(s, table, i) + rem && rem + chunk <= b
    && (TakesLeaf(s, r, table, mid, mid + chunk)
        <==> rem == 0 && Rem(pa, b) == 0 && chunk == b && IndexShift(s.g, s.place[table].level) <= BLOCK_MAX_SHIFT)
    && (s.place[table].level == 0 ==> TakesLeaf(s, r, table, mid, mid + chunk))
  }

  /** The next chunk, its test, and what is left, in terms of offsets into the table. */
  lemma NextChunk(s0: Tables, s: Tables, r: Request, table: nat, mid: nat, rel: nat, pa: nat, size: nat,
                  b: nat, rem: nat, chunk: nat, i: nat)
    requires MapState(s0, s, r, table, mid) && size > 0 && b == BlockSize(s.g, s.place[table].level)
    requires rel + size <= Times(|s.mem[table]|, b)
    requires rem == Rem(rel, b) && i == Quot(rel, b) && chunk == if size < b - rem then size else b - rem
    requires mid == s.place[table].base + rel && r.hi == mid + size && pa == r.pa + (mid - r.lo)
    requires mid == r.lo || Rem(rel, b) == 0
    requires PageAligned(s.g, rel, pa, size)
    ensures ChunkReady(s0, s, r, table, i, mid, rem, pa, chunk)
    ensures chunk <= size && i < |s.mem[table]|
    ensures PageAligned(s.g, rel + chunk, pa + chunk, size - chunk)
    ensures chunk < size ==> Rem(rel + chunk, b) == 0
  {
    ChunkInSlot(s, table, rel, size, b, rem, chunk, i);
    OffsetRem(s, table, rel);
    ChunkAligned(s.g, s.place[table].level, rel, pa, size, b, rem, chunk);
  }

  /** Offsets into a table and addresses agree modulo the block size. */
  lemma OffsetRem(s: Tables, table: nat, rel: nat)
    requires Valid(s) && table in s.mem
    ensures Rem(s.place[table].base + rel, BlockSize(s.g, s.place[table].level))
         == Rem(rel, BlockSize(s.g, s.place[table].level))
  {
    var level := s.place[table].level;
    assert TableOk(s, table);
    BlockSizeStep(s.g, level);
    RemOfRem(s.place[table].base, Fanout(s.g), BlockSize(s.g, level));
    RemOfAligned(s.place[table].base, BlockSize(s.g, level), rel);
  }

  lemma ChunkAligned(g: Geometry, level: nat, rel: nat, pa: nat, size: nat, b: nat, rem: nat, chunk: nat)
    requires g.Valid() && b == BlockSize(g, level) && size > 0 && PageAligned(g, rel, pa, size)
    requires rem == Rem(rel, b) && chunk == if size < b - rem then size else b - rem
    ensures PageAligned(g, rem, pa, chunk) && chunk <= size
    ensures PageAligned(g, rel + chunk, pa + chunk, size - chunk)
    ensures level == 0 ==> chunk == b
  {
    var page := BlockSize(g, 0);
    PageDivides(g, level, rel);
    AlignedSum(b, rem, page);
    AlignedSum(rel, chunk, page);
    AlignedSum(pa, chunk, page);
    AlignedSum(size, chunk, page);
  }

  /** What one call of the map function did, in every case. */
  ghost predicate MapResult(s0: Tables, s: Tables, r: Request, table: nat, ok: bool, refused: bool) {
    && Valid(s0) && Valid(s) && s.g == s0.g && s.root == s0.root && table in s0.mem
    && AboveKept(s0, s, table)
    && if ok then MapState(s0, s, r, table, r.hi)
       else TranslationsKept(s0, s) && (!refused ==> Blocked(s0, r, s0.place[table].level))
  }

  // ---- a request for one page that stops for lack of memory ----

  /** All that was done is that a clear table was linked into the slot. */
  ghost predicate TableLeft(s: Tables, s': Tables, table: nat, i: nat)
    requires s.g.Valid() && table in s.mem && table in s.place && i < |s.mem[table]| && s.place[table].level > 0
  {
    exists q :: q !in s.mem && s' == Linked(s, table, i, q)
  }

  /** What is left under a clear slot when the first allocation is refused, and when the second is. */
  ghost predicate PageStopped(s: Tables, s': Tables, table: nat, i: nat, first: bool, second: bool, ok: bool) {
    Valid(s) && table in s.mem && i < |s.mem[table]| && s.mem[table][i] == CLEAR ==>
      && (s.place[table].level > 0 && !first ==> !ok && s' == s)
      && (s.place[table].level > 1 && first && !second ==> !ok && TableLeft(s, s', table, i))
  }

  /** Above the last level a page does not fill a slot. */
  lemma LeafIsNoPageStop(s: Tables, s': Tables, table: nat, i: nat, chunk: nat, first: bool, second: bool, ok: bool)
    requires Valid(s) && table in s.mem && chunk == BlockSize(s.g, s.place[table].level)
    ensures chunk == BlockSize(s.g, 0) ==> PageStopped(s, s', table, i, first, second, ok)
  {
    if s.place[table].level > 0 {
      PageBelowBlock(s.g, s.place[table].level);
    }
  }

  lemma TableForPage(s: Tables, g: Tables, s': Tables, table: nat, i: nat, next: nat, rem: nat,
                     first: bool, again: bool, second: bool, third: bool, ok: bool)
    requires Valid(s) && table in s.mem && i < |s.mem[table]| && s.place[table].level > 0
    requires rem < BlockSize(s.g, s.place[table].level)
    requires s.mem[table][i] == CLEAR ==> next !in s.mem && g == Linked(s, table, i, next) && first && (again ==> second)
    requires PageStopped(g, s', next, Quot(rem, BlockSize(s.g, s.place[table].level - 1)), again, third, ok)
    ensures PageStopped(s, s', table, i, first, second, ok)
  {
    if s.mem[table][i] == CLEAR {
      LinkKeepsTree(s, table, i, next);
      BlockSizeStep(s.g, s.place[table].level - 1);
      QuotBelow(rem, Fanout(s.g), BlockSize(s.g, s.place[table].level - 1));
    }
  }

  /** The addresses and attributes of the request fit a descriptor. */
  predicate ReqFits(r: Request) {
    r.lo <= r.hi && r.pa + (r.hi - r.lo) <= PHYS_LIMIT && AttrsFit(r.attrs)
  }

  /** A turn that writes a leaf into its slot. */
  ghost predicate LeafReady(s0: Tables, s: Tables, r: Request, table: nat, i: nat, mid: nat, pa: nat, chunk: nat) {
    && MapState(s0, s, r, table, mid) && ChunkOf(s, r, table, i, mid, mid + chunk)
    && TakesLeaf(s, r, table, mid, mid + chunk) && ReqFits(r) && pa == r.pa + (mid - r.lo)
  }

  lemma LeafFitsHere(s0: Tables, s: Tables, r: Request, table: nat, i: nat, mid: nat, pa: nat, chunk: nat)
    requires LeafReady(s0, s, r, table, i, mid, pa, chunk)
    ensures table in s0.place && s0.place[table] == s.place[table]
    ensures MapState(s0, s, r, table, mid) && ChunkOf(s, r, table, i, mid, mid + chunk) && r.lo <= mid
    ensures TakesLeaf(s, r, table, mid, mid + chunk) && pa == r.pa + (mid - r.lo)
    ensures AddrFits(pa) && AttrsFit(r.attrs) && chunk == BlockSize(s.g, s.place[table].level)
  {
    GrainDivides(s.g, s.place[table].level, pa);
  }

  /** The test of lines 404 to 406 tells the two kinds of turn apart. */
  lemma WhichTurn(s0: Tables, s: Tables, r: Request, table: nat, i: nat, mid: nat, rem: nat, pa: nat, chunk: nat, b: nat)
    requires ChunkReady(s0, s, r, table, i, mid, rem, pa, chunk) && ReqFits(r)
    requires s.g.Valid() && table in s.place && b == BlockSize(s.g, s.place[table].level)
    ensures table in s0.place && s0.place[table] == s.place[table]
    ensures if rem != 0 || Rem(pa, b) != 0 || chunk != b || IndexShift(s.g, s.place[table].level) > BLOCK_MAX_SHIFT
            then BelowReady(s0, s, r, table, i, mid, rem, pa, chunk) && s.place[table].level > 0
            else LeafReady(s0, s, r, table, i, mid, pa, chunk)
  {
  }

  lemma MapStateTable(s0: Tables, s: Tables, r: Request, table: nat, mid: nat)
    requires MapState(s0, s, r, table, mid)
    ensures table in s0.mem && table in s0.place && table in s.mem && table in s.place
    ensures s.place[table] == s0.place[table] && |s.mem[table]| == |s0.mem[table]|
  {
  }

  /** A turn below a slot, from the result of the call for the part. */
  lemma TurnFromResult(s0: Tables, s: Tables, g: Tables, s': Tables, r: Request, table: nat, i: nat, next: nat,
                       mid: nat, end: nat, ok: bool, refused: bool)
    requires MapState(s0, s, r, table, mid) && ChunkOf(s, r, table, i, mid, end)
    requires Descends(s, g, table, i, next) && !TakesLeaf(s, r, table, mid, end)
    requires MapResult(g, s', Part(r, mid, end), next, ok, refused)
    ensures ok ==> MapState(s0, s', r, table, end)
    ensures !ok ==> FailState(s0, s', r, table, mid)
    ensures !ok && !refused ==> Blocked(s0, r, s0.place[table].level)
  {
    if ok {
      MapTurnBelow(s0, s, g, s', r, table, i, next, mid, end);
    } else {
      FailBelow(s0, s, g, s', r, table, i, next, mid);
      if !refused {
        ChildCoversSlot(g, table, i, 0);
        BlockedBelow(s0, s, g, r, table, i, next, mid, end);
      }
    }
  }

  /** A turn that goes below its slot. */
  ghost predicate BelowReady(s0: Tables, s: Tables, r: Request, table: nat, i: nat, mid: nat,
                             rem: nat, pa: nat, chunk: nat) {
    && ChunkReady(s0, s, r, table, i, mid, rem, pa, chunk) && !TakesLeaf(s, r, table, mid, mid + chunk)
    && ReqFits(r) && s.place[table].level > 0
  }

  /** What the call for the part starts from. */
  lemma DescentReady(s0: Tables, s: Tables, g: Tables, r: Request, table: nat, i: nat, next: nat,
                     mid: nat, rem: nat, pa: nat, chunk: nat)
    requires BelowReady(s0, s, r, table, i, mid, rem, pa, chunk) && Descends(s, g, table, i, next)
    ensures table in s.place && table in s0.place && s0.place[table] == s.place[table]
    ensures next in g.mem && next in g.place && g.place[next].level == s.place[table].level - 1
    ensures g.g == s.g && g.g.Valid() && mid == g.place[next].base + rem
    ensures IndexShift(g.g, g.place[next].level) == IndexShift(s.g, s.place[table].level) - (s.g.pageShift - 3)
    ensures Pow2(IndexShift(g.g, g.place[next].level)) == BlockSize(g.g, g.place[next].level)
    ensures rem + chunk <= Times(|g.mem[next]|, Pow2(IndexShift(g.g, g.place[next].level)))
    ensures r.lo <= mid && Part(r, mid, mid + chunk) == Request(mid, mid + chunk, pa, r.attrs)
    ensures pa + chunk <= PHYS_LIMIT && AttrsFit(r.attrs) && PageAligned(g.g, rem, pa, chunk)
  {
    ChildFits(g, table, i);
    ChildCoversSlot(g, table, i, mid);
  }

  /** No table behind the slot: the allocation was refused, or a block is in the way. */
  lemma NoDescent(s0: Tables, s: Tables, r: Request, table: nat, i: nat, mid: nat, rem: nat, pa: nat, chunk: nat,
                  refused: bool, first: bool, second: bool)
    requires BelowReady(s0, s, r, table, i, mid, rem, pa, chunk)
    requires if s.mem[table][i] == CLEAR then refused && !first
             else !refused && IsLeaf(s.place[table].level, s.mem[table][i])
    ensures FailState(s0, s, r, table, mid)
    ensures !refused ==> Blocked(s0, r, s0.place[table].level)
    ensures PageStopped(s, s, table, i, first, second, false)
  {
    if !refused {
      DescentBlocked(s0, s, r, table, i, mid, mid + chunk);
    }
  }

  /** The turn as a whole, from the result of the call for the part. */
  lemma TurnBelowDone(s0: Tables, s: Tables, g: Tables, s': Tables, r: Request, table: nat, i: nat, next: nat,
                      mid: nat, rem: nat, pa: nat, chunk: nat, ok: bool, refused: bool,
                      first: bool, again: bool, second: bool, third: bool)
    requires BelowReady(s0, s, r, table, i, mid, rem, pa, chunk) && Descends(s, g, table, i, next)
    requires MapResult(g, s', Part(r, mid, mid + chunk), next, ok, refused)
    requires s.mem[table][i] == CLEAR ==> next !in s.mem && g == Linked(s, table, i, next) && first && (again ==> second)
    requires chunk == BlockSize(s.g, 0) ==>
               PageStopped(g, s', next, Quot(rem, BlockSize(s.g, s.place[table].level - 1)), again, third, ok)
    ensures ok ==> MapState(s0, s', r, table, mid + chunk)
    ensures !ok ==> FailState(s0, s', r, table, mid)
    ensures !ok && !refused ==> Blocked(s0, r, s0.place[table].level)
    ensures chunk == BlockSize(s.g, 0) ==> PageStopped(s, s', table, i, first, second, ok)
  {
    TurnFromResult(s0, s, g, s', r, table, i, next, mid, mid + chunk, ok, refused);
    if chunk == BlockSize(s.g, 0) {
      TableForPage(s, g, s', table, i, next, rem, first, again, second, third, ok);
    }
  }

  lemma FailStateTable(s0: Tables, s: Tables, r: Request, table: nat, mid: nat)
    requires FailState(s0, s, r, table, mid)
    ensures table in s0.mem && table in s0.place && table in s.mem && table in s.place
    ensures s.place[table] == s0.place[table] && |s.mem[table]| == |s0.mem[table]|
  {
  }

  lemma ResultOfFailure(s0: Tables, s: Tables, s': Tables, r: Request, table: nat, mid: nat, refused: bool)
    requires FailState(s0, s, r, table, mid) && UnmappedUpTo(s, s', table, r.lo, mid)
    requires !refused ==> Blocked(s0, r, s0.place[table].level)
    ensures MapResult(s0, s', r, table, false, refused)
  {
    RolledBack(s0, s, s', r, table, mid);
  }

  lemma ResultOfSuccess(s0: Tables, s: Tables, r: Request, table: nat, refused: bool)
    requires MapState(s0, s, r, table, r.hi)
    ensures MapResult(s0, s, r, table, true, refused)
  {
  }

  /** The loop after lo..mid: `rel`, `pa`, `size` and `b` are its variables, `slot` the one it starts at. */
  ghost predicate Turns(s0: Tables, s: Tables, r: Request, table: nat, mid: nat, rel: nat, pa: nat, size: nat, b: nat,
                        slot: nat, first: bool, second: bool) {
    && MapState(s0, s, r, table, mid) && ReqFits(r)
    && b == BlockSize(s.g, s.place[table].level) && PageAligned(s.g, rel, pa, size)
    && size == r.hi - mid && pa == r.pa + (mid - r.lo) && mid == s.place[table].base + rel
    && rel + size <= Times(|s.mem[table]|, b)
    && (size > 0 ==> mid == r.lo || Rem(rel, b) == 0)
    && (mid == r.lo ==> slot == Quot(rel, b))
    && (r.hi - r.lo == BlockSize(s.g, 0) && mid != r.lo ==>
          size == 0 && PageStopped(s0, s, table, slot, first, second, true))
  }

  lemma TurnsStart(s: Tables, r: Request, table: nat, rel: nat, b: nat, slot: nat, first: bool, second: bool)
    requires Valid(s) && table in s.mem && r.lo <= r.hi && r.pa + (r.hi - r.lo) <= PHYS_LIMIT && AttrsFit(r.attrs)
    requires b == BlockSize(s.g, s.place[table].level) && PageAligned(s.g, rel, r.pa, r.hi - r.lo)
    requires r.lo == s.place[table].base + rel && rel + (r.hi - r.lo) <= Times(|s.mem[table]|, b) && slot == Quot(rel, b)
    ensures Turns(s, s, r, table, r.lo, rel, r.pa, r.hi - r.lo, b, slot, first, second)
  {
    NothingMapped(s, r, table);
  }

  lemma TurnReady(s0: Tables, s: Tables, r: Request, table: nat, mid: nat, rel: nat, pa: nat, size: nat, b: nat,
                  slot: nat, first: bool, second: bool, rem: nat, chunk: nat, i: nat)
    requires Turns(s0, s, r, table, mid, rel, pa, size, b, slot, first, second) && size > 0
    requires rem == Rem(rel, b) && i == Quot(rel, b) && chunk == if size < b - rem then size else b - rem
    ensures ChunkReady(s0, s, r, table, i, mid, rem, pa, chunk) && ReqFits(r) && s.g == s0.g
    ensures table in s0.mem && table in s.mem && s0.place[table] == s.place[table] && i < |s.mem[table]|
    ensures mid == r.lo ==> i == slot
  {
    MapStateTable(s0, s, r, table, mid);
    NextChunk(s0, s, r, table, mid, rel, pa, size, b, rem, chunk, i);
  }

  lemma TurnDone(s0: Tables, s: Tables, s': Tables, r: Request, table: nat, mid: nat, rel: nat, pa: nat, size: nat,
                 b: nat, slot: nat, first: bool, second: bool, chunk: nat)
    requires Turns(s0, s, r, table, mid, rel, pa, size, b, slot, first, second) && size > 0
    requires chunk == if size < b - Rem(rel, b) then size else b - Rem(rel, b)
    requires MapState(s0, s', r, table, mid + chunk)
    requires chunk == BlockSize(s0.g, 0) && mid == r.lo ==> PageStopped(s0, s', table, slot, first, second, true)
    ensures table in s'.mem && table in s'.place && s'.place[table] == s.place[table] && |s'.mem[table]| == |s.mem[table]|
    ensures Turns(s0, s', r, table, mid + chunk, rel + chunk, pa + chunk, size - chunk, b, slot, first, second)
  {
    MapStateTable(s0, s, r, table, mid);
    MapStateTable(s0, s', r, table, mid + chunk);
    NextChunk(s0, s, r, table, mid, rel, pa, size, b, Rem(rel, b), chunk, Quot(rel, b));
  }

  lemma TurnFailed(s0: Tables, s: Tables, s': Tables, r: Request, table: nat, mid: nat, rel: nat, pa: nat, size: nat,
                   b: nat, slot: nat, first: bool, second: bool)
    requires Turns(s0, s, r, table, mid, rel, pa, size, b, slot, first, second) && size > 0
    requires FailState(s0, s', r, table, mid)
    ensures table in s'.mem && table in s'.place && s'.place[table] == s.place[table] && |s'.mem[table]| == |s.mem[table]|
    ensures r.hi - r.lo == BlockSize(s0.g, 0) ==>
              mid == r.lo && BlockSize(s0.g, 0) == if size < b - Rem(rel, b) then size else b - Rem(rel, b)
  {
    MapStateTable(s0, s, r, table, mid);
    FailStateTable(s0, s', r, table, mid);
    var rem := Rem(rel, b);
    NextChunk(s0, s, r, table, mid, rel, pa, size, b, rem, if size < b - rem then size else b - rem, Quot(rel, b));
  }

  lemma TurnsEnd(s0: Tables, s: Tables, r: Request, table: nat, mid: nat, rel: nat, pa: nat, b: nat,
                 slot: nat, first: bool, second: bool, refused: bool)
    requires Turns(s0, s, r, table, mid, rel, pa, 0, b, slot, first, second)
    ensures MapResult(s0, s, r, table, true, refused)
    ensures r.hi - r.lo == BlockSize(s0.g, 0) ==> PageStopped(s0, s, table, slot, first, second, true)
  {
    ResultOfSuccess(s0, s, r, table, refused);
  }

  // ---- what a caller sees ----

  /**
   * The range was free, is translated as asked, by the largest blocks that fit, and
   * nothing else changed.
   */
  ghost predicate Mapped(s: Tables, s': Tables, r: Request)
    requires s.g.Valid() && s'.g == s.g
  {
    forall va: nat ::
      if r.lo <= va < r.hi then
        && Query(s, va).Miss?
        && Query(s', va) == Hit(r.pa + (va - r.lo), r.attrs, LeafLevel(s.g, r, s.g.topLevel, va))
      else
        SameTranslation(Query(s', va), Query(s, va))
  }

  lemma RootCovers(s: Tables)
    requires Valid(s)
    ensures s.root in s.mem && s.place[s.root] == Place(s.g.topLevel, 0, s.place[s.root].parent, s.place[s.root].slot)
    ensures |s.mem[s.root]| == s.g.topEntries
  {
    assert TableOk(s, s.root);
  }

  lemma ResultAtRoot(s0: Tables, s: Tables, r: Request, ok: bool, refused: bool)
    requires MapResult(s0, s, r, s0.root, ok, refused) && r.lo <= r.hi
    ensures ok ==> Mapped(s0, s, r)
    ensures !ok ==> TranslationsKept(s0, s)
    ensures !refused ==> (ok <==> !Blocked(s0, r, s0.g.topLevel))
  {
    RootCovers(s0);
  }
}

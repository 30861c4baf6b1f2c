/** What holds between the page-table operations, for every tree of tables. */
module AddressSpace {
  import opened PageTable
  import opened Spans
  import opened Mapping
  import opened PteFormat

  // ---- the tables form a tree ----

  /** The slots from the root down to `p`. */
  ghost function PathTo(s: Tables, p: nat): seq<nat>
    requires Valid(s) && p in s.mem
    decreases s.g.topLevel - s.place[p].level
  {
    if p == s.root then []
    else
      assert TableOk(s, p);
      PathTo(s, s.place[p].parent) + [s.place[p].slot]
  }

  /** The table at the end of a path of table descriptors. */
  ghost predicate LeadsTo(s: Tables, path: seq<nat>, p: nat)
    requires Valid(s)
  {
    p in s.mem &&
    if path == [] then p == s.root
    else
      exists q ::
        && LeadsTo(s, path[..|path| - 1], q) && path[|path| - 1] < |s.mem[q]|
        && IsTable(s.place[q].level, s.mem[q][path[|path| - 1]])
        && s.mem[q][path[|path| - 1]].addr == p
  }

  /** Every allocated table is reached from the root: none is leaked. */
  lemma {:induction false} EveryTableReachable(s: Tables, p: nat)
    requires Valid(s) && p in s.mem
    ensures LeadsTo(s, PathTo(s, p), p)
    decreases s.g.topLevel - s.place[p].level
  {
    if p != s.root {
      assert TableOk(s, p);
      var q := s.place[p].parent;
      EveryTableReachable(s, q);
      assert PathTo(s, p)[..|PathTo(s, p)| - 1] == PathTo(s, q);
    }
  }

  /** Different slots point to different tables, none to the root. */
  lemma OneParentSlot(s: Tables, p: nat, i: nat, q: nat, j: nat)
    requires Valid(s) && p in s.mem && i < |s.mem[p]| && IsTable(s.place[p].level, s.mem[p][i])
    requires q in s.mem && j < |s.mem[q]| && IsTable(s.place[q].level, s.mem[q][j])
    ensures s.mem[p][i].addr == s.mem[q][j].addr ==> p == q && i == j
    ensures s.mem[p][i].addr in s.mem && s.mem[p][i].addr != s.root
  {
    assert TableOk(s, p) && SlotOk(s, p, i);
    assert TableOk(s, q) && SlotOk(s, q, j);
    ChildCoversSlot(s, p, i, 0);
  }

  // ---- map and unmap together ----

  /** Unmapping exactly what was mapped restores every translation. */
  lemma MapThenUnmap(s0: Tables, s1: Tables, s2: Tables, r: Request)
    requires Valid(s0) && Valid(s1) && s1.g == s0.g && s2.g == s0.g
    requires Mapped(s0, s1, r) && Unmapped(s1, s2, r.lo, r.hi)
    ensures TranslationsKept(s0, s2)
  {
    forall va: nat
      ensures SameTranslation(Query(s2, va), Query(s0, va))
    {
      if !(r.lo <= va < r.hi) && Overlaps(s1, va, r.lo, r.hi) {
        // the block was there before, so its part of the range was not free
        var base := SpanBase(s1.g, Query(s1, va).level, va);
        SpanTranslatesAlike(s0, va, if base < r.lo then r.lo else base);
        assert false;
      }
    }
  }

  /** Mapping flags makes a query give them back, at every address of the range. */
  lemma MappedFlags(s: Tables, s': Tables, r: Request, flags: bv32, va: nat)
    requires s.g.Valid() && s'.g == s.g && Mapped(s, s', r) && r.lo <= va < r.hi
    requires r.attrs == AttrBits(FlagsToAttr(flags)) && flags & FLAG_CACHE_MASK != 3
    ensures Query(s', va).Hit? && Query(s', va).pa - va == r.pa - r.lo
    ensures AttrToFlags(Query(s', va).attrs.bits) == Flags(flags & FLAGS_MASK)
  {
    FlagsRoundTrip(flags, 0);
    assert FlagsToAttr(flags) | 0 == FlagsToAttr(flags);
  }

  // ---- unmap and blocks that cross the ends of the range ----

  /** A block crosses an end of lo..hi: a query at the two ends tells. */
  ghost predicate Straddled(s: Tables, lo: nat, hi: nat)
    requires s.g.Valid() && lo < hi
  {
    || (Query(s, lo).Hit? && SpanBase(s.g, Query(s, lo).level, lo) < lo)
    || (Query(s, hi - 1).Hit?
        && SpanBase(s.g, Query(s, hi - 1).level, hi - 1) + BlockSize(s.g, Query(s, hi - 1).level) > hi)
  }

  /** Unmapping keeps every translation outside the range iff no block crosses its ends. */
  lemma UnmapIsExactIff(s: Tables, s': Tables, lo: nat, hi: nat)
    requires Valid(s) && s'.g == s.g && lo < hi && Unmapped(s, s', lo, hi)
    ensures (forall va: nat :: !(lo <= va < hi) ==> SameTranslation(Query(s', va), Query(s, va)))
       <==> !Straddled(s, lo, hi)
  {
    if Straddled(s, lo, hi) {
      var low := Query(s, lo).Hit? && SpanBase(s.g, Query(s, lo).level, lo) < lo;
      var edge := if low then lo else hi - 1;
      var va := if low then lo - 1 else hi;
      SpanTranslatesAlike(s, edge, va);
      assert !SameTranslation(Query(s', va), Query(s, va));
    } else {
      forall va: nat | !(lo <= va < hi)
        ensures SameTranslation(Query(s', va), Query(s, va))
      {
        if Overlaps(s, va, lo, hi) {
          SpanTranslatesAlike(s, va, if va < lo then lo else hi - 1);
          assert false;
        }
      }
    }
  }

  // ---- a free range that cannot be mapped ----

  /** An address space without tables below the root. */
  ghost function NoTables(g: Geometry, root: nat): Tables
    requires g.Valid()
  {
    Tables(g, root, map[root := seq(g.topEntries, _ => CLEAR)], map[root := Place(g.topLevel, 0, 0, 0)])
  }

  lemma NoTablesValid(g: Geometry, root: nat)
    requires g.Valid()
    ensures Valid(NoTables(g, root))
    ensures forall va: nat :: Query(NoTables(g, root), va).Miss?
  {
    var s := NoTables(g, root);
    forall i | 0 <= i < |s.mem[root]|
      ensures SlotOk(s, root, i)
    {
    }
    assert TableOk(s, root);
    forall va: nat
      ensures Query(s, va).Miss?
    {
      if InTable(s, root, va) {
        var i := SlotOf(s, root, va);
        QueryInSlot(s, root, i, va);
      } else {
        OutsideRoot(s, va);
      }
    }
  }

  /** One empty table below the root: all addresses are free, and yet its block cannot be mapped. */
  lemma LeftoverTableBlocks(g: Geometry, root: nat, q: nat, attrs: AttrBits)
    requires g.Valid() && g.topLevel > 0 && IndexShift(g, g.topLevel) <= BLOCK_MAX_SHIFT && q != root
    ensures var s := Linked(NoTables(g, root), root, 0, q);
            && Valid(s) && (forall va: nat :: Query(s, va).Miss?)
            && Blocked(s, Request(0, BlockSize(g, g.topLevel), 0, attrs), g.topLevel)
  {
    var s0 := NoTables(g, root);
    var s := Linked(s0, root, 0, q);
    var r := Request(0, BlockSize(g, g.topLevel), 0, attrs);
    NoTablesValid(g, root);
    LinkTable(s0, root, 0, q);
    assert InSlot(s0, root, 0, 0);
    assert Query(s, 0) == Miss(g.topLevel - 1);
    assert LeafFits(g, r, g.topLevel, 0);
    assert !Placeable(s, r, g.topLevel, 0);
  }

  /** It is what a request for one page leaves when the second allocation is refused. */
  lemma PageLeavesTable(g: Geometry, root: nat, s: Tables, attrs: AttrBits, ok: bool)
    requires g.Valid() && g.topLevel > 1 && IndexShift(g, g.topLevel) <= BLOCK_MAX_SHIFT
    requires PageStopped(NoTables(g, root), s, root, 0, true, false, ok)
    ensures !ok && s.g == g && (forall va: nat :: Query(s, va).Miss?)
    ensures TableLeft(NoTables(g, root), s, root, 0)
    ensures Blocked(s, Request(0, BlockSize(g, g.topLevel), 0, attrs), g.topLevel)
  {
    var s0 := NoTables(g, root);
    NoTablesValid(g, root);
    var q :| q !in s0.mem && s == Linked(s0, root, 0, q);
    LeftoverTableBlocks(g, root, q, attrs);
  }

  /** One block and nothing else: unmapping the first page of it takes the whole block. */
  lemma PageOfBlockStraddles(g: Geometry, root: nat, attrs: AttrBits, s': Tables)
    requires g.Valid() && g.topLevel > 0 && IndexShift(g, g.topLevel) <= BLOCK_MAX_SHIFT
    ensures var s := WithEntry(NoTables(g, root), root, 0, Pte(DESC_BLOCK, 0, attrs));
            && Valid(s) && Straddled(s, 0, BlockSize(g, 0))
            && Query(s, BlockSize(g, 0)) == Hit(BlockSize(g, 0), attrs, g.topLevel)
            && (s'.g == g && Unmapped(s, s', 0, BlockSize(g, 0)) ==> Query(s', BlockSize(g, 0)).Miss?)
  {
    var s0 := NoTables(g, root);
    var page := BlockSize(g, 0);
    NoTablesValid(g, root);
    WriteLeaf(s0, root, 0, Pte(DESC_BLOCK, 0, attrs));
    PageBelowBlock(g, g.topLevel);
    SpanUnique(g, g.topLevel, 0, page - 1);
    SpanUnique(g, g.topLevel, 0, page);
  }
}
